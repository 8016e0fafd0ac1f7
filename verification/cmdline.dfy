/**
 The command line the Windows launcher hands to CreateProcess
 (src/myfork.c:357-368): the child's arguments joined with single spaces,
 NUL-terminated, in a block of exactly the sum of each argument's length
 plus one. Arguments are not quoted.
 */
module CommandLine {
  import opened Results
  import opened Buffers

  /** The bytes the first loop counts: each argument and one separator. */
  function TotalLen(args: seq<string>): (n: nat)
    ensures |args| > 0 ==> n >= 1
  {
    if |args| == 0 then 0 else TotalLen(args[..|args| - 1]) + |args[|args| - 1]| + 1
  }

  /** The arguments separated by single spaces. */
  function Join(args: seq<string>): string
    requires |args| > 0
  {
    if |args| == 1 then args[0] else Join(args[..|args| - 1]) + " " + args[|args| - 1]
  }

  /** Each argument followed by a space: what the copy loop leaves behind
      before the last space becomes the terminator. */
  function Spaced(args: seq<string>): (s: string)
    ensures |s| == TotalLen(args)
  {
    if |args| == 0 then [] else Spaced(args[..|args| - 1]) + args[|args| - 1] + " "
  }

  lemma {:induction false} SpacedIsJoin(args: seq<string>)
    requires |args| > 0
    ensures Spaced(args) == Join(args) + " "
    decreases |args|
  {
    if |args| > 1 {
      var init := args[..|args| - 1];
      SpacedIsJoin(init);
      assert init[..|init| - 1] == args[..|args| - 2];
    } else {
      assert args[..0] == [];
    }
  }

  /** The join as the source writes it: a first loop sums the lengths, a
      second strcpy()s each argument at the running offset and overwrites
      its NUL with a space; the last space becomes the terminator. The
      malloc'd block starts out as `junk`. */
  method BuildCommandLine(args: seq<string>, junk: nat -> char) returns (cmdline: seq<char>)
    requires |args| > 0
    requires forall i :: 0 <= i < |args| ==> NoNul(args[i])
    ensures |cmdline| == TotalLen(args)
    ensures cmdline == Join(args) + ['\0']
  {
    var len := 0;
    var i := 0;
    while i < |args|
      invariant 0 <= i <= |args|
      invariant len == TotalLen(args[..i])
    {
      assert args[..i + 1][..i] == args[..i];
      len := len + |args[i]| + 1;
      i := i + 1;
    }
    assert args[..|args|] == args;
    cmdline := seq(len, k requires 0 <= k < len => junk(k));
    var pos := 0;
    i := 0;
    while i < |args|
      invariant 0 <= i <= |args|
      invariant |cmdline| == len
      invariant pos == TotalLen(args[..i]) && pos <= len
      invariant cmdline[..pos] == Spaced(args[..i])
    {
      PrefixLen(args, i);
      CopyThenSpace(cmdline, pos, args[i]);
      cmdline := StrCpy(cmdline, pos, args[i]);
      pos := pos + |args[i]| + 1;
      cmdline := cmdline[pos - 1 := ' '];
      assert args[..i + 1][..i] == args[..i];
      i := i + 1;
    }
    assert args[..|args|] == args;
    SpacedIsJoin(args);
    cmdline := cmdline[len - 1 := '\0'];
    assert cmdline[..len - 1] == Join(args);
  }

  /** One pass of the copy loop keeps what came before the offset and
      leaves the argument and a space after it. */
  lemma CopyThenSpace(buf: seq<char>, at: nat, arg: string)
    requires NoNul(arg) && at + |arg| + 1 <= |buf|
    ensures var r := StrCpy(buf, at, arg)[at + |arg| := ' '];
            r[..at + |arg| + 1] == buf[..at] + arg + " "
  {
    var r := StrCpy(buf, at, arg)[at + |arg| := ' '];
    var w := buf[..at] + arg + " ";
    forall i | 0 <= i < at + |arg| + 1
      ensures r[i] == w[i]
    {
      if at <= i < at + |arg| {
        assert StrCpy(buf, at, arg)[at..at + |arg| + 1][i - at] == (arg + ['\0'])[i - at];
      }
    }
  }

  /** The offset of argument `i` plus its copy stays inside the block. */
  lemma {:induction false} PrefixLen(args: seq<string>, i: nat)
    requires i < |args|
    ensures TotalLen(args[..i]) + |args[i]| + 1 <= TotalLen(args)
    decreases |args| - i
  {
    if i + 1 < |args| {
      PrefixLen(args, i + 1);
      assert args[..i + 1][..i] == args[..i];
    } else {
      assert args[..i + 1] == args;
    }
    assert args[..i + 1][..i] == args[..i];
  }

  /** Splits a command line at its spaces: the arguments a parser that only
      knows spaces would see. */
  function Split(s: string): (args: seq<string>)
    ensures |args| > 0
    decreases |s|
  {
    match LastIndex(s, ' ')
    case None => [s]
    case Some(k) => Split(s[..k]) + [s[k + 1..]]
  }

  /** Arguments without spaces come back from the command line unchanged. */
  lemma {:induction false} SplitJoin(args: seq<string>)
    requires |args| > 0
    requires forall i :: 0 <= i < |args| ==> ' ' !in args[i]
    ensures Split(Join(args)) == args
    decreases |args|
  {
    if |args| > 1 {
      var init := args[..|args| - 1];
      var last := args[|args| - 1];
      var s := Join(args);
      var k := |Join(init)|;
      JoinAtLast(args);
      LastIndexAt(s, k);
      assert Split(s) == Split(Join(init)) + [last];
      SplitJoin(init);
      assert init + [last] == args;
    }
  }

  /** A join of several arguments is the join of all but the last, a space,
      and the last. */
  lemma JoinAtLast(args: seq<string>)
    requires |args| > 1
    requires ' ' !in args[|args| - 1]
    ensures var k := |Join(args[..|args| - 1])|;
            && k < |Join(args)|
            && Join(args)[k] == ' '
            && Join(args)[..k] == Join(args[..|args| - 1])
            && Join(args)[k + 1..] == args[|args| - 1]
            && ' ' !in Join(args)[k + 1..]
  {
    var init := args[..|args| - 1];
    var s := Join(args);
    var k := |Join(init)|;
    assert s == Join(init) + " " + args[|args| - 1];
    assert s[..k] == Join(init);
    assert s[k + 1..] == args[|args| - 1];
  }

  /** The last space of a string whose tail after `k` has none is at `k`. */
  lemma LastIndexAt(s: string, k: nat)
    requires k < |s| && s[k] == ' ' && ' ' !in s[k + 1..]
    ensures LastIndex(s, ' ') == Some(k)
  {
  }

  /** With no quoting, an argument that holds a space cannot be told from
      two arguments: both lists give the same command line. */
  lemma SpacesSplitArguments()
    ensures Join(["a b"]) == Join(["a", "b"])
    ensures Split(Join(["a b"])) == ["a", "b"]
  {
    assert ["a", "b"][..1] == ["a"];
    SplitJoin(["a", "b"]);
  }
}
