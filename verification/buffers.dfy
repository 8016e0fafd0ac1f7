/**
 C memory blocks and C strings, as the launcher uses them: a block returned by
 malloc is a sequence of fixed length whose initial contents are arbitrary;
 strcpy/strcat/memcpy/sprintf write into it and must stay inside it; a C
 string is the part of a block before the first NUL.
 */
module Buffers {
  import opened Results

  /** A C string never contains its own terminator. */
  predicate NoNul(s: string) {
    '\0' !in s
  }

  /** A fixed representative of the contents of a fresh malloc block. Every
      contract in this project that takes a block's initial contents holds for
      all of them, so composite operations may pass this one. */
  function Garbage<T>(n: nat, filler: T): (b: seq<T>)
    ensures |b| == n
  {
    seq(n, _ => filler)
  }

  /** memcpy(buf + at, src, |src|): the destination range must lie in the block. */
  function Overwrite<T>(buf: seq<T>, at: nat, src: seq<T>): (r: seq<T>)
    requires at + |src| <= |buf|
    ensures |r| == |buf|
    ensures r[at..at + |src|] == src
    ensures forall i :: 0 <= i < |buf| && !(at <= i < at + |src|) ==> r[i] == buf[i]
  {
    buf[..at] + src + buf[at + |src|..]
  }

  /** strcpy(buf + at, s): copies the string and its terminator. */
  function StrCpy(buf: seq<char>, at: nat, s: string): (r: seq<char>)
    requires NoNul(s)
    requires at + |s| + 1 <= |buf|
    ensures |r| == |buf|
  {
    Overwrite(buf, at, s + ['\0'])
  }

  /** The C string held at the start of a block: everything before the first NUL. */
  function CStr(buf: seq<char>): (r: string)
    requires '\0' in buf
    ensures NoNul(r)
    ensures |r| < |buf| && buf[..|r|] == r && buf[|r|] == '\0'
  {
    if buf[0] == '\0' then [] else [buf[0]] + CStr(buf[1..])
  }

  /** A block that holds `s` followed by a NUL holds the C string `s`,
      whatever comes after the terminator. */
  lemma CStrOfTerminated(buf: seq<char>, s: string)
    requires NoNul(s)
    requires |s| < |buf| && buf[..|s|] == s && buf[|s|] == '\0'
    ensures '\0' in buf && CStr(buf) == s
  {
    var r := CStr(buf);
    assert |r| == |s|;
  }

  /** After strcpy(buf + at, s) the block holds, from `at` on, the C string `s`. */
  lemma StrCpyHolds(buf: seq<char>, at: nat, s: string)
    requires NoNul(s)
    requires at + |s| + 1 <= |buf|
    ensures StrCpy(buf, at, s)[..at] == buf[..at]
    ensures '\0' in StrCpy(buf, at, s)[at..] && CStr(StrCpy(buf, at, s)[at..]) == s
  {
    var r := StrCpy(buf, at, s);
    assert r[at..at + |s| + 1] == s + ['\0'];
    assert r[at..][..|s|] == s;
    assert r[at..][|s|] == '\0';
    CStrOfTerminated(r[at..], s);
    assert r[..at] == buf[..at] by {
      forall i | 0 <= i < at
        ensures r[i] == buf[i]
      {
      }
    }
  }

  /** strcpy(buf, s) at the start of a block: the block's C string becomes `s`. */
  lemma StrCpyAtStart(buf: seq<char>, s: string)
    requires NoNul(s)
    requires |s| + 1 <= |buf|
    ensures '\0' in StrCpy(buf, 0, s) && CStr(StrCpy(buf, 0, s)) == s
  {
    StrCpyHolds(buf, 0, s);
    assert StrCpy(buf, 0, s)[0..] == StrCpy(buf, 0, s);
  }

  /** strcpy(buf + at, t) where `at` lies within the block's C string `s`:
      the block then holds `s[..at]` followed by `t`. */
  lemma StrCpyInside(buf: seq<char>, at: nat, t: string)
    requires '\0' in buf && at <= |CStr(buf)|
    requires NoNul(t) && at + |t| + 1 <= |buf|
    ensures '\0' in StrCpy(buf, at, t) && CStr(StrCpy(buf, at, t)) == CStr(buf)[..at] + t
  {
    var s := CStr(buf);
    var u := s[..at] + t;
    var r := StrCpy(buf, at, t);
    var w := t + ['\0'];
    assert r[at..at + |w|] == w;
    forall i | 0 <= i < |u|
      ensures r[i] == u[i]
    {
      if i < at {
        assert r[i] == buf[i] && buf[..|s|][i] == s[i];
      } else {
        assert r[at..at + |w|][i - at] == w[i - at];
      }
    }
    assert r[..|u|] == u;
    assert r[|u|] == r[at..at + |w|][|t|];
    CStrOfTerminated(r, u);
  }

  /** strcat(buf, s): copies `s` over the terminator of the block's C string. */
  function StrCat(buf: seq<char>, s: string): (r: seq<char>)
    requires '\0' in buf && NoNul(s)
    requires |CStr(buf)| + |s| + 1 <= |buf|
    ensures |r| == |buf|
    ensures '\0' in r && CStr(r) == CStr(buf) + s
  {
    var at := |CStr(buf)|;
    var r := StrCpy(buf, at, s);
    StrCpyHolds(buf, at, s);
    assert r[..at + |s|] == CStr(buf) + s by {
      assert r[..at] == buf[..at] == CStr(buf);
      assert r[at..][..|s|] == s;
    }
    assert r[at + |s|] == r[at..][|s|] == '\0';
    CStrOfTerminated(r, CStr(buf) + s);
    r
  }

  /** strrchr(s, c), as the index of the last occurrence of `c`. */
  function LastIndex(s: string, c: char): (r: Option<nat>)
    ensures r.Some? ==> r.value < |s| && s[r.value] == c && c !in s[r.value + 1..]
    ensures r.None? <==> c !in s
  {
    if |s| == 0 then None
    else if s[|s| - 1] == c then Some(|s| - 1)
    else
      var r := LastIndex(s[..|s| - 1], c);
      assert s == s[..|s| - 1] + [s[|s| - 1]];
      if r.Some? then
        assert s[r.value + 1..] == s[..|s| - 1][r.value + 1..] + [s[|s| - 1]];
        r
      else r
  }
}
