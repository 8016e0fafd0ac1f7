/**
 The process environment as putenv maintains it: a list of "NAME=VALUE"
 strings, looked up by getenv (first definition wins), and the fallback
 setenv of src/myfork.c:189-203, which formats "NAME=VALUE" into a fresh
 heap block that it hands to putenv and never frees.
 */
module Environ {
  import opened Results
  import opened Buffers

  type Environ = seq<string>

  /** A variable name as every caller in the launcher passes one. */
  predicate ValidName(name: string) {
    |name| > 0 && NoNul(name) && '=' !in name
  }

  /** Every entry is a C string, as putenv requires. */
  predicate CleanEnv(env: Environ) {
    forall i :: 0 <= i < |env| ==> NoNul(env[i])
  }

  /** `entry` is a definition of `name`. */
  predicate Defines(entry: string, name: string) {
    |name| < |entry| && entry[..|name|] == name && entry[|name|] == '='
  }

  /** An entry defines at most one valid name. */
  lemma DefinesOneName(entry: string, a: string, b: string)
    requires ValidName(a) && ValidName(b)
    requires Defines(entry, a) && Defines(entry, b)
    ensures a == b
  {
    assert |a| == |b|;
  }

  /** getenv(name): the value of the first definition of `name`, or NULL. */
  function GetEnv(env: Environ, name: string): (r: Option<string>)
    ensures r.Some? && CleanEnv(env) ==> NoNul(r.value)
  {
    if |env| == 0 then None
    else if Defines(env[0], name) then Some(env[0][|name| + 1..])
    else
      var r := GetEnv(env[1..], name);
      assert CleanEnv(env) ==> CleanEnv(env[1..]) by {
        assert forall i :: 1 <= i < |env| ==> env[i] == env[1..][i - 1];
      }
      r
  }

  /** getenv finds a variable exactly when some entry defines it, and then
      returns the value of the first such entry. */
  lemma {:induction false} GetEnvFirst(env: Environ, name: string)
    ensures GetEnv(env, name).None? <==> forall i :: 0 <= i < |env| ==> !Defines(env[i], name)
    ensures GetEnv(env, name).Some? ==>
              exists i :: 0 <= i < |env| && Defines(env[i], name) && GetEnv(env, name).value == env[i][|name| + 1..]
                          && forall j :: 0 <= j < i ==> !Defines(env[j], name)
    decreases |env|
  {
    if |env| > 0 && !Defines(env[0], name) {
      GetEnvFirst(env[1..], name);
      assert forall i :: 1 <= i < |env| ==> env[i] == env[1..][i - 1];
      if GetEnv(env, name).Some? {
        var i :| 0 <= i < |env| - 1 && Defines(env[1..][i], name) && GetEnv(env, name).value == env[1..][i][|name| + 1..]
                 && forall j :: 0 <= j < i ==> !Defines(env[1..][j], name);
        assert Defines(env[i + 1], name);
      }
    }
  }

  /** putenv(entry) for an entry that defines `name`: the entry replaces the
      first definition of `name`, or is appended when there is none. */
  function PutEnv(env: Environ, name: string, entry: string): (r: Environ)
    requires ValidName(name) && Defines(entry, name)
    ensures GetEnv(r, name) == Some(entry[|name| + 1..])
    ensures forall other :: ValidName(other) && other != name ==> GetEnv(r, other) == GetEnv(env, other)
    ensures |r| == |env| || |r| == |env| + 1
    ensures CleanEnv(env) && NoNul(entry) ==> CleanEnv(r)
  {
    if |env| == 0 then [entry]
    else if Defines(env[0], name) then
      var r := [entry] + env[1..];
      assert forall other :: ValidName(other) && other != name ==> !Defines(entry, other) && !Defines(env[0], other) by {
        forall other | ValidName(other) && other != name
          ensures !Defines(entry, other) && !Defines(env[0], other)
        {
          if Defines(entry, other) { DefinesOneName(entry, name, other); }
          if Defines(env[0], other) { DefinesOneName(env[0], name, other); }
        }
      }
      assert r[1..] == env[1..];
      r
    else
      var r := [env[0]] + PutEnv(env[1..], name, entry);
      assert r[1..] == PutEnv(env[1..], name, entry);
      r
  }

  /** sprintf(str, "%s=%s", name, value) into malloc(strlen(name) + 1 + strlen(value) + 1):
      the entry with its terminator fills the block exactly. */
  function FormatEntry(name: string, value: string, block: seq<char>): (entry: string)
    requires NoNul(name) && NoNul(value)
    requires |block| == |name| + 1 + |value| + 1
    ensures entry == name + "=" + value
    ensures |entry| + 1 == |block|
  {
    var text := name + "=" + value;
    StrCpyAtStart(block, text);
    CStr(StrCpy(block, 0, text))
  }

  /** The fallback setenv: with `overwrite` zero an existing variable is left
      alone; otherwise the new "name=value" entry is put into the environment. */
  function SetEnv(env: Environ, name: string, value: string, overwrite: int): (r: Environ)
    requires ValidName(name) && NoNul(value)
    ensures overwrite == 0 && GetEnv(env, name).Some? ==> r == env
    ensures overwrite != 0 || GetEnv(env, name).None? ==> GetEnv(r, name) == Some(value)
    ensures forall other :: ValidName(other) && other != name ==> GetEnv(r, other) == GetEnv(env, other)
    ensures CleanEnv(env) ==> CleanEnv(r)
  {
    if overwrite == 0 && GetEnv(env, name).Some? then env
    else
      var size := |name| + 1 + |value| + 1;
      var entry := FormatEntry(name, value, Garbage(size, '\0'));
      assert entry[..|name|] == name && entry[|name| + 1..] == value;
      PutEnv(env, name, entry)
  }
}
