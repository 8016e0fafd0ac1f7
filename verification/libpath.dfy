/**
 The preload library path resolver of the cooperative (fork/exec) launcher,
 src/myfork.c:297-333, and its per-platform constants (src/myfork.c:56-59,
 208-224).

 The path of the fault-injection library is built in a block sized for the
 longest candidate: the colocated build copy `dir(argv0)/LT_OBJDIR SONAME`
 when `argv0` names a directory and that file is readable, the installed
 `LIBDIR/SONAME` otherwise, then the platform suffix EXTRAINFO. The result is
 appended to any non-empty value the preload variable already has, and the
 variable is written only in preload mode. `access(path, R_OK)` is the
 oracle `readable`.
 */
module LibPath {
  import opened Results
  import opened Buffers
  import opened Environ

  datatype Platform = Apple | Osf | SolarisX86 | OtherUnix

  datatype OpMode = PreloadMode | OtherMode

  /** The dynamic loader's preload variable (src/myfork.c:211, 217, 220, 223). */
  function PreloadVar(p: Platform): string {
    match p
    case Apple => "DYLD_INSERT_LIBRARIES"
    case Osf => "_RLD_LIST"
    case SolarisX86 => "LD_PRELOAD_32"
    case OtherUnix => "LD_PRELOAD"
  }

  /** Every preload variable is a name setenv accepts. */
  lemma PreloadVarValid(p: Platform)
    ensures ValidName(PreloadVar(p))
  {
  }

  /** The suffix the platform's loader list needs (src/myfork.c:210, 216, 219, 222). */
  function ExtraInfo(p: Platform): string {
    match p
    case Osf => ":DEFAULT"
    case _ => ""
  }

  /** The build constants the resolver concatenates. LIBDIR, SONAME and
      LT_OBJDIR (".libs/" when the build leaves it undefined, lines 57-59)
      come from the build configuration, which is not part of this model. */
  datatype Install = Install(libDir: string, objDir: string, soname: string, extraInfo: string)

  predicate ValidInstall(c: Install) {
    NoNul(c.libDir) && NoNul(c.objDir) && NoNul(c.soname) && NoNul(c.extraInfo)
  }

  /** malloc(len + strlen(LIBDIR "/" LT_OBJDIR SONAME EXTRAINFO) + 1). */
  function PathBlockSize(argv0: string, c: Install): nat {
    |argv0| + |c.libDir + "/" + c.objDir + c.soname + c.extraInfo| + 1
  }

  /** The installed library. */
  function SystemPath(c: Install): string {
    c.libDir + "/" + c.soname
  }

  /** The build copy next to the binary: the directory part of `argv0`, up to
      and including its last '/', then LT_OBJDIR SONAME. */
  function ColocatedPath(argv0: string, c: Install): string
    requires '/' in argv0
  {
    argv0[..LastIndex(argv0, '/').value + 1] + c.objDir + c.soname
  }

  /** The three cases of the resolver, stated directly. */
  function ChosenPath(argv0: string, c: Install, readable: string -> bool): string {
    if '/' in argv0 && readable(ColocatedPath(argv0, c)) then ColocatedPath(argv0, c) + c.extraInfo
    else SystemPath(c) + c.extraInfo
  }

  /** strcpy(libpath, argv0) into the fresh block. */
  function CopyArgv0(block: seq<char>, argv0: string): (b: seq<char>)
    requires NoNul(argv0) && |argv0| + 1 <= |block|
    ensures |b| == |block| && '\0' in b && CStr(b) == argv0
  {
    StrCpyAtStart(block, argv0);
    StrCpy(block, 0, argv0)
  }

  /** strcpy(tmp + 1, LT_OBJDIR SONAME), where `tmp` points at the last '/'. */
  function PlaceColocated(b0: seq<char>, argv0: string, c: Install): (b1: seq<char>)
    requires ValidInstall(c) && NoNul(argv0) && '/' in argv0
    requires |b0| == PathBlockSize(argv0, c) && '\0' in b0 && CStr(b0) == argv0
    ensures |b1| == |b0| && '\0' in b1 && CStr(b1) == ColocatedPath(argv0, c)
  {
    var k := LastIndex(argv0, '/').value;
    var tail := c.objDir + c.soname;
    TailFits(argv0, c, k);
    StrCpyInside(b0, k + 1, tail);
    StrCpy(b0, k + 1, tail)
  }

  /** LT_OBJDIR SONAME after the last '/' of argv0 fits the block, and
      that copy spells the colocated path. */
  lemma TailFits(argv0: string, c: Install, k: nat)
    requires ValidInstall(c) && '/' in argv0 && k == LastIndex(argv0, '/').value
    ensures k + 1 + |c.objDir + c.soname| + 1 <= PathBlockSize(argv0, c)
    ensures NoNul(c.objDir + c.soname)
    ensures argv0[..k + 1] + (c.objDir + c.soname) == ColocatedPath(argv0, c)
  {
    assert |c.objDir + c.soname| <= |c.libDir + "/" + c.objDir + c.soname + c.extraInfo|;
  }

  /** strcpy(libpath, LIBDIR "/" SONAME). */
  function PlaceSystem(b: seq<char>, c: Install): (b1: seq<char>)
    requires ValidInstall(c) && |SystemPath(c)| + 1 <= |b|
    ensures |b1| == |b| && '\0' in b1 && CStr(b1) == SystemPath(c)
  {
    StrCpyAtStart(b, SystemPath(c));
    StrCpy(b, 0, SystemPath(c))
  }

  /** The resolver as written: strcpy argv0 into the block, strrchr for the
      last '/', strcpy LT_OBJDIR SONAME after it, fall back to strcpy of
      LIBDIR "/" SONAME, then strcat EXTRAINFO. Every copy stays inside the
      block, and the result is the chosen path whatever the block held. */
  function ResolveLibPath(argv0: string, c: Install, readable: string -> bool, block: seq<char>): (r: string)
    requires NoNul(argv0) && ValidInstall(c)
    requires |block| == PathBlockSize(argv0, c)
    ensures r == ChosenPath(argv0, c, readable)
    ensures |r| + 1 <= |block| && NoNul(r)
  {
    var b0 := CopyArgv0(block, argv0);
    var b2 :=
      if LastIndex(CStr(b0), '/').Some? then
        var b1 := PlaceColocated(b0, argv0, c);
        if !readable(CStr(b1)) then PlaceSystem(b1, c) else b1
      else PlaceSystem(b0, c);
    assert CStr(b2) + c.extraInfo == ChosenPath(argv0, c, readable);
    CStr(StrCat(b2, c.extraInfo))
  }

  /** sprintf(bigbuf, "%s:%s", prior, libpath) into malloc(strlen(prior) + strlen(libpath) + 2):
      the merged value fills the block exactly. */
  function MergeBlock(prior: string, lib: string, block: seq<char>): (r: string)
    requires NoNul(prior) && NoNul(lib)
    requires |block| == |prior| + |lib| + 2
    ensures |r| + 1 == |block| && NoNul(r)
    ensures r[..|prior|] == prior && r[|prior|] == ':' && r[|prior| + 1..] == lib
  {
    var text := prior + ":" + lib;
    assert NoNul(text) by {
      assert forall i :: 0 <= i < |text| ==> text[i] == (if i < |prior| then prior[i] else if i == |prior| then ':' else lib[i - |prior| - 1]);
    }
    StrCpyAtStart(block, text);
    assert text[..|prior|] == prior && text[|prior| + 1..] == lib;
    CStr(StrCpy(block, 0, text))
  }

  /** The value the preload variable is given: a non-empty previous value is
      kept in front, separated by ':'; otherwise the library path alone. */
  function MergePreload(existing: Option<string>, lib: string): (r: string)
    requires existing.Some? ==> NoNul(existing.value)
    requires NoNul(lib)
    ensures NoNul(r)
    ensures existing.Some? && existing.value != "" ==>
              |r| == |existing.value| + 1 + |lib| && r[..|existing.value|] == existing.value
              && r[|existing.value|] == ':' && r[|existing.value| + 1..] == lib
    ensures existing.None? || existing.value == "" ==> r == lib
  {
    if existing.Some? && existing.value != "" then
      var prior := existing.value;
      MergeBlock(prior, lib, Garbage(|prior| + |lib| + 2, '\0'))
    else lib
  }

  /** Lines 320-332: read the preload variable, merge, and write it back with
      overwrite set, in preload mode only. */
  function ApplyPreload(env: Environ, p: Platform, mode: OpMode, lib: string): (r: Environ)
    requires NoNul(lib)
    requires CleanEnv(env)
    ensures mode != PreloadMode ==> r == env
    ensures mode == PreloadMode ==> GetEnv(r, PreloadVar(p)) == Some(MergePreload(GetEnv(env, PreloadVar(p)), lib))
    ensures forall other :: ValidName(other) && other != PreloadVar(p) ==> GetEnv(r, other) == GetEnv(env, other)
    ensures CleanEnv(r)
  {
    PreloadVarValid(p);
    var existing := GetEnv(env, PreloadVar(p));
    var merged := MergePreload(existing, lib);
    if mode == PreloadMode then SetEnv(env, PreloadVar(p), merged, 1) else env
  }

  /** Whatever the preload variable held before, a non-empty value survives
      as the part of the new value in front of the separator. */
  lemma PreloadKeepsChain(env: Environ, p: Platform, lib: string)
    requires NoNul(lib)
    requires CleanEnv(env)
    requires GetEnv(env, PreloadVar(p)).Some? && GetEnv(env, PreloadVar(p)).value != ""
    ensures var prior := GetEnv(env, PreloadVar(p)).value;
            var now := GetEnv(ApplyPreload(env, p, PreloadMode, lib), PreloadVar(p));
            now.Some? && |prior| < |now.value| && now.value[..|prior|] == prior && now.value[|prior|] == ':'
  {
  }

  /** On the Mac, preload mode also forces a flat namespace (src/myfork.c:212-214);
      this runs before the fork. */
  function FlatNamespace(env: Environ, p: Platform, mode: OpMode): (r: Environ)
    ensures p == Apple && mode == PreloadMode ==> GetEnv(r, "DYLD_FORCE_FLAT_NAMESPACE") == Some("1")
    ensures !(p == Apple && mode == PreloadMode) ==> r == env
    ensures forall other :: ValidName(other) && other != "DYLD_FORCE_FLAT_NAMESPACE" ==> GetEnv(r, other) == GetEnv(env, other)
    ensures CleanEnv(env) ==> CleanEnv(r)
  {
    if p == Apple && mode == PreloadMode then SetEnv(env, "DYLD_FORCE_FLAT_NAMESPACE", "1", 1) else env
  }
}
