/**
 The cooperative launcher of src/myfork.c:206-341: fork, and in the child
 rewire the three channels, apply the resource ceilings, publish the fuzzing
 parameters in the environment, resolve the preload library and install it
 in the loader's preload variable, then exec. The exec itself, and the
 process that runs after it, are not part of this model: the child's state
 just before exec is the result.
 */
module Spawner {
  import opened Results
  import opened Buffers
  import opened Decimal
  import opened Environ
  import opened LibPath
  import opened FdRemap
  import opened Rlimits

  /** The variables the fault-injection library reads (src/myfork.c:289-295). */
  const DebugFdVar: string := "ZZUF_DEBUGFD"
  const SeedVar: string := "ZZUF_SEED"
  const MinRatioVar: string := "ZZUF_MINRATIO"
  const MaxRatioVar: string := "ZZUF_MAXRATIO"

  /** The variable the Mac build forces in preload mode (src/myfork.c:214). */
  const FlatVar: string := "DYLD_FORCE_FLAT_NAMESPACE"

  /** One of the four parameter variables. */
  predicate Propagated(name: string) {
    name == DebugFdVar || name == SeedVar || name == MinRatioVar || name == MaxRatioVar
  }

  /** A C `int`. */
  predicate Int32(x: int) {
    -0x8000_0000 <= x < 0x8000_0000
  }

  /** The launch options the child reads. The ratios are doubles that the
      source prints with %g; their text is taken as given. */
  datatype Options = Options(
    seed: int,
    minRatio: string,
    maxRatio: string,
    maxmem: int,
    maxcpu: int,
    opmode: OpMode,
    argv0: string)

  /** What the build and the system provide: the platform, the library's
      install location, which memory resource and whether RLIMIT_CPU exist,
      and access(path, R_OK). `memory` and `cpu` also fold in HAVE_SETRLIMIT
      (src/myfork.c:262, 271): without it, `memory` is None and `cpu` false. */
  datatype Host = Host(
    platform: Platform,
    install: Install,
    memory: Option<Resource>,
    cpu: bool,
    readable: string -> bool)

  predicate ValidHost(h: Host) {
    && ValidInstall(h.install)
    && h.install.extraInfo == ExtraInfo(h.platform)
    && (h.memory.Some? ==> h.memory.value != CpuTime)
  }

  /** The options every caller passes: a C int seed, ratio texts that fit
      the 64-byte buffer, and a C string for argv[0]. */
  predicate ValidOptions(o: Options) {
    && Int32(o.seed)
    && NoNul(o.minRatio) && |o.minRatio| < 64
    && NoNul(o.maxRatio) && |o.maxRatio| < 64
    && NoNul(o.argv0)
  }

  lemma FormatIntNoNul(x: int)
    ensures NoNul(FormatInt(x))
  {
    var s := FormatInt(x);
    forall i | 0 <= i < |s|
      ensures s[i] != '\0'
    {
      if x < 0 && i > 0 {
        assert s[i] == s[1..][i - 1];
      }
    }
  }

  /** sprintf(buf, fmt, ...) into `char buf[64]`: the text and its
      terminator fit, and the buffer holds the text. */
  function Sprintf64(text: string): (s: string)
    requires NoNul(text) && |text| < 64
    ensures s == text
  {
    var buf := Garbage(64, '\0');
    StrCpyAtStart(buf, text);
    CStr(StrCpy(buf, 0, text))
  }

  /** sprintf(buf, "%i", x): the text reads back as `x`. */
  function FormatIntBuffer(x: int): (s: string)
    requires Int32(x)
    ensures NoNul(s) && |s| < 64
    ensures ParseInt(s) == Some(x)
  {
    FormatInt32Fits(x);
    FormatIntNoNul(x);
    ParseFormatInt(x);
    Sprintf64(FormatInt(x))
  }

  /** Lines 283-295: the debug descriptor, the seed and the two ratios,
      each written with overwrite set. */
  function PropagateEnv(env: Environ, debugFd: int, o: Options): (r: Environ)
    requires CleanEnv(env) && Int32(debugFd) && ValidOptions(o)
    ensures CleanEnv(r)
    ensures GetEnv(r, DebugFdVar).Some? && ParseInt(GetEnv(r, DebugFdVar).value) == Some(debugFd)
    ensures GetEnv(r, SeedVar).Some? && ParseInt(GetEnv(r, SeedVar).value) == Some(o.seed)
    ensures GetEnv(r, MinRatioVar) == Some(o.minRatio)
    ensures GetEnv(r, MaxRatioVar) == Some(o.maxRatio)
    ensures forall other :: ValidName(other) && !Propagated(other) ==> GetEnv(r, other) == GetEnv(env, other)
  {
    NamesValid();
    var e1 := SetEnv(env, DebugFdVar, FormatIntBuffer(debugFd), 1);
    var e2 := SetEnv(e1, SeedVar, FormatIntBuffer(o.seed), 1);
    var e3 := SetEnv(e2, MinRatioVar, Sprintf64(o.minRatio), 1);
    SetEnv(e3, MaxRatioVar, Sprintf64(o.maxRatio), 1)
  }

  /** The launcher's own variable names are valid and pairwise distinct. */
  lemma NamesValid()
    ensures ValidName(DebugFdVar) && ValidName(SeedVar) && ValidName(MinRatioVar) && ValidName(MaxRatioVar)
    ensures DebugFdVar != SeedVar && DebugFdVar != MinRatioVar && DebugFdVar != MaxRatioVar
    ensures SeedVar != MinRatioVar && SeedVar != MaxRatioVar && MinRatioVar != MaxRatioVar
  {
    assert DebugFdVar[5] == 'D' && SeedVar[5] == 'S' && MinRatioVar[6] == 'I' && MaxRatioVar[6] == 'A';
  }

  /** The child just before exec. */
  datatype Child = Child(table: FdTable, pipes: seq<Pipe>, limits: seq<Limit>, env: Environ)

  /** The preload variable is none of the variables the launcher sets itself. */
  lemma PreloadVarDistinct(p: Platform)
    ensures ValidName(PreloadVar(p)) && !Propagated(PreloadVar(p))
  {
    PreloadVarValid(p);
  }

  /** Neither is the Mac's flat-namespace variable. */
  lemma FlatVarDistinct(p: Platform)
    ensures ValidName(FlatVar) && !Propagated(FlatVar) && FlatVar != PreloadVar(p)
  {
  }

  /** The library path the child resolves (lines 297-318), in a fresh
      block of the size line 299 computes. */
  function ResolvedLib(h: Host, o: Options): (lib: string)
    requires ValidHost(h) && ValidOptions(o)
    ensures lib == ChosenPath(o.argv0, h.install, h.readable) && NoNul(lib)
  {
    ResolveLibPath(o.argv0, h.install, h.readable, Garbage(PathBlockSize(o.argv0, h.install), '\0'))
  }

  /** The environment the child execs with (lines 283-332): the four
      parameters, then the preload variable in preload mode. */
  function ChildEnv(h: Host, o: Options, env: Environ, debugFd: int): (e: Environ)
    requires ValidHost(h) && ValidOptions(o) && CleanEnv(env) && Int32(debugFd)
    ensures CleanEnv(e)
    ensures GetEnv(e, DebugFdVar).Some? && ParseInt(GetEnv(e, DebugFdVar).value) == Some(debugFd)
    ensures GetEnv(e, SeedVar).Some? && ParseInt(GetEnv(e, SeedVar).value) == Some(o.seed)
    ensures GetEnv(e, MinRatioVar) == Some(o.minRatio) && GetEnv(e, MaxRatioVar) == Some(o.maxRatio)
    ensures o.opmode == PreloadMode ==>
              GetEnv(e, PreloadVar(h.platform))
              == Some(MergePreload(GetEnv(env, PreloadVar(h.platform)), ResolvedLib(h, o)))
    ensures o.opmode != PreloadMode ==> GetEnv(e, PreloadVar(h.platform)) == GetEnv(env, PreloadVar(h.platform))
    ensures forall other :: ValidName(other) && !Propagated(other) && other != PreloadVar(h.platform) ==>
              GetEnv(e, other) == GetEnv(env, other)
  {
    var e1 := PropagateEnv(env, debugFd, o);
    var p := PreloadVar(h.platform);
    PreloadVarDistinct(h.platform);
    NamesValid();
    var e := ApplyPreload(e1, h.platform, o.opmode, ResolvedLib(h, o));
    assert GetEnv(e, DebugFdVar) == GetEnv(e1, DebugFdVar) && GetEnv(e, SeedVar) == GetEnv(e1, SeedVar);
    assert GetEnv(e, MinRatioVar) == GetEnv(e1, MinRatioVar) && GetEnv(e, MaxRatioVar) == GetEnv(e1, MaxRatioVar);
    assert GetEnv(e1, p) == GetEnv(env, p);
    e
  }

  /** Lines 244-333 after fork() returned 0: remap the channels, set the
      ceilings, and build the environment around the descriptor the debug
      channel now has. */
  function ChildBranch(h: Host, o: Options, t: FdTable, pipes: seq<Pipe>, env: Environ, debugFd: int): (c: Child)
    requires ValidHost(h) && ValidOptions(o)
    requires |pipes| == 3 && CleanEnv(env) && Int32(debugFd)
    ensures |c.pipes| == 3 && forall k :: 0 <= k < 3 ==> c.pipes[k] == Pipe(pipes[k].rd, ChannelTargets(debugFd)[k])
    ensures c.env == ChildEnv(h, o, env, debugFd)
    ensures c.table == RemapChannels(t, pipes, ChannelTargets(debugFd)).table
    ensures c.limits == ResourceLimits(h.memory, h.cpu, o.maxmem, o.maxcpu)
    ensures (h.memory.None? || o.maxmem < 0) && (!h.cpu || o.maxcpu < 0) <==> c.limits == []
  {
    var remap := RemapChannels(t, pipes, ChannelTargets(debugFd));
    var limits := ResourceLimits(h.memory, h.cpu, o.maxmem, o.maxcpu);
    Child(remap.table, remap.pipes, limits, ChildEnv(h, o, env, remap.pipes[0].wr))
  }

  /** The outcome of run_process on a fork system. */
  datatype Launch =
    | ForkFailed(env: Environ)
    | Parent(pid: int, table: FdTable, env: Environ)
    | Started(child: Child)

  /** The parent's close(pipes[j][1]) for j = 2, 1, 0 (lines 238-241). */
  function ParentCalls(pipes: seq<Pipe>): seq<Syscall>
    requires |pipes| == 3
  {
    [Close(pipes[2].wr), Close(pipes[1].wr), Close(pipes[0].wr)]
  }

  /** run_process as a whole: the flat-namespace variable is set before the
      fork, so the parent keeps it too; `pid` is what fork() returned. The
      parent returns the child's pid, a failed fork -1. */
  function RunProcess(h: Host, o: Options, t: FdTable, pipes: seq<Pipe>, env: Environ, debugFd: int, pid: int): (r: Launch)
    requires ValidHost(h) && ValidOptions(o)
    requires |pipes| == 3 && CleanEnv(env) && Int32(debugFd)
    ensures pid < 0 <==> r.ForkFailed?
    ensures pid > 0 <==> r.Parent? && r.pid == pid
    ensures r.Parent? ==> r.table == Run(t, ParentCalls(pipes))
    ensures r.Started? ==> GetEnv(r.child.env, FlatVar)
                             == (if h.platform == Apple && o.opmode == PreloadMode then Some("1") else GetEnv(env, FlatVar))
    ensures !r.Started? ==> r.env == FlatNamespace(env, h.platform, o.opmode)
    ensures !r.Started? ==> GetEnv(r.env, FlatVar)
                              == (if h.platform == Apple && o.opmode == PreloadMode then Some("1") else GetEnv(env, FlatVar))
    ensures !r.Started? ==> forall other :: ValidName(other) && other != FlatVar ==> GetEnv(r.env, other) == GetEnv(env, other)
    ensures r.Started? ==> r.child == ChildBranch(h, o, t, pipes, FlatNamespace(env, h.platform, o.opmode), debugFd)
  {
    var shared := FlatNamespace(env, h.platform, o.opmode);
    if pid < 0 then ForkFailed(shared)
    else if pid > 0 then Parent(pid, Run(t, ParentCalls(pipes)), shared)
    else
      FlatVarDistinct(h.platform);
      var c := ChildBranch(h, o, t, pipes, shared, debugFd);
      assert GetEnv(c.env, FlatVar) == GetEnv(shared, FlatVar);
      Started(c)
  }

  /** After the parent's closes, the parent holds the read ends of the
      three channels and no write end, and nothing else changes. */
  lemma ParentKeepsReadEnds(t: FdTable, pipes: seq<Pipe>)
    requires |pipes| == 3
    requires PipesOpen(t, pipes, 3)
    requires forall k :: 0 <= k < 3 ==> t[pipes[k].rd] == ReadEnd(k) && t[pipes[k].wr] == WriteEnd(k)
    requires forall fd :: fd in t && !t[fd].Inherited? ==> fd in PipeFds(pipes, 3)
    ensures var r := Run(t, ParentCalls(pipes));
            && (forall k :: 0 <= k < 3 ==> pipes[k].rd in r && r[pipes[k].rd] == ReadEnd(k))
            && (forall fd :: fd in r ==> !r[fd].WriteEnd?)
            && (forall fd :: fd in t && t[fd].Inherited? ==> fd in r && r[fd] == t[fd])
  {
    var calls := ParentCalls(pipes);
    var r := Run(t, calls);
    var t1 := CloseFd(t, pipes[2].wr);
    var t2 := CloseFd(t1, pipes[1].wr);
    var t3 := CloseFd(t2, pipes[0].wr);
    assert calls[1..] == [Close(pipes[1].wr), Close(pipes[0].wr)];
    assert calls[1..][1..] == [Close(pipes[0].wr)];
    assert calls[1..][1..][1..] == [];
    assert Run(t2, calls[1..][1..]) == t3;
    assert Run(t1, calls[1..]) == t3;
    assert r == t3;
    forall fd | fd in r
      ensures !r[fd].WriteEnd?
    {
      InPipeFds(pipes, 3, fd);
    }
  }

  /** The debug variable a child reads back names the descriptor that
      refers to the debug pipe's write end, as long as that write end is not
      itself where stdout or stderr go: the debug channel is moved last. */
  lemma AdvertisedDebugFd(h: Host, o: Options, t: FdTable, pipes: seq<Pipe>, env: Environ, debugFd: int)
    requires ValidHost(h) && ValidOptions(o)
    requires |pipes| == 3 && CleanEnv(env) && Int32(debugFd)
    requires PipesOpen(t, pipes, 3) && t[pipes[0].wr] == WriteEnd(0)
    requires pipes[0].wr != STDERR_FILENO && pipes[0].wr != STDOUT_FILENO
    ensures var c := ChildBranch(h, o, t, pipes, env, debugFd);
            var v := GetEnv(c.env, DebugFdVar);
            v.Some? && ParseInt(v.value).Some? && ParseInt(v.value).value in c.table
            && c.table[ParseInt(v.value).value] == WriteEnd(0)
  {
    var c := ChildBranch(h, o, t, pipes, env, debugFd);
    var v := GetEnv(c.env, DebugFdVar);
    assert v.Some? && ParseInt(v.value) == Some(debugFd);
    DebugChannelLast(t, pipes, debugFd);
  }
}
