/**
 The Windows branch of run_process (src/myfork.c:345-409): create the child
 suspended with the two output channels as its standard handles and the
 arguments joined into one command line, inject the library, then resume
 it. A failed CreateProcess returns -1 at once; a failed injection or resume
 terminates the child first. Handles are identified with the descriptors
 `_get_osfhandle` is given.
 */
module WindowsLaunch {
  import opened Results
  import opened Buffers
  import opened Bytes
  import opened Payload
  import opened FdRemap
  import opened CommandLine
  import opened Injector

  /** The standard handles STARTUPINFO passes: no input, channel 2's write
      end as stdout and channel 1's as stderr. */
  datatype StdHandles = StdHandles(input: Option<int>, output: int, error: int)

  function StartupHandles(pipes: seq<Pipe>): (s: StdHandles)
    requires |pipes| == 3
    ensures s.input.None?
  {
    StdHandles(None, pipes[2].wr, pipes[1].wr)
  }

  /** The handle a child finds as its standard descriptor `fd`. */
  function StdHandle(s: StdHandles, fd: int): Option<int> {
    if fd == STDOUT_FILENO then Some(s.output)
    else if fd == STDERR_FILENO then Some(s.error)
    else s.input
  }

  /** The Windows child gets the stdout and stderr channels where the fork
      child moves them: channel k's write end is its standard handle number
      `ChannelTargets(debugFd)[k]`, for both output channels. */
  lemma SameStdChannels(pipes: seq<Pipe>, debugFd: int)
    requires |pipes| == 3
    ensures forall k :: 1 <= k < 3 ==> StdHandle(StartupHandles(pipes), ChannelTargets(debugFd)[k]) == Some(pipes[k].wr)
    ensures StdHandle(StartupHandles(pipes), 0).None?
  {
  }

  /** What the system answers: whether CreateProcess succeeds, the process
      handle it gives, the child's state as the injector finds it together
      with the answers to the injector's calls, and whether ResumeThread
      succeeds. */
  datatype Win = Win(created: bool, handle: int, os: Os, child: Target, resumed: bool)

  /** A running child, whose process handle run_process returns, or a
      failure, for which it returns -1 after terminating the child if one
      was created. */
  datatype Outcome =
    | Launched(handle: int, image: Target)
    | Failed(terminated: bool)

  /** The launch as written (lines 345-409): the standard handles and the
      command line are prepared, then CreateProcess, the injection of `lib`
      (SONAME) and ResumeThread are checked in that order. */
  method Launch(a: Arch, w: Win, pipes: seq<Pipe>, args: seq<string>, lib: seq<byte>, junk: nat -> char)
    returns (handles: StdHandles, cmdline: string, r: Outcome)
    requires |pipes| == 3
    requires |args| > 0 && forall i :: 0 <= i < |args| ==> NoNul(args[i])
    requires Admissible(a, w.os, w.child, lib)
    ensures handles.output == pipes[2].wr && handles.error == pipes[1].wr && handles.input.None?
    ensures cmdline == Join(args) + ['\0']
    ensures r.Launched? <==> w.created && Inject(a, w.os, w.child, lib).Ok? && w.resumed
    ensures r.Launched? ==> r.handle == w.handle && Inject(a, w.os, w.child, lib) == Ok(r.image)
    ensures r.Failed? ==> (r.terminated <==> w.created)
  {
    handles := StartupHandles(pipes);
    cmdline := BuildCommandLine(args, junk);
    if !w.created {
      return handles, cmdline, Failed(false);
    }
    var injected := Inject(a, w.os, w.child, lib);
    if injected.Err? {
      return handles, cmdline, Failed(true);
    }
    if !w.resumed {
      return handles, cmdline, Failed(true);
    }
    r := Launched(w.handle, injected.value);
  }

  /** The launch returns the process handle exactly when the process was
      created, no step of the injection failed and the thread resumed. */
  lemma LaunchSucceeds(a: Arch, w: Win, lib: seq<byte>)
    requires Admissible(a, w.os, w.child, lib)
    ensures w.created && (forall s :: !Fails(s, a, w.os, w.child)) && w.resumed
            <==> w.created && Inject(a, w.os, w.child, lib).Ok? && w.resumed
  {
    InjectOutcome(a, w.os, w.child, lib);
  }
}
