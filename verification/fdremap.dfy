/**
 The child's descriptor rewiring after fork (src/myfork.c:244-259).

 The child holds the three pipes the launcher created, one per channel
 (debug, stderr mirror, stdout mirror). Walking the channels from last to
 first, it closes the read end and, when the write end is not already the
 descriptor the channel is expected on, dup2()s it there and closes the
 original. The descriptor table maps descriptor numbers to the open file they
 refer to; close and dup2 act on it as POSIX says, including dup2 silently
 closing whatever its target referred to, so a target that coincides with a
 pipe descriptor not yet processed really is clobbered in the model.
 */
module FdRemap {

  datatype Endpoint = ReadEnd(channel: nat) | WriteEnd(channel: nat) | Inherited(id: nat)

  type FdTable = map<int, Endpoint>

  datatype Pipe = Pipe(rd: int, wr: int)

  datatype Syscall = Close(fd: int) | Dup2(oldFd: int, newFd: int)

  const STDOUT_FILENO: int := 1
  const STDERR_FILENO: int := 2

  /** `fds[]` of src/myfork.c:249: the debug descriptor (DEBUG_FILENO, defined
      outside this file), then stderr, then stdout. */
  function ChannelTargets(debugFd: int): seq<int> {
    [debugFd, STDERR_FILENO, STDOUT_FILENO]
  }

  /** close(fd); closing a descriptor that is not open changes nothing. */
  function CloseFd(t: FdTable, fd: int): FdTable {
    t - {fd}
  }

  /** dup2(oldFd, newFd): fails without effect when `oldFd` is not open, does
      nothing when both are equal, and otherwise makes `newFd` refer to what
      `oldFd` refers to, dropping whatever `newFd` referred to before. */
  function Dup2Fd(t: FdTable, oldFd: int, newFd: int): FdTable {
    if oldFd !in t || oldFd == newFd then t else t[newFd := t[oldFd]]
  }

  /** The effect of one system call on the table. */
  function Apply(t: FdTable, c: Syscall): FdTable {
    match c
    case Close(fd) => CloseFd(t, fd)
    case Dup2(oldFd, newFd) => Dup2Fd(t, oldFd, newFd)
  }

  /** The effect of a sequence of calls, made in order. */
  function Run(t: FdTable, calls: seq<Syscall>): FdTable
    decreases |calls|
  {
    if |calls| == 0 then t else Run(Apply(t, calls[0]), calls[1..])
  }

  lemma {:induction false} RunAppend(t: FdTable, a: seq<Syscall>, b: seq<Syscall>)
    ensures Run(t, a + b) == Run(Run(t, a), b)
    decreases |a|
  {
    if |a| == 0 {
      assert a + b == b;
    } else {
      assert (a + b)[0] == a[0] && (a + b)[1..] == a[1..] + b;
      RunAppend(Apply(t, a[0]), a[1..], b);
      assert Run(t, a + b) == Run(Apply(t, a[0]), a[1..] + b);
      assert Run(t, a) == Run(Apply(t, a[0]), a[1..]);
    }
  }

  datatype RemapState = RemapState(table: FdTable, pipes: seq<Pipe>, trace: seq<Syscall>)

  /** The calls the loop body makes for one channel: close the read end,
      and, when the write end is not on its target, dup2 it there and close it. */
  function ChannelCalls(p: Pipe, target: int): seq<Syscall> {
    [Close(p.rd)] + (if p.wr != target then [Dup2(p.wr, target), Close(p.wr)] else [])
  }

  /** The calls of the whole loop over channels j-1 down to 0, in order. */
  function LoopCalls(pipes: seq<Pipe>, fds: seq<int>, j: nat): seq<Syscall>
    requires j <= |pipes| && j <= |fds|
    decreases j
  {
    if j == 0 then [] else ChannelCalls(pipes[j - 1], fds[j - 1]) + LoopCalls(pipes, fds, j - 1)
  }

  /** Every processed channel's read end is closed, its write end is moved
      exactly when it is off target, and no other dup2 is made. */
  lemma LoopCallsMade(pipes: seq<Pipe>, fds: seq<int>, j: nat)
    requires j <= |pipes| && j <= |fds|
    ensures forall k :: 0 <= k < j ==> Close(pipes[k].rd) in LoopCalls(pipes, fds, j)
    ensures forall k :: 0 <= k < j && pipes[k].wr != fds[k] ==> Dup2(pipes[k].wr, fds[k]) in LoopCalls(pipes, fds, j)
    ensures forall c: Syscall :: c in LoopCalls(pipes, fds, j) && c.Dup2? ==>
              exists k :: 0 <= k < j && pipes[k].wr != fds[k] && c == Dup2(pipes[k].wr, fds[k])
  {
    LoopClosesReadEnds(pipes, fds, j);
    LoopMovesWriteEnds(pipes, fds, j);
    LoopDup2sOnlyThese(pipes, fds, j);
  }

  lemma {:induction false} LoopClosesReadEnds(pipes: seq<Pipe>, fds: seq<int>, j: nat)
    requires j <= |pipes| && j <= |fds|
    ensures forall k :: 0 <= k < j ==> Close(pipes[k].rd) in LoopCalls(pipes, fds, j)
    decreases j
  {
    if j > 0 {
      LoopClosesReadEnds(pipes, fds, j - 1);
      var here := ChannelCalls(pipes[j - 1], fds[j - 1]);
      assert LoopCalls(pipes, fds, j) == here + LoopCalls(pipes, fds, j - 1);
      assert here[0] == Close(pipes[j - 1].rd);
    }
  }

  lemma {:induction false} LoopMovesWriteEnds(pipes: seq<Pipe>, fds: seq<int>, j: nat)
    requires j <= |pipes| && j <= |fds|
    ensures forall k :: 0 <= k < j && pipes[k].wr != fds[k] ==> Dup2(pipes[k].wr, fds[k]) in LoopCalls(pipes, fds, j)
    decreases j
  {
    if j > 0 {
      LoopMovesWriteEnds(pipes, fds, j - 1);
      var here := ChannelCalls(pipes[j - 1], fds[j - 1]);
      assert LoopCalls(pipes, fds, j) == here + LoopCalls(pipes, fds, j - 1);
      assert pipes[j - 1].wr != fds[j - 1] ==> here[1] == Dup2(pipes[j - 1].wr, fds[j - 1]);
    }
  }

  lemma {:induction false} LoopDup2sOnlyThese(pipes: seq<Pipe>, fds: seq<int>, j: nat)
    requires j <= |pipes| && j <= |fds|
    ensures forall c: Syscall :: c in LoopCalls(pipes, fds, j) && c.Dup2? ==>
              exists k :: 0 <= k < j && pipes[k].wr != fds[k] && c == Dup2(pipes[k].wr, fds[k])
    decreases j
  {
    if j > 0 {
      LoopDup2sOnlyThese(pipes, fds, j - 1);
      var here := ChannelCalls(pipes[j - 1], fds[j - 1]);
      var rest := LoopCalls(pipes, fds, j - 1);
      assert LoopCalls(pipes, fds, j) == here + rest;
      forall c: Syscall | c in here + rest && c.Dup2?
        ensures exists k :: 0 <= k < j && pipes[k].wr != fds[k] && c == Dup2(pipes[k].wr, fds[k])
      {
        if c in here {
          assert c == Dup2(pipes[j - 1].wr, fds[j - 1]);
        } else {
          var k :| 0 <= k < j - 1 && pipes[k].wr != fds[k] && c == Dup2(pipes[k].wr, fds[k]);
        }
      }
    }
  }

  /** Channel 0, the debug channel, is handled last: its calls end the loop. */
  lemma {:induction false} DebugCallsLast(pipes: seq<Pipe>, fds: seq<int>, j: nat)
    requires 0 < j <= |pipes| && j <= |fds|
    ensures var calls := LoopCalls(pipes, fds, j);
            var last := ChannelCalls(pipes[0], fds[0]);
            |last| <= |calls| && calls[|calls| - |last|..] == last
    decreases j
  {
    if j > 1 {
      DebugCallsLast(pipes, fds, j - 1);
      var rest := LoopCalls(pipes, fds, j - 1);
      var calls := ChannelCalls(pipes[j - 1], fds[j - 1]) + rest;
      var n := |ChannelCalls(pipes[0], fds[0])|;
      assert calls[|calls| - n..] == rest[|rest| - n..];
    }
  }

  /** One pass of the loop body for channel `j`. */
  function RemapOne(st: RemapState, fds: seq<int>, j: nat): RemapState
    requires j < |st.pipes| && j < |fds|
  {
    var p := st.pipes[j];
    var t1 := CloseFd(st.table, p.rd);
    if p.wr != fds[j] then
      RemapState(CloseFd(Dup2Fd(t1, p.wr, fds[j]), p.wr),
                 st.pipes[j := Pipe(p.rd, fds[j])],
                 st.trace + [Close(p.rd), Dup2(p.wr, fds[j]), Close(p.wr)])
    else
      RemapState(t1, st.pipes, st.trace + [Close(p.rd)])
  }

  /** `for (int j = n; j--; )`: channels j-1 down to 0. Afterwards every
      processed channel's recorded write end is its target, and the calls
      made are exactly those of `LoopCalls`, whose effect the table shows. */
  function RemapLoop(st: RemapState, fds: seq<int>, j: nat): (r: RemapState)
    requires |st.pipes| == |fds| && j <= |fds|
    ensures |r.pipes| == |fds|
    ensures forall k :: 0 <= k < j ==> r.pipes[k] == Pipe(st.pipes[k].rd, fds[k])
    ensures forall k :: j <= k < |fds| ==> r.pipes[k] == st.pipes[k]
    ensures r.trace == st.trace + LoopCalls(st.pipes, fds, j)
    decreases j
  {
    if j == 0 then st
    else
      var st1 := RemapOne(st, fds, j - 1);
      assert st1.trace == st.trace + ChannelCalls(st.pipes[j - 1], fds[j - 1]);
      LoopCallsPrefix(st1.pipes, st.pipes, fds, j - 1);
      RemapLoop(st1, fds, j - 1)
  }

  /** The loop's table is the effect of the calls it records. */
  lemma {:induction false} RemapLoopRuns(st: RemapState, fds: seq<int>, j: nat)
    requires |st.pipes| == |fds| && j <= |fds|
    ensures RemapLoop(st, fds, j).table == Run(st.table, LoopCalls(st.pipes, fds, j))
    decreases j
  {
    if j > 0 {
      var st1 := RemapOne(st, fds, j - 1);
      var here := ChannelCalls(st.pipes[j - 1], fds[j - 1]);
      RunChannel(st.table, st.pipes[j - 1], fds[j - 1]);
      assert st1.table == Run(st.table, here);
      RemapLoopRuns(st1, fds, j - 1);
      LoopCallsPrefix(st1.pipes, st.pipes, fds, j - 1);
      RunAppend(st.table, here, LoopCalls(st.pipes, fds, j - 1));
    }
  }

  /** The loop's calls depend only on the channels still to be processed. */
  lemma {:induction false} LoopCallsPrefix(p1: seq<Pipe>, p2: seq<Pipe>, fds: seq<int>, j: nat)
    requires j <= |p1| && j <= |p2| && j <= |fds|
    requires forall k :: 0 <= k < j ==> p1[k] == p2[k]
    ensures LoopCalls(p1, fds, j) == LoopCalls(p2, fds, j)
    decreases j
  {
    if j > 0 {
      LoopCallsPrefix(p1, p2, fds, j - 1);
    }
  }

  /** The child's loop over all channels. */
  function RemapChannels(t: FdTable, pipes: seq<Pipe>, fds: seq<int>): (r: RemapState)
    requires |pipes| == |fds|
  {
    RemapLoop(RemapState(t, pipes, []), fds, |fds|)
  }

  /** The descriptors of the first `j` pipes. */
  function PipeFds(pipes: seq<Pipe>, j: nat): set<int>
    requires j <= |pipes|
  {
    if j == 0 then {} else PipeFds(pipes, j - 1) + {pipes[j - 1].rd, pipes[j - 1].wr}
  }

  /** The targets of the first `j` channels. */
  function Targets(fds: seq<int>, j: nat): set<int>
    requires j <= |fds|
  {
    if j == 0 then {} else Targets(fds, j - 1) + {fds[j - 1]}
  }

  /** `fd` is one of the two descriptors of `p`. */
  predicate Touches(p: Pipe, fd: int) {
    p.rd == fd || p.wr == fd
  }

  lemma {:induction false} InPipeFds(pipes: seq<Pipe>, j: nat, fd: int)
    requires j <= |pipes|
    ensures fd in PipeFds(pipes, j) <==> exists k :: 0 <= k < j && Touches(pipes[k], fd)
    decreases j
  {
    if j > 0 {
      InPipeFds(pipes, j - 1, fd);
      if Touches(pipes[j - 1], fd) {
        assert fd in PipeFds(pipes, j);
      }
    }
  }

  lemma {:induction false} InTargets(fds: seq<int>, j: nat, fd: int)
    requires j <= |fds|
    ensures fd in Targets(fds, j) <==> exists k :: 0 <= k < j && fds[k] == fd
    decreases j
  {
    if j > 0 {
      InTargets(fds, j - 1, fd);
    }
  }

  /** The descriptors of the first `j` pipes are open and pairwise distinct. */
  predicate PipesOpen(t: FdTable, pipes: seq<Pipe>, j: nat)
    requires j <= |pipes|
  {
    && (forall b :: 0 <= b < j ==> pipes[b].rd in t && pipes[b].wr in t && pipes[b].rd != pipes[b].wr)
    && (forall a, b :: 0 <= a < b < j ==> !Touches(pipes[a], pipes[b].rd) && !Touches(pipes[a], pipes[b].wr))
  }

  /** No channel's target is a descriptor of a pipe processed after it, so
      no dup2 lands on an endpoint that is still needed. */
  predicate NoClobber(pipes: seq<Pipe>, fds: seq<int>, j: nat)
    requires j <= |pipes| && j <= |fds|
  {
    forall a, b :: 0 <= a < b < j ==> !Touches(pipes[a], fds[b])
  }

  predicate DistinctTargets(fds: seq<int>, j: nat)
    requires j <= |fds|
  {
    forall a, b :: 0 <= a < b < j ==> fds[a] != fds[b]
  }

  /** The table `t` is `t0` with the first `j` pipes' descriptors closed and
      each channel's write end installed at its target. */
  predicate Remapped(t0: FdTable, t: FdTable, pipes: seq<Pipe>, fds: seq<int>, j: nat)
    requires j <= |pipes| && j <= |fds|
    requires forall k :: 0 <= k < j ==> pipes[k].wr in t0
  {
    && t.Keys == (t0.Keys - PipeFds(pipes, j)) + Targets(fds, j)
    && (forall k :: 0 <= k < j ==> fds[k] in t && t[fds[k]] == t0[pipes[k].wr])
    && (forall fd :: fd in t && fd !in Targets(fds, j) ==> t[fd] == t0[fd])
  }

  /** One channel's calls: both pipe descriptors are gone and the write
      end's file is at the target. */
  lemma ChannelTable(t: FdTable, p: Pipe, f: int)
    requires p.rd in t && p.wr in t && p.rd != p.wr
    ensures var t1 := Run(t, ChannelCalls(p, f));
            && t1.Keys == (t.Keys - {p.rd, p.wr}) + {f}
            && t1[f] == t[p.wr]
            && (forall fd :: fd in t1 && fd != f ==> t1[fd] == t[fd])
  {
    RunChannel(t, p, f);
  }

  /** One channel's calls, replayed, are the loop body's table update. */
  lemma RunChannel(t: FdTable, p: Pipe, f: int)
    ensures Run(t, ChannelCalls(p, f))
            == if p.wr != f then CloseFd(Dup2Fd(CloseFd(t, p.rd), p.wr, f), p.wr) else CloseFd(t, p.rd)
  {
    var calls := ChannelCalls(p, f);
    var t1 := CloseFd(t, p.rd);
    assert Run(t, calls) == Run(t1, calls[1..]);
    if p.wr != f {
      var t2 := Dup2Fd(t1, p.wr, f);
      assert calls[1..][1..] == [Close(p.wr)];
      assert Run(t1, calls[1..]) == Run(t2, [Close(p.wr)]);
      assert Run(t2, [Close(p.wr)]) == Run(CloseFd(t2, p.wr), []);
    } else {
      assert calls[1..] == [];
    }
  }

  /** The calls for channel `j - 1` leave the earlier channels' pipes open
      and their files where they were, when the target is none of them. */
  lemma ChannelKeepsRest(t: FdTable, pipes: seq<Pipe>, f: int, j: nat)
    requires 0 < j <= |pipes|
    requires PipesOpen(t, pipes, j)
    requires forall k :: 0 <= k < j - 1 ==> !Touches(pipes[k], f)
    ensures var t1 := Run(t, ChannelCalls(pipes[j - 1], f));
            && PipesOpen(t1, pipes, j - 1)
            && forall k :: 0 <= k < j - 1 ==> t1[pipes[k].wr] == t[pipes[k].wr]
  {
    var p := pipes[j - 1];
    var t1 := Run(t, ChannelCalls(p, f));
    ChannelTable(t, p, f);
    assert forall k :: 0 <= k < j - 1 ==> !Touches(pipes[k], p.rd) && !Touches(pipes[k], p.wr);
  }

  /** Composing one channel with the rest of the loop, on the tables alone. */
  lemma ComposeStep(t: FdTable, t1: FdTable, t2: FdTable, pf: set<int>, tg: set<int>, rd: int, wr: int, f: int)
    requires wr in t
    requires t1.Keys == (t.Keys - {rd, wr}) + {f}
    requires f in t1 && t1[f] == t[wr]
    requires forall fd :: fd in t1 && fd != f ==> t1[fd] == t[fd]
    requires t2.Keys == (t1.Keys - pf) + tg
    requires forall fd :: fd in t2 && fd !in tg ==> t2[fd] == t1[fd]
    requires f !in pf && f !in tg
    ensures t2.Keys == (t.Keys - (pf + {rd, wr})) + (tg + {f})
    ensures f in t2 && t2[f] == t[wr]
    ensures forall fd :: fd in t2 && fd !in tg + {f} ==> t2[fd] == t[fd]
  {
  }

  /** The loop's effect on the table when nothing is clobbered. */
  lemma {:induction false} RemapLoopTable(t: FdTable, pipes: seq<Pipe>, fds: seq<int>, j: nat)
    requires j <= |pipes| && j <= |fds|
    requires PipesOpen(t, pipes, j)
    requires NoClobber(pipes, fds, j) && DistinctTargets(fds, j)
    ensures Remapped(t, Run(t, LoopCalls(pipes, fds, j)), pipes, fds, j)
    decreases j
  {
    if j > 0 {
      var here := ChannelCalls(pipes[j - 1], fds[j - 1]);
      var rest := LoopCalls(pipes, fds, j - 1);
      var t1 := Run(t, here);
      ChannelTable(t, pipes[j - 1], fds[j - 1]);
      RunAppend(t, here, rest);
      ChannelKeepsRest(t, pipes, fds[j - 1], j);
      ShrinkConditions(pipes, fds, j);
      RemapLoopTable(t1, pipes, fds, j - 1);
      ExtendRemapped(t, t1, Run(t1, rest), pipes, fds, j);
    }
  }

  /** The conditions on the first `j` channels hold for the first `j - 1`,
      and the last target is none of their descriptors or targets. */
  lemma ShrinkConditions(pipes: seq<Pipe>, fds: seq<int>, j: nat)
    requires 0 < j <= |pipes| && j <= |fds|
    requires NoClobber(pipes, fds, j) && DistinctTargets(fds, j)
    ensures NoClobber(pipes, fds, j - 1) && DistinctTargets(fds, j - 1)
    ensures fds[j - 1] !in PipeFds(pipes, j - 1) && fds[j - 1] !in Targets(fds, j - 1)
  {
    InPipeFds(pipes, j - 1, fds[j - 1]);
    InTargets(fds, j - 1, fds[j - 1]);
  }

  /** Channel `j - 1` taken from `t` to `t1`, then the earlier channels
      remapped from `t1` to `t2`, remap the first `j` channels from `t`. */
  lemma ExtendRemapped(t: FdTable, t1: FdTable, t2: FdTable, pipes: seq<Pipe>, fds: seq<int>, j: nat)
    requires 0 < j <= |pipes| && j <= |fds|
    requires PipesOpen(t, pipes, j) && PipesOpen(t1, pipes, j - 1)
    requires t1.Keys == (t.Keys - {pipes[j - 1].rd, pipes[j - 1].wr}) + {fds[j - 1]}
    requires t1[fds[j - 1]] == t[pipes[j - 1].wr]
    requires forall fd :: fd in t1 && fd != fds[j - 1] ==> t1[fd] == t[fd]
    requires forall k :: 0 <= k < j - 1 ==> t1[pipes[k].wr] == t[pipes[k].wr]
    requires fds[j - 1] !in PipeFds(pipes, j - 1) && fds[j - 1] !in Targets(fds, j - 1)
    requires Remapped(t1, t2, pipes, fds, j - 1)
    ensures Remapped(t, t2, pipes, fds, j)
  {
    var p := pipes[j - 1];
    var f := fds[j - 1];
    ComposeStep(t, t1, t2, PipeFds(pipes, j - 1), Targets(fds, j - 1), p.rd, p.wr, f);
    forall k | 0 <= k < j - 1
      ensures fds[k] in t2 && t2[fds[k]] == t[pipes[k].wr]
    {
      assert fds[k] in t2 && t2[fds[k]] == t1[pipes[k].wr];
    }
  }

  /** The source's three channels, with the endpoints of channel `k` open at
      its pipe's descriptors only: when no target collides with a pipe
      processed after it, each target holds its channel's write end, every
      read end is closed, and no other descriptor changes. */
  lemma ChildChannelsWired(t0: FdTable, pipes: seq<Pipe>, debugFd: int)
    requires |pipes| == 3
    requires PipesOpen(t0, pipes, 3)
    requires forall k :: 0 <= k < 3 ==> t0[pipes[k].rd] == ReadEnd(k) && t0[pipes[k].wr] == WriteEnd(k)
    requires forall fd :: fd in t0 && !t0[fd].Inherited? ==> fd in PipeFds(pipes, 3)
    requires debugFd != STDERR_FILENO && debugFd != STDOUT_FILENO
    requires NoClobber(pipes, ChannelTargets(debugFd), 3)
    ensures var r := RemapChannels(t0, pipes, ChannelTargets(debugFd));
            && (forall k :: 0 <= k < 3 ==> r.pipes[k].wr == ChannelTargets(debugFd)[k])
            && (forall k :: 0 <= k < 3 ==>
                  ChannelTargets(debugFd)[k] in r.table && r.table[ChannelTargets(debugFd)[k]] == WriteEnd(k))
            && (forall fd :: fd in r.table ==> !r.table[fd].ReadEnd?)
            && (forall fd :: fd in r.table && r.table[fd].WriteEnd? ==>
                  r.table[fd].channel < 3 && fd == ChannelTargets(debugFd)[r.table[fd].channel])
            && (forall fd :: fd in t0 && t0[fd].Inherited? && fd !in ChannelTargets(debugFd) ==>
                  fd in r.table && r.table[fd] == t0[fd])
  {
    var fds := ChannelTargets(debugFd);
    var st := RemapState(t0, pipes, []);
    assert Targets(fds, 1) == {debugFd};
    assert Targets(fds, 2) == {debugFd, STDERR_FILENO};
    assert Targets(fds, 3) == {debugFd, STDERR_FILENO, STDOUT_FILENO};
    RemapLoopTable(t0, pipes, fds, 3);
    RemapLoopRuns(st, fds, 3);
    TablesWired(t0, RemapChannels(t0, pipes, fds).table, pipes, fds);
  }

  /** What `Remapped` means for tables whose only pipe endpoints are those of
      the pipes being remapped. */
  lemma TablesWired(t0: FdTable, t: FdTable, pipes: seq<Pipe>, fds: seq<int>)
    requires |pipes| == 3 && |fds| == 3
    requires PipesOpen(t0, pipes, 3)
    requires forall k :: 0 <= k < 3 ==> t0[pipes[k].rd] == ReadEnd(k) && t0[pipes[k].wr] == WriteEnd(k)
    requires forall fd :: fd in t0 && !t0[fd].Inherited? ==> fd in PipeFds(pipes, 3)
    requires Targets(fds, 3) == {fds[0], fds[1], fds[2]}
    requires Remapped(t0, t, pipes, fds, 3)
    ensures forall fd :: fd in t ==> !t[fd].ReadEnd?
    ensures forall fd :: fd in t && t[fd].WriteEnd? ==> t[fd].channel < 3 && fd == fds[t[fd].channel]
    ensures forall fd :: fd in t0 && t0[fd].Inherited? && fd !in fds ==> fd in t && t[fd] == t0[fd]
  {
    forall fd | fd in t
      ensures !t[fd].ReadEnd?
      ensures t[fd].WriteEnd? ==> t[fd].channel < 3 && fd == fds[t[fd].channel]
    {
      if fd !in Targets(fds, 3) {
        assert t[fd] == t0[fd];
      } else if fd == fds[0] {
        assert t[fd] == WriteEnd(0);
      } else if fd == fds[1] {
        assert t[fd] == WriteEnd(1);
      } else {
        assert t[fd] == WriteEnd(2);
      }
    }
    forall fd | fd in t0 && t0[fd].Inherited? && fd !in fds
      ensures fd in t && t[fd] == t0[fd]
    {
      InPipeFds(pipes, 3, fd);
    }
  }

  /** Channel 0 is processed last, so the debug descriptor ends up on the
      debug pipe's write end as soon as no other target lands on that write
      end, even when the other channels collide with each other. */
  lemma DebugChannelLast(t0: FdTable, pipes: seq<Pipe>, debugFd: int)
    requires |pipes| == 3
    requires PipesOpen(t0, pipes, 3)
    requires pipes[0].wr != STDERR_FILENO && pipes[0].wr != STDOUT_FILENO
    ensures var r := RemapChannels(t0, pipes, ChannelTargets(debugFd));
            debugFd in r.table && r.table[debugFd] == t0[pipes[0].wr]
  {
    var fds := ChannelTargets(debugFd);
    var s3 := RemapState(t0, pipes, []);
    var s2 := RemapOne(s3, fds, 2);
    var s1 := RemapOne(s2, fds, 1);
    var s0 := RemapOne(s1, fds, 0);
    assert s2.pipes[0] == pipes[0] && s2.pipes[1] == pipes[1];
    assert pipes[0].wr in s2.table && s2.table[pipes[0].wr] == t0[pipes[0].wr];
    assert s1.pipes[0] == pipes[0];
    assert pipes[0].wr in s1.table && s1.table[pipes[0].wr] == t0[pipes[0].wr];
    assert RemapLoop(s3, fds, 3) == RemapLoop(s2, fds, 2) == RemapLoop(s1, fds, 1) == RemapLoop(s0, fds, 0);
  }

  /** When stdout and stderr are closed as the launcher starts, pipe() hands
      out descriptors 1 and 2 for the debug pipe; the stdout channel's dup2
      onto 1 then clobbers the debug read end and the stderr channel's dup2
      onto 2 clobbers the debug write end. The debug descriptor ends up on the
      stderr channel's pipe, and stdout and stderr are left closed. */
  lemma ClobberedDebugChannel()
    ensures var t0 := map[0 := Inherited(0), 1 := ReadEnd(0), 2 := WriteEnd(0),
                          3 := ReadEnd(1), 4 := WriteEnd(1), 5 := ReadEnd(2), 6 := WriteEnd(2)];
            var pipes := [Pipe(1, 2), Pipe(3, 4), Pipe(5, 6)];
            var r := RemapChannels(t0, pipes, ChannelTargets(9));
            && r.table == map[0 := Inherited(0), 9 := WriteEnd(1)]
            && !NoClobber(pipes, ChannelTargets(9), 3)
  {
    var t0 := map[0 := Inherited(0), 1 := ReadEnd(0), 2 := WriteEnd(0),
                  3 := ReadEnd(1), 4 := WriteEnd(1), 5 := ReadEnd(2), 6 := WriteEnd(2)];
    var pipes := [Pipe(1, 2), Pipe(3, 4), Pipe(5, 6)];
    var fds := ChannelTargets(9);
    var s3 := RemapState(t0, pipes, []);
    var s2 := RemapOne(s3, fds, 2);
    assert s2.table == map[0 := Inherited(0), 1 := WriteEnd(2), 2 := WriteEnd(0), 3 := ReadEnd(1), 4 := WriteEnd(1)];
    var s1 := RemapOne(s2, fds, 1);
    assert s1.table == map[0 := Inherited(0), 1 := WriteEnd(2), 2 := WriteEnd(1)];
    var s0 := RemapOne(s1, fds, 0);
    assert s0.table == map[0 := Inherited(0), 9 := WriteEnd(1)];
    assert RemapLoop(s3, fds, 3) == RemapLoop(s2, fds, 2) == RemapLoop(s1, fds, 1) == RemapLoop(s0, fds, 0);
    assert Touches(pipes[0], fds[1]);
  }
}
