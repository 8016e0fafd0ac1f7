/**
 dll_inject (src/myfork.c:466-556): make the suspended child spin at its
 original entry point, resolve LoadLibraryA in the child, allocate a block
 in the child, push the entry point as a return address, point the
 instruction pointer at the block, write the loader payload there, and put
 the entry point's two bytes back.

 Each system call the injector makes can be refused by the operating
 system; that is an input, as are the thread context seen when polling finds
 the thread at its entry point, the module snapshot and the address
 VirtualAllocEx returns. A partial transfer counts as a refusal, as the
 source treats `written != size` like a failed call.
 */
module Injector {
  import opened Results
  import opened Bytes
  import opened RemoteMemory
  import opened Payload
  import opened PeExports

  /** The registers the injector reads and sets: the instruction pointer,
      the stack pointer, and the register that holds the original entry
      point while the process sits suspended in the loader (rcx on AMD64,
      eax on IX86). */
  datatype Context = Context(ip: nat, sp: nat, loader: nat)

  /** Every register fits the pointer width. */
  predicate ValidContext(a: Arch, c: Context) {
    c.ip < Pow256(PointerSize(a)) && c.sp < Pow256(PointerSize(a)) && c.loader < Pow256(PointerSize(a))
  }

  /** The system calls whose failure makes the injection give up, in the
      order they are made. */
  datatype Call =
    | GetContext | SaveEntry | WriteSpin | FlushSpin | Resume | Suspend
    | PushReturn | SetContext | AllocPayload | WritePayload | RestoreEntry
    | FlushPayload | FlushEntry

  /** Why an injection gave up: a refused call, a failed GetThreadContext
      while polling for the entry point, no LoadLibraryA in the child, or a
      NULL from VirtualAllocEx. */
  datatype Step = Refused(call: Call) | NoEntry | NoLoadLibrary | NoMemory

  /** What the operating system answers. `loaded` is the child's memory
      once it has run to the entry point and spins there: the spin loop is
      in place and the loader has mapped the modules `modules` lists. */
  datatype Os = Os(
    refuses: set<Call>,
    arrival: Option<Context>,
    modules: seq<ModuleEntry>,
    loaded: Memory,
    allocBase: nat)

  /** The child as the injector sees it: its memory and its main thread. */
  datatype Target = Target(mem: Memory, ctx: Context)

  /** A pointer-width unsigned value: C's DWORD_PTR arithmetic wraps. */
  function Wrap(a: Arch, x: int): (w: nat)
    ensures w < Pow256(PointerSize(a))
    ensures 0 <= x < Pow256(PointerSize(a)) ==> w == x
    ensures (x - w) % Pow256(PointerSize(a)) == 0
  {
    var p := Pow256(PointerSize(a));
    ModSmall(x, p);
    MultipleMod(x / p, p);
    x % p
  }

  /** A multiple of `p` leaves no remainder. */
  lemma MultipleMod(q: int, p: nat)
    requires p > 0
    ensures (q * p) % p == 0
  {
    var r := (q * p) % p;
    var d := (q * p) / p;
    assert q * p == d * p + r;
    var k := q - d;
    assert k * p == q * p - d * p;
    assert k * p == r;
    if k >= 1 {
      MulAtLeast(k, p);
    } else if k <= -1 {
      MulAtLeast(-k, p);
    }
  }

  lemma MulAtLeast(k: int, p: nat)
    requires k >= 1 && p > 0
    ensures k * p >= p
  {
  }

  lemma ModSmall(x: int, p: nat)
    requires p > 0
    ensures 0 <= x % p < p
    ensures 0 <= x < p ==> x % p == x
    ensures -(p as int) <= x < 0 ==> x % p == x + p
  {
  }

  /** The stack pointer once a pointer-sized return address is pushed
      (`ctxt.StackPointer -= sizeof(oep)`, unsigned). */
  function PushedSp(a: Arch, c: Context): (sp: nat)
    ensures sp < Pow256(PointerSize(a))
    ensures PointerSize(a) <= c.sp < Pow256(PointerSize(a)) + PointerSize(a) ==> sp == c.sp - PointerSize(a)
    ensures 0 <= c.sp < PointerSize(a) ==> sp == Pow256(PointerSize(a)) + c.sp - PointerSize(a)
  {
    ModSmall(c.sp - PointerSize(a), Pow256(PointerSize(a)));
    assert PointerSize(a) <= Pow256(PointerSize(a)) by { Pow256Widths(); }
    Wrap(a, c.sp - PointerSize(a))
  }

  /** "LoadLibraryA", the symbol the payload calls. */
  const LoadLibraryAName: seq<byte> :=
    [0x4C, 0x6F, 0x61, 0x64, 0x4C, 0x69, 0x62, 0x72, 0x61, 0x72, 0x79, 0x41]

  /** The thread's context once it spins at the entry point: the first one
      if it was already there, otherwise the one the poll stopped on. */
  function EntryContext(os: Os, t: Target): Context
    requires t.ctx.ip == t.ctx.loader || os.arrival.Some?
  {
    if t.ctx.ip == t.ctx.loader then t.ctx else os.arrival.value
  }

  /** get_proc_address(process, pid, "LoadLibraryA") on the child's memory
      once it spins at the entry point (line 516). */
  function LookupLoadLibrary(a: Arch, os: Os, t: Target): int
    requires forall j :: 0 <= j < |os.modules| ==> '\0' !in os.modules[j].name
  {
    assert LoadLibraryAName[11] == 0x41;
    GetProcAddress(os.modules, os.loaded, a, LoadLibraryAName)
  }

  /** Where LoadLibraryA lives in the child, as the pointer `rldlib`; zero
      is NULL. `base + funcaddr` is pointer arithmetic, so the lookup's
      address is taken modulo the pointer width. */
  function LoadLibraryAddress(a: Arch, os: Os, t: Target): (addr: nat)
    requires forall j :: 0 <= j < |os.modules| ==> '\0' !in os.modules[j].name
    ensures addr < Pow256(PointerSize(a))
    ensures (LookupLoadLibrary(a, os, t) - addr) % Pow256(PointerSize(a)) == 0
    ensures 0 <= LookupLoadLibrary(a, os, t) < Pow256(PointerSize(a)) ==> addr == LookupLoadLibrary(a, os, t)
  {
    Wrap(a, LookupLoadLibrary(a, os, t))
  }

  /** The fresh block the payload is forged in; its contents do not matter
      (`Payload.ForgeIgnoresBlock`). */
  function ScratchBlock(n: nat): (b: seq<byte>)
    ensures |b| == n
  {
    seq(n, _ => 0)
  }

  /** The injector's input: the registers fit their width, the module names
      are C strings, the poll only stops on the entry point, and the block
      VirtualAllocEx returns is a pointer. */
  predicate Admissible(a: Arch, os: Os, t: Target, lib: seq<byte>) {
    && NoZero(lib)
    && ValidContext(a, t.ctx)
    && (os.arrival.Some? ==> ValidContext(a, os.arrival.value) && os.arrival.value.ip == t.ctx.loader)
    && (forall j :: 0 <= j < |os.modules| ==> '\0' !in os.modules[j].name)
    && os.allocBase < Pow256(PointerSize(a))
  }

  /** The order in which the steps are checked. */
  function Rank(s: Step): nat {
    match s
    case Refused(GetContext) => 0
    case Refused(SaveEntry) => 1
    case Refused(WriteSpin) => 2
    case Refused(FlushSpin) => 3
    case Refused(Resume) => 4
    case NoEntry => 5
    case Refused(Suspend) => 6
    case NoLoadLibrary => 7
    case NoMemory => 8
    case Refused(PushReturn) => 9
    case Refused(SetContext) => 10
    case Refused(AllocPayload) => 11
    case Refused(WritePayload) => 12
    case Refused(RestoreEntry) => 13
    case Refused(FlushPayload) => 14
    case Refused(FlushEntry) => 15
  }

  /** The number of steps. */
  const StepCount: nat := 16

  /** The step of each rank: the inverse of `Rank`. */
  function StepAt(n: nat): (s: Step)
    requires n < StepCount
    ensures Rank(s) == n
  {
    if n == 0 then Refused(GetContext)
    else if n == 1 then Refused(SaveEntry)
    else if n == 2 then Refused(WriteSpin)
    else if n == 3 then Refused(FlushSpin)
    else if n == 4 then Refused(Resume)
    else if n == 5 then NoEntry
    else if n == 6 then Refused(Suspend)
    else if n == 7 then NoLoadLibrary
    else if n == 8 then NoMemory
    else if n == 9 then Refused(PushReturn)
    else if n == 10 then Refused(SetContext)
    else if n == 11 then Refused(AllocPayload)
    else if n == 12 then Refused(WritePayload)
    else if n == 13 then Refused(RestoreEntry)
    else if n == 14 then Refused(FlushPayload)
    else Refused(FlushEntry)
  }

  /** Every step has a rank, and its rank leads back to it. */
  lemma RankStepAt(s: Step)
    ensures Rank(s) < StepCount && StepAt(Rank(s)) == s
  {
  }

  /** Whether a step goes wrong, judged on the inputs alone. */
  predicate Fails(s: Step, a: Arch, os: Os, t: Target)
    requires forall j :: 0 <= j < |os.modules| ==> '\0' !in os.modules[j].name
  {
    match s
    case Refused(c) => c in os.refuses
    case NoEntry => t.ctx.ip != t.ctx.loader && os.arrival.None?
    case NoLoadLibrary => LoadLibraryAddress(a, os, t) == 0
    case NoMemory => os.allocBase == 0
  }

  /** A byte after a write: the written one inside the range, the old one
      outside. */
  lemma PeekWrite(m: Memory, a: int, bs: seq<byte>, x: int)
    ensures Peek(WriteMem(m, a, bs), x) == if a <= x < a + |bs| then bs[x - a] else Peek(m, x)
  {
    if a <= x < a + |bs| {
      assert WriteMem(m, a, bs)[a + (x - a)] == bs[x - a];
    }
  }

  /** Outside the payload block, the pushed word and the entry point, the
      injector's writes leave every byte as it was. */
  lemma WritesFrame(m: Memory, oep: int, orig: seq<byte>, rpl: int, zeros: seq<byte>, sp: int, ret: seq<byte>, pl: seq<byte>, x: int)
    requires |zeros| == |pl| && |orig| == 2
    requires !(rpl <= x < rpl + |pl|) && !(sp <= x < sp + |ret|) && !(oep <= x < oep + 2)
    ensures Peek(WriteMem(WriteMem(WriteMem(WriteMem(m, rpl, zeros), sp, ret), rpl, pl), oep, orig), x) == Peek(m, x)
  {
    var m1 := WriteMem(m, rpl, zeros);
    var m2 := WriteMem(m1, sp, ret);
    var m3 := WriteMem(m2, rpl, pl);
    PeekWrite(m3, oep, orig, x);
    PeekWrite(m2, rpl, pl, x);
    PeekWrite(m1, sp, ret, x);
    PeekWrite(m, rpl, zeros, x);
  }

  /** The payload survives the later writes when the entry point lies
      outside its block. */
  lemma PayloadSurvives(m3: Memory, rpl: int, pl: seq<byte>, oep: int, orig: seq<byte>)
    requires |orig| == 2
    ensures Disjoint(rpl, |pl|, oep, 2) ==> ReadMem(WriteMem(WriteMem(m3, rpl, pl), oep, orig), rpl, |pl|) == pl
  {
    if Disjoint(rpl, |pl|, oep, 2) {
      ReadWritten(m3, rpl, pl);
      ReadElsewhere(WriteMem(m3, rpl, pl), oep, orig, rpl, |pl|);
    }
  }

  /** The pushed word survives the later writes when it overlaps neither the
      payload block nor the entry point. */
  lemma ReturnSurvives(m2: Memory, sp: int, ret: seq<byte>, rpl: int, pl: seq<byte>, oep: int, orig: seq<byte>)
    requires |orig| == 2
    ensures Disjoint(sp, |ret|, oep, 2) && Disjoint(sp, |ret|, rpl, |pl|) ==>
              ReadMem(WriteMem(WriteMem(WriteMem(m2, sp, ret), rpl, pl), oep, orig), sp, |ret|) == ret
  {
    if Disjoint(sp, |ret|, oep, 2) && Disjoint(sp, |ret|, rpl, |pl|) {
      ReadWritten(m2, sp, ret);
      ReadElsewhere(WriteMem(m2, sp, ret), rpl, pl, sp, |ret|);
      ReadElsewhere(WriteMem(WriteMem(m2, sp, ret), rpl, pl), oep, orig, sp, |ret|);
    }
  }

  /** The child's memory after the injector's writes onto `m`, the memory
      it has at the entry point, in the order they are made: the committed
      block (zero-filled), the pushed return address, the payload, and the
      entry bytes `orig` saved before the child ran put back. */
  function InjectedMemory(m: Memory, oep: int, orig: seq<byte>, rpl: int, sp: int, ret: seq<byte>, pl: seq<byte>): (m5: Memory)
    requires |orig| == 2
    ensures ReadMem(m5, oep, 2) == orig
    ensures Disjoint(rpl, |pl|, oep, 2) ==> ReadMem(m5, rpl, |pl|) == pl
    ensures Disjoint(sp, |ret|, oep, 2) && Disjoint(sp, |ret|, rpl, |pl|) ==> ReadMem(m5, sp, |ret|) == ret
    ensures SameOutside(m5, m, rpl, |pl|, sp, |ret|, oep, 2)
  {
    var zeros := ScratchBlock(|pl|);
    var m2 := WriteMem(WriteMem(m, rpl, zeros), sp, ret);
    var m4 := WriteMem(m2, rpl, pl);
    ReadWritten(m4, oep, orig);
    PayloadSurvives(m2, rpl, pl, oep, orig);
    ReturnSurvives(WriteMem(m, rpl, zeros), sp, ret, rpl, pl, oep, orig);
    FrameAll(m, oep, orig, rpl, zeros, sp, ret, pl);
    WriteMem(m4, oep, orig)
  }

  /** `m'` agrees with `m` on every address outside the three ranges. */
  ghost predicate SameOutside(m': Memory, m: Memory, a: int, n: nat, b: int, k: nat, c: int, l: nat) {
    forall x :: !(a <= x < a + n) && !(b <= x < b + k) && !(c <= x < c + l) ==> Peek(m', x) == Peek(m, x)
  }

  /** Every byte outside the payload block, the pushed word and the entry
      point. */
  lemma FrameAll(m: Memory, oep: int, orig: seq<byte>, rpl: int, zeros: seq<byte>, sp: int, ret: seq<byte>, pl: seq<byte>)
    requires |zeros| == |pl| && |orig| == 2
    ensures forall x :: !(rpl <= x < rpl + |pl|) && !(sp <= x < sp + |ret|) && !(oep <= x < oep + 2) ==>
              Peek(WriteMem(WriteMem(WriteMem(WriteMem(m, rpl, zeros), sp, ret), rpl, pl), oep, orig), x) == Peek(m, x)
  {
    forall x | !(rpl <= x < rpl + |pl|) && !(sp <= x < sp + |ret|) && !(oep <= x < oep + 2) {
      WritesFrame(m, oep, orig, rpl, zeros, sp, ret, pl, x);
    }
  }

  /** The child after every step has gone through. The entry point's bytes
      are the ones saved before the child ran, the thread will enter the
      payload and return from it to the entry point, and nothing else has
      changed in the memory the child had at the entry point. */
  function Injected(a: Arch, os: Os, t: Target, lib: seq<byte>): (r: Target)
    requires Admissible(a, os, t, lib)
    requires t.ctx.ip == t.ctx.loader || os.arrival.Some?
    ensures r.ctx.ip == os.allocBase
    ensures r.ctx.sp == PushedSp(a, EntryContext(os, t)) && r.ctx.loader == EntryContext(os, t).loader
    ensures ReadMem(r.mem, t.ctx.loader, 2) == ReadMem(t.mem, t.ctx.loader, 2)
    ensures var len := PayloadLength(a, lib);
            Disjoint(os.allocBase, len, t.ctx.loader, 2) ==>
              ReadMem(r.mem, os.allocBase, len) == ForgePayload(a, LoadLibraryAddress(a, os, t), lib, ScratchBlock(len))
    ensures var P := PointerSize(a);
            Disjoint(r.ctx.sp, P, t.ctx.loader, 2) && Disjoint(r.ctx.sp, P, os.allocBase, PayloadLength(a, lib)) ==>
              FromLE(ReadMem(r.mem, r.ctx.sp, P)) == t.ctx.loader
    ensures SameOutside(r.mem, os.loaded, os.allocBase, PayloadLength(a, lib), r.ctx.sp, PointerSize(a), t.ctx.loader, 2)
  {
    var P := PointerSize(a);
    var oep := t.ctx.loader;
    var ctx := EntryContext(os, t);
    var sp := PushedSp(a, ctx);
    var pl := ForgePayload(a, LoadLibraryAddress(a, os, t), lib, ScratchBlock(PayloadLength(a, lib)));
    var ret := ToLE(oep, P);
    FromToLEFits(oep, P);
    var m5 := InjectedMemory(os.loaded, oep, ReadMem(t.mem, oep, 2), os.allocBase, sp, ret, pl);
    assert |ret| == P && |pl| == PayloadLength(a, lib);
    Target(m5, ctx.(ip := os.allocBase, sp := sp))
  }

  /** The checks from rank `n` on: the first step that fails, if any. */
  function FirstFailure(a: Arch, os: Os, t: Target, n: nat): (r: Option<Step>)
    requires forall j :: 0 <= j < |os.modules| ==> '\0' !in os.modules[j].name
    requires n <= StepCount
    ensures r.Some? ==> Fails(r.value, a, os, t) && n <= Rank(r.value) < StepCount
                        && forall k :: n <= k < Rank(r.value) ==> !Fails(StepAt(k), a, os, t)
    ensures r.None? ==> forall k :: n <= k < StepCount ==> !Fails(StepAt(k), a, os, t)
    decreases StepCount - n
  {
    if n == StepCount then None
    else if Fails(StepAt(n), a, os, t) then Some(StepAt(n))
    else FirstFailure(a, os, t, n + 1)
  }

  /** dll_inject: its calls are made in the order `StepAt` lists them and
      the first that fails ends the injection; when none fails the child is
      left as `Injected` describes. What a failed injection leaves behind is
      not modelled: the caller terminates the child. */
  function Inject(a: Arch, os: Os, t: Target, lib: seq<byte>): (r: Result<Target, Step>)
    requires Admissible(a, os, t, lib)
    ensures r.Err? ==> Fails(r.error, a, os, t) && forall k :: 0 <= k < Rank(r.error) ==> !Fails(StepAt(k), a, os, t)
    ensures r.Ok? ==> forall k :: 0 <= k < StepCount ==> !Fails(StepAt(k), a, os, t)
    ensures r.Ok? ==> (t.ctx.ip == t.ctx.loader || os.arrival.Some?) && r.value == Injected(a, os, t, lib)
  {
    match FirstFailure(a, os, t, 0)
    case Some(s) => Err(s)
    case None =>
      assert !Fails(StepAt(5), a, os, t);
      Ok(Injected(a, os, t, lib))
  }

  /** The injection succeeds exactly when no step fails; when one does, it
      reports the earliest. */
  lemma InjectOutcome(a: Arch, os: Os, t: Target, lib: seq<byte>)
    requires Admissible(a, os, t, lib)
    ensures Inject(a, os, t, lib).Ok? <==> forall s :: !Fails(s, a, os, t)
    ensures Inject(a, os, t, lib).Err? ==>
              forall s :: Fails(s, a, os, t) ==> Rank(Inject(a, os, t, lib).error) <= Rank(s)
  {
    var r := Inject(a, os, t, lib);
    forall s | Fails(s, a, os, t)
      ensures r.Err? && Rank(r.error) <= Rank(s)
    {
      RankStepAt(s);
    }
  }

  /** dll_inject's return value: 0 on success, -1 otherwise. */
  function DllInject(a: Arch, os: Os, t: Target, lib: seq<byte>): (res: int)
    requires Admissible(a, os, t, lib)
    ensures res == 0 <==> forall s :: !Fails(s, a, os, t)
    ensures res == 0 || res == -1
  {
    InjectOutcome(a, os, t, lib);
    if Inject(a, os, t, lib).Ok? then 0 else -1
  }
}
