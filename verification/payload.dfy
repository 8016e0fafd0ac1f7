/**
 The loader stub the Windows injector writes into the child
 (src/myfork.c:415-461, 483, 530-535): a fixed machine-code template per
 architecture, with the address of LoadLibraryA patched over a run of '_'
 placeholder bytes, followed by the library name and its NUL. Only the byte
 layout is modelled, not what the instructions do.
 */
module Payload {
  import opened Bytes
  import opened Buffers

  datatype Arch = Amd64 | Ix86

  /** The ASCII '_' that fills the address slot of both templates. */
  const Placeholder: byte := 0x5F

  /** sizeof(DWORD_PTR) and sizeof(void *). */
  function PointerSize(a: Arch): nat {
    match a
    case Amd64 => 8
    case Ix86 => 4
  }

  /** LoadLibraryAOffset: where the address goes (src/myfork.c:421, 445). */
  function LoadLibraryAOffset(a: Arch): nat {
    match a
    case Amd64 => 0x15
    case Ix86 => 0x04
  }

  /** The AMD64 `ldr` array, without the terminator its string literal adds:
      push rbp; mov rbp,rsp; sub rsp,0x20; and rsp,-0x10; lea rcx,[rel 0x27];
      mov rax,<LoadLibraryA>; call rax; test rax,rax; jnz +1; int3; leave; ret. */
  const Amd64Template: seq<byte> :=
    [0x55,
     0x48, 0x89, 0xE5,
     0x48, 0x83, 0xEC, 0x20,
     0x48, 0x83, 0xE4, 0xF0,
     0x48, 0x8D, 0x0D, 0x14, 0x00, 0x00, 0x00,
     0x48, 0xB8, 0x5F, 0x5F, 0x5F, 0x5F, 0x5F, 0x5F, 0x5F, 0x5F,
     0xFF, 0xD0,
     0x48, 0x85, 0xC0,
     0x75, 0x01,
     0xCC,
     0xC9,
     0xC3]

  /** The IX86 `ldr` array: pushad; jmp short 0x11; mov eax,<LoadLibraryA>;
      call eax; test eax,eax; jnz +1; int3; popad; ret; call 0x3. */
  const Ix86Template: seq<byte> :=
    [0x60,
     0xEB, 0x0E,
     0xB8, 0x5F, 0x5F, 0x5F, 0x5F,
     0xFF, 0xD0,
     0x85, 0xC0,
     0x75, 0x01,
     0xCC,
     0x61,
     0xC3,
     0xE8, 0xED, 0xFF, 0xFF, 0xFF]

  function Template(a: Arch): seq<byte> {
    match a
    case Amd64 => Amd64Template
    case Ix86 => Ix86Template
  }

  /** The `wait` stub written over the entry point (line 469). */
  const SpinLoop: seq<byte> := [0xEB, 0xFE]

  /** A C string of bytes carries no NUL. */
  predicate NoZero(s: seq<byte>) {
    0 !in s
  }

  /** pl_len = sizeof(ldr) - 1 + strlen(lib) + 1. */
  function PayloadLength(a: Arch, lib: seq<byte>): nat {
    |Template(a)| + |lib| + 1
  }

  /** The address slot lies inside the template. */
  lemma SlotFits(a: Arch)
    ensures LoadLibraryAOffset(a) + PointerSize(a) <= |Template(a)|
  {
  }

  /** The placeholder bytes are exactly the slot: no other template byte is '_'. */
  lemma SlotIsPlaceholder(a: Arch)
    ensures LoadLibraryAOffset(a) + PointerSize(a) <= |Template(a)|
    ensures forall i :: 0 <= i < |Template(a)| ==>
              (Template(a)[i] == Placeholder <==> LoadLibraryAOffset(a) <= i < LoadLibraryAOffset(a) + PointerSize(a))
  {
    match a
    case Amd64 => PlaceholderRun(Amd64Template, 0x15, 8);
    case Ix86 => PlaceholderRun(Ix86Template, 0x04, 4);
  }

  lemma PlaceholderRun(t: seq<byte>, off: nat, p: nat)
    requires off + p <= |t|
    requires forall i :: 0 <= i < off ==> t[i] != Placeholder
    requires forall i :: off <= i < off + p ==> t[i] == Placeholder
    requires forall i :: off + p <= i < |t| ==> t[i] != Placeholder
    ensures forall i :: 0 <= i < |t| ==> (t[i] == Placeholder <==> off <= i < off + p)
  {
  }

  /** memcpy of the template, memcpy of the address over the slot, strcpy of
      the library name after the template, into a fresh block of pl_len
      bytes. Every byte of the block is written, whatever it held. */
  function ForgePayload(a: Arch, addr: nat, lib: seq<byte>, block: seq<byte>): (pl: seq<byte>)
    requires addr < Pow256(PointerSize(a))
    requires NoZero(lib)
    requires |block| == PayloadLength(a, lib)
    ensures |pl| == PayloadLength(a, lib)
    ensures pl[LoadLibraryAOffset(a)..LoadLibraryAOffset(a) + PointerSize(a)] == ToLE(addr, PointerSize(a))
    ensures forall i :: 0 <= i < |Template(a)| && !(LoadLibraryAOffset(a) <= i < LoadLibraryAOffset(a) + PointerSize(a)) ==>
              pl[i] == Template(a)[i]
    ensures pl[|Template(a)|..] == lib + [0]
  {
    SlotFits(a);
    Patch(block, Template(a), LoadLibraryAOffset(a), ToLE(addr, PointerSize(a)), lib + [0])
  }

  /** The template copied to the front of a block, `w` over its slot at
      `off`, and `tail` after it: the layout of ForgePayload for any template. */
  function Patch(block: seq<byte>, t: seq<byte>, off: nat, w: seq<byte>, tail: seq<byte>): (pl: seq<byte>)
    requires off + |w| <= |t|
    requires |block| == |t| + |tail|
    ensures |pl| == |block|
    ensures pl[off..off + |w|] == w
    ensures forall i :: 0 <= i < |t| && !(off <= i < off + |w|) ==> pl[i] == t[i]
    ensures pl[|t|..] == tail
  {
    var b1 := Overwrite(block, 0, t);
    var b2 := Overwrite(b1, off, w);
    var b3 := Overwrite(b2, |t|, tail);
    assert forall i :: 0 <= i < |t| ==> b1[i] == t[i];
    b3
  }

  /** The address read back out of a forged payload is the one patched in. */
  lemma PatchedAddress(a: Arch, addr: nat, lib: seq<byte>, block: seq<byte>)
    requires addr < Pow256(PointerSize(a))
    requires NoZero(lib)
    requires |block| == PayloadLength(a, lib)
    ensures var pl := ForgePayload(a, addr, lib, block);
            FromLE(pl[LoadLibraryAOffset(a)..LoadLibraryAOffset(a) + PointerSize(a)]) == addr
  {
    var pl := ForgePayload(a, addr, lib, block);
    assert pl[LoadLibraryAOffset(a)..LoadLibraryAOffset(a) + PointerSize(a)] == ToLE(addr, PointerSize(a));
    FromToLEFits(addr, PointerSize(a));
  }

  /** Blanking the slot of a forged payload gives back the template. */
  lemma BlankedSlot(a: Arch, addr: nat, lib: seq<byte>, block: seq<byte>)
    requires addr < Pow256(PointerSize(a))
    requires NoZero(lib)
    requires |block| == PayloadLength(a, lib)
    ensures var pl := ForgePayload(a, addr, lib, block);
            var off := LoadLibraryAOffset(a);
            var p := PointerSize(a);
            pl[..off] + seq(p, _ => Placeholder) + pl[off + p..|Template(a)|] == Template(a)
  {
    var pl := ForgePayload(a, addr, lib, block);
    SlotIsPlaceholder(a);
    BlankRestores(pl, Template(a), LoadLibraryAOffset(a), PointerSize(a));
  }

  /** Blanking a slot of placeholders in a copy of a template, equal to it
      outside the slot, gives back the template. */
  lemma BlankRestores(pl: seq<byte>, t: seq<byte>, off: nat, p: nat)
    requires off + p <= |t| <= |pl|
    requires forall i :: 0 <= i < |t| && !(off <= i < off + p) ==> pl[i] == t[i]
    requires forall i :: off <= i < off + p ==> t[i] == Placeholder
    ensures pl[..off] + seq(p, _ => Placeholder) + pl[off + p..|t|] == t
  {
    var u := pl[..off] + seq(p, _ => Placeholder) + pl[off + p..|t|];
    assert |u| == |t|;
    forall i | 0 <= i < |t|
      ensures u[i] == t[i]
    {
      if i < off {
        assert u[i] == pl[i];
      } else if i < off + p {
        assert u[i] == Placeholder;
      } else {
        assert u[i] == pl[i];
      }
    }
  }

  /** The payload is determined by the architecture, the address and the
      name: what the fresh block held does not show through. */
  lemma ForgeIgnoresBlock(a: Arch, addr: nat, lib: seq<byte>, b1: seq<byte>, b2: seq<byte>)
    requires addr < Pow256(PointerSize(a))
    requires NoZero(lib)
    requires |b1| == PayloadLength(a, lib) && |b2| == PayloadLength(a, lib)
    ensures ForgePayload(a, addr, lib, b1) == ForgePayload(a, addr, lib, b2)
  {
    var p1 := ForgePayload(a, addr, lib, b1);
    var p2 := ForgePayload(a, addr, lib, b2);
    var off := LoadLibraryAOffset(a);
    var p := PointerSize(a);
    var n := |Template(a)|;
    SlotFits(a);
    forall i | 0 <= i < |p1|
      ensures p1[i] == p2[i]
    {
      if off <= i < off + p {
        assert p1[i] == p1[off..off + p][i - off];
        assert p2[i] == p2[off..off + p][i - off];
      } else if n <= i {
        assert p1[i] == p1[n..][i - n];
        assert p2[i] == p2[n..][i - n];
      }
    }
  }

  /** Little-endian displacement fields of the templates, read signed. */
  function Disp8(b: byte): int {
    if b < 0x80 then b as int else b as int - 0x100
  }

  function Disp32(bs: seq<byte>): int
    requires |bs| == 4
  {
    ToInt32(FromLE(bs))
  }

  /** The AMD64 template finds the library name where the payload puts it:
      the rip-relative lea, whose next instruction starts at 19, loads the
      address just past the template. */
  lemma LeaReachesName()
    ensures Amd64Template[12..15] == [0x48, 0x8D, 0x0D]
    ensures 19 + Disp32(Amd64Template[15..19]) == |Amd64Template|
  {
    var t := Amd64Template;
    assert t[12] == 0x48 && t[13] == 0x8D && t[14] == 0x0D;
    assert t[12..15] == [0x48, 0x8D, 0x0D];
    assert t[15] == 0x14 && t[16] == 0 && t[17] == 0 && t[18] == 0;
    assert t[15..19] == [0x14, 0, 0, 0];
    FromLE4(0x14, 0, 0, 0);
  }

  /** The `wait` stub is a two-byte short jump onto itself, so the thread
      that reaches the entry point stays there. */
  lemma SpinLoopSpins()
    ensures |SpinLoop| == 2 && SpinLoop[0] == 0xEB && |SpinLoop| + Disp8(SpinLoop[1]) == 0
  {
  }

  /** The IX86 template's short jmp, whose next instruction starts at 3,
      lands on the call at 17. */
  lemma JmpReachesCall()
    ensures Ix86Template[1] == 0xEB && 3 + Disp8(Ix86Template[2]) == 17 && Ix86Template[17] == 0xE8
  {
  }

  /** The IX86 template finds the library name where the payload puts it:
      the call at 17 pushes its return address, the byte just past the
      template, as LoadLibraryA's argument, and jumps back to the mov of the
      patched address at 3. */
  lemma CallPushesName()
    ensures Ix86Template[17] == 0xE8 && 22 == |Ix86Template|
    ensures 22 + Disp32(Ix86Template[18..22]) == 3 && Ix86Template[3] == 0xB8
  {
    var u := Ix86Template;
    var rel := u[18..22];
    assert rel == [0xED, 0xFF, 0xFF, 0xFF] by {
      assert u[18] == 0xED && u[19] == 0xFF && u[20] == 0xFF && u[21] == 0xFF;
    }
    FromLE4(0xED, 0xFF, 0xFF, 0xFF);
  }
}
