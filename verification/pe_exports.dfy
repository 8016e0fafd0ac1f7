/**
 The symbol lookup the Windows injector runs on the child's memory
 (src/myfork.c:564-627): walk the module snapshot, keep the modules named
 kernel32.dll (compared case-insensitively), find the export directory
 through the DOS header's e_lfanew and the export entry of the optional
 header's data directory, scan the export name pointer table for the wanted
 name, map the index through the ordinal table, and index the export address
 table. The layout is that of section 3.4.3 (Optional Header Data
 Directories) and section 6.3 (The .edata Section) of the Microsoft PE/COFF
 specification.

 The Toolhelp snapshot is an input sequence, the child's memory an abstract
 byte map whose reads are total; the source ignores the results of its
 ReadProcessMemory calls.
 */
module PeExports {
  import opened Results
  import opened Bytes
  import opened RemoteMemory
  import opened Payload

  /** One MODULEENTRY32: the module's file name and its load address. */
  datatype ModuleEntry = ModuleEntry(name: string, base: int)

  /** The offset of e_lfanew in IMAGE_DOS_HEADER. */
  const ELfanewOffset: int := 0x3C

  /** The offset, from the start of IMAGE_NT_HEADERS, of the export entry of
      the data directory: 4 bytes of signature, 20 of file header, then 112
      bytes of PE32+ optional header before the directory on AMD64, and 96 of
      PE32 optional header on IX86. */
  function ExportEntryOffset(a: Arch): int {
    match a
    case Amd64 => 0x88
    case Ix86 => 0x78
  }

  /** Fields of IMAGE_EXPORT_DIRECTORY. */
  const NumberOfNamesOffset: int := 24
  const AddressOfFunctionsOffset: int := 28
  const AddressOfNamesOffset: int := 32
  const AddressOfNameOrdinalsOffset: int := 36

  /** The module the injector looks in. */
  const Kernel32: string := "kernel32.dll"

  /** The C library's tolower in the "C" locale. */
  function Lower(c: char): (l: char)
    ensures 'A' <= c <= 'Z' ==> l as int == c as int + 32
    ensures !('A' <= c <= 'Z') ==> l == c
  {
    if 'A' <= c <= 'Z' then (c as int + 32) as char else c
  }

  /** Two strings are equal up to ASCII case. */
  predicate SameIgnoringCase(a: string, b: string) {
    |a| == |b| && forall i :: 0 <= i < |a| ==> Lower(a[i]) == Lower(b[i])
  }

  /** stricmp(a, b) == 0, as the comparison loop runs: compare the lowered
      characters until they differ or both strings end. */
  function StrICaseEqual(a: string, b: string): (eq: bool)
    requires '\0' !in a && '\0' !in b
    ensures eq <==> SameIgnoringCase(a, b)
    decreases |a|
  {
    if |a| == 0 || |b| == 0 then |a| == |b|
    else if Lower(a[0]) != Lower(b[0]) then false
    else
      var eq := StrICaseEqual(a[1..], b[1..]);
      assert SameIgnoringCase(a, b) <==> SameIgnoringCase(a[1..], b[1..]) by {
        if SameIgnoringCase(a[1..], b[1..]) && |a| == |b| {
          forall i | 0 <= i < |a|
            ensures Lower(a[i]) == Lower(b[i])
          {
            if i > 0 {
              assert a[i] == a[1..][i - 1] && b[i] == b[1..][i - 1];
            }
          }
        }
      }
      eq
  }

  /** strcmp(buf, s) == 0 where `s` ends at its only NUL: compare byte by
      byte until they differ or the terminator is reached (the terminator is
      the last byte of `s`, and the only zero in it). */
  function StrcmpEqual(buf: seq<byte>, s: seq<byte>): (eq: bool)
    requires |buf| == |s| && |s| >= 1
    requires s[|s| - 1] == 0 && NoZero(s[..|s| - 1])
    ensures eq <==> buf == s
    decreases |s|
  {
    if buf[0] != s[0] then false
    else if |s| == 1 then true
    else
      assert s[1..][..|s| - 2] == s[..|s| - 1][1..];
      var eq := StrcmpEqual(buf[1..], s[1..]);
      assert buf == s <==> buf[1..] == s[1..] by {
        if buf[1..] == s[1..] { assert buf == [buf[0]] + buf[1..] && s == [s[0]] + s[1..]; }
      }
      eq
  }

  /** The export directory's address (relative to the image base) as the
      source reads it: e_lfanew is a signed 32-bit LONG; the data directory
      entry an unsigned 32-bit RVA. Zero means the module exports nothing. */
  function ExportRva(m: Memory, a: Arch, base: int): (rva: nat)
    ensures rva < 0x1_0000_0000
  {
    var lfanew := ToInt32(U32(m, base + ELfanewOffset));
    U32(m, base + lfanew + ExportEntryOffset(a))
  }

  /** `(int)expdir.NumberOfNames`: a count of 2^31 or more wraps negative and
      the scan makes no iteration. */
  function NameCount(m: Memory, dir: int): int {
    ToInt32(U32(m, dir + NumberOfNamesOffset))
  }

  /** The RVA of the `i`-th exported name. */
  function NameRva(m: Memory, base: int, dir: int, i: int): nat {
    U32(m, base + U32(m, dir + AddressOfNamesOffset) + i * 4)
  }

  /** The address the `i`-th name resolves to: its ordinal indexes the
      export address table, whose entry is an RVA. */
  function ExportAddress(m: Memory, base: int, dir: int, i: int): int {
    var ordinal := U16(m, base + U32(m, dir + AddressOfNameOrdinalsOffset) + i * 2);
    base + U32(m, base + U32(m, dir + AddressOfFunctionsOffset) + ordinal * 4)
  }

  /** The `i`-th exported name, read with the wanted name's length plus its
      terminator, is the wanted name. */
  predicate NameHit(m: Memory, base: int, dir: int, func: seq<byte>, i: int) {
    ReadMem(m, base + NameRva(m, base, dir, i), |func| + 1) == func + [0]
  }

  /** One turn of the name loop: read the `i`-th name with the wanted
      name's length plus one and strcmp() it against the wanted name. */
  function NameMatches(m: Memory, base: int, dir: int, func: seq<byte>, i: int): (eq: bool)
    requires NoZero(func)
    ensures eq <==> NameHit(m, base, dir, func, i)
  {
    var buf := ReadMem(m, base + NameRva(m, base, dir, i), |func| + 1);
    assert (func + [0])[..|func|] == func;
    StrcmpEqual(buf, func + [0])
  }

  /** The name loop from index `i` on: the first matching index, if any. */
  function ScanNames(m: Memory, base: int, dir: int, func: seq<byte>, i: int): (r: Option<int>)
    requires NoZero(func)
    ensures r.Some? ==> i <= r.value < NameCount(m, dir) && NameHit(m, base, dir, func, r.value)
                        && forall i' :: i <= i' < r.value ==> !NameHit(m, base, dir, func, i')
    ensures r.None? <==> forall i' :: i <= i' < NameCount(m, dir) ==> !NameHit(m, base, dir, func, i')
    decreases NameCount(m, dir) - i
  {
    if i >= NameCount(m, dir) then None
    else if NameMatches(m, base, dir, func, i) then Some(i)
    else ScanNames(m, base, dir, func, i + 1)
  }

  /** The export directory of a module, from its base. */
  function ExportDir(m: Memory, a: Arch, e: ModuleEntry): int {
    e.base + ExportRva(m, a, e.base)
  }

  /** The module is named `want` (up to case) and has an export directory
      that names `func`. */
  predicate ModuleHit(e: ModuleEntry, want: string, m: Memory, a: Arch, func: seq<byte>) {
    && SameIgnoringCase(want, e.name)
    && ExportRva(m, a, e.base) != 0
    && exists i :: 0 <= i < NameCount(m, ExportDir(m, a, e)) && NameHit(m, e.base, ExportDir(m, a, e), func, i)
  }

  /** One pass of the module loop: skip a module of another name or without
      exports, otherwise scan its names. */
  function ScanModule(e: ModuleEntry, want: string, m: Memory, a: Arch, func: seq<byte>): (r: Option<int>)
    requires NoZero(func) && '\0' !in e.name && '\0' !in want
    ensures r.Some? <==> ModuleHit(e, want, m, a, func)
    ensures r.Some? ==> r == ScanNames(m, e.base, ExportDir(m, a, e), func, 0)
  {
    if !StrICaseEqual(want, e.name) then None
    else if ExportRva(m, a, e.base) == 0 then None
    else ScanNames(m, e.base, ExportDir(m, a, e), func, 0)
  }

  /** The passes of the module loop, one per snapshot entry. */
  function Passes(mods: seq<ModuleEntry>, want: string, m: Memory, a: Arch, func: seq<byte>): (h: seq<Option<int>>)
    requires NoZero(func) && '\0' !in want
    requires forall j :: 0 <= j < |mods| ==> '\0' !in mods[j].name
    ensures |h| == |mods|
    ensures forall j :: 0 <= j < |mods| ==> h[j] == ScanModule(mods[j], want, m, a, func)
  {
    seq(|mods|, j requires 0 <= j < |mods| => ScanModule(mods[j], want, m, a, func))
  }

  /** The module loop from pass `k` on: it stops at the first pass that
      finds the name, with that module's index and the name's index. */
  function FirstHit(h: seq<Option<int>>, k: nat): (r: Option<(nat, int)>)
    requires k <= |h|
    ensures r.None? <==> forall k' :: k <= k' < |h| ==> h[k'].None?
    ensures r.Some? ==> k <= r.value.0 < |h| && h[r.value.0] == Some(r.value.1)
                        && forall k' :: k <= k' < r.value.0 ==> h[k'].None?
    decreases |h| - k
  {
    if k == |h| then None
    else
      match h[k]
      case Some(i) => Some((k, i))
      case None => FirstHit(h, k + 1)
  }

  /** Module `k` is the first kernel32.dll of the snapshot whose export
      directory names `func`. */
  predicate FirstModule(mods: seq<ModuleEntry>, m: Memory, a: Arch, func: seq<byte>, k: int) {
    && 0 <= k < |mods|
    && ModuleHit(mods[k], Kernel32, m, a, func)
    && forall k' :: 0 <= k' < k ==> !ModuleHit(mods[k'], Kernel32, m, a, func)
  }

  /** Index `i` is the first position of `func` in the name pointer table. */
  predicate FirstName(m: Memory, base: int, dir: int, func: seq<byte>, i: int) {
    && 0 <= i < NameCount(m, dir)
    && NameHit(m, base, dir, func, i)
    && forall i' :: 0 <= i' < i ==> !NameHit(m, base, dir, func, i')
  }

  /** get_proc_address: `base + funcaddr` for the first module and the first
      name index that match, and NULL (zero) when no kernel32.dll names
      `func`. The name is read into a 1024-byte stack buffer. */
  function GetProcAddress(mods: seq<ModuleEntry>, m: Memory, a: Arch, func: seq<byte>): (addr: int)
    requires NoZero(func) && |func| + 1 <= 1024
    requires forall j :: 0 <= j < |mods| ==> '\0' !in mods[j].name
    ensures (forall k :: 0 <= k < |mods| ==> !ModuleHit(mods[k], Kernel32, m, a, func)) ==> addr == 0
    ensures (exists k :: 0 <= k < |mods| && ModuleHit(mods[k], Kernel32, m, a, func)) ==>
              exists k, i :: && FirstModule(mods, m, a, func, k)
                             && FirstName(m, mods[k].base, ExportDir(m, a, mods[k]), func, i)
    ensures forall k, i ::
              (FirstModule(mods, m, a, func, k) && FirstName(m, mods[k].base, ExportDir(m, a, mods[k]), func, i))
              ==> addr == ExportAddress(m, mods[k].base, ExportDir(m, a, mods[k]), i)
  {
    var r := FirstHit(Passes(mods, Kernel32, m, a, func), 0);
    PassesMiss(mods, m, a, func);
    PassesFind(mods, m, a, func);
    if r.None? then 0
    else
      var k := r.value.0;
      var i := r.value.1;
      FirstUnique(mods, m, a, func, k, i);
      ExportAddress(m, mods[k].base, ExportDir(m, a, mods[k]), i)
  }

  /** The module loop finds nothing exactly when no kernel32.dll of the
      snapshot names `func`. */
  lemma PassesMiss(mods: seq<ModuleEntry>, m: Memory, a: Arch, func: seq<byte>)
    requires NoZero(func)
    requires forall j :: 0 <= j < |mods| ==> '\0' !in mods[j].name
    ensures FirstHit(Passes(mods, Kernel32, m, a, func), 0).None?
            <==> forall k :: 0 <= k < |mods| ==> !ModuleHit(mods[k], Kernel32, m, a, func)
  {
    var h := Passes(mods, Kernel32, m, a, func);
    assert forall k :: 0 <= k < |mods| ==> (h[k].None? <==> !ModuleHit(mods[k], Kernel32, m, a, func));
  }

  /** The module loop's hit is the first kernel32.dll naming `func`, at the
      first position of the name. */
  lemma PassesFind(mods: seq<ModuleEntry>, m: Memory, a: Arch, func: seq<byte>)
    requires NoZero(func)
    requires forall j :: 0 <= j < |mods| ==> '\0' !in mods[j].name
    ensures var r := FirstHit(Passes(mods, Kernel32, m, a, func), 0);
            r.Some? ==> FirstModule(mods, m, a, func, r.value.0)
                        && FirstName(m, mods[r.value.0].base, ExportDir(m, a, mods[r.value.0]), func, r.value.1)
  {
    var h := Passes(mods, Kernel32, m, a, func);
    var r := FirstHit(h, 0);
    if r.Some? {
      var k := r.value.0;
      PassFinds(mods[k], m, a, func, r.value.1);
      forall k' | 0 <= k' < k
        ensures !ModuleHit(mods[k'], Kernel32, m, a, func)
      {
        PassMisses(mods[k'], m, a, func);
      }
    }
  }

  /** A pass that returns an index has found the first position of the name
      in a kernel32.dll. */
  lemma PassFinds(e: ModuleEntry, m: Memory, a: Arch, func: seq<byte>, i: int)
    requires NoZero(func) && '\0' !in e.name
    requires ScanModule(e, Kernel32, m, a, func) == Some(i)
    ensures ModuleHit(e, Kernel32, m, a, func)
    ensures FirstName(m, e.base, ExportDir(m, a, e), func, i)
  {
    assert ScanNames(m, e.base, ExportDir(m, a, e), func, 0) == Some(i);
  }

  /** A pass that returns nothing was over a module that does not name
      `func`. */
  lemma PassMisses(e: ModuleEntry, m: Memory, a: Arch, func: seq<byte>)
    requires NoZero(func) && '\0' !in e.name
    requires ScanModule(e, Kernel32, m, a, func).None?
    ensures !ModuleHit(e, Kernel32, m, a, func)
  {
  }

  /** There is only one first module and one first name position. */
  lemma FirstUnique(mods: seq<ModuleEntry>, m: Memory, a: Arch, func: seq<byte>, k: int, i: int)
    requires FirstModule(mods, m, a, func, k)
    requires FirstName(m, mods[k].base, ExportDir(m, a, mods[k]), func, i)
    ensures forall k2, i2 ::
              (FirstModule(mods, m, a, func, k2) && FirstName(m, mods[k2].base, ExportDir(m, a, mods[k2]), func, i2))
              ==> k2 == k && i2 == i
  {
  }
}
