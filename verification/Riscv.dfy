/** The constants and macros of riscv.h.  A right shift by n is a division by
    2^n and a mask by 2^n - 1 a remainder, as for C's unsigned operands. */
module Riscv {
  const PGSIZE: int := 4096
  const MAXVA: int := 0x40_0000_0000  // 1 << (9 + 9 + 9 + 12 - 1)
  const MAXVPN: int := 0x400_0000     // MAXVA / PGSIZE

  /** First page number above the 255 lower parts of the address space; the three pages at
      the top have page-table pages of their own. */
  const LOWVPN: int := 255 * 262144

  // memlayout.h is not part of this model: the three pages at the top of a user address space
  const TRAMPOLINE: int := MAXVA - PGSIZE
  const TRAPFRAME: int := TRAMPOLINE - PGSIZE
  const USYSCALL: int := TRAPFRAME - PGSIZE

  function PgRoundUp(sz: nat): (r: nat)
    ensures r % PGSIZE == 0 && sz <= r < sz + PGSIZE
  {
    (sz + PGSIZE - 1) / PGSIZE * PGSIZE
  }

  function PgRoundDown(a: nat): (r: nat)
    ensures r % PGSIZE == 0 && r <= a < r + PGSIZE
  {
    a / PGSIZE * PGSIZE
  }

  /** Number of pages that hold the first sz bytes. */
  function Pages(sz: nat): nat { (sz + PGSIZE - 1) / PGSIZE }

  // 1 << PXSHIFT(level)
  function PxUnit(level: nat): nat
    requires level <= 2
  {
    if level == 0 then 0x1000 else if level == 1 then 0x20_0000 else 0x4000_0000
  }

  function Px(level: nat, va: nat): nat
    requires level <= 2
  {
    va / PxUnit(level) % 512
  }

  /** The same index, taken from the page number. */
  function Idx(level: nat, vpn: nat): (i: nat)
    requires level <= 2
    ensures i < 512
  {
    (if level == 0 then vpn else if level == 1 then vpn / 512 else vpn / 262144) % 512
  }

  /** The page-number bits above level `level`: what all addresses under one
      page-table page of that level share. */
  function Prefix(level: nat, vpn: nat): nat
    requires level <= 2
  {
    if level == 0 then vpn / 512 else if level == 1 then vpn / 262144 else vpn / 134217728
  }

  lemma PxIsIdx(level: nat, va: nat)
    requires level <= 2
    ensures Px(level, va) == Idx(level, va / PGSIZE)
  {
    assert va / 0x20_0000 == va / 4096 / 512;
    assert va / 0x4000_0000 == va / 4096 / 262144;
  }

  /** The three indices and the offset are the address, and the top index uses half the root. */
  lemma AddressParts(va: nat)
    requires va < MAXVA
    ensures va == Px(2, va) * 0x4000_0000 + Px(1, va) * 0x20_0000 + Px(0, va) * 0x1000 + va % PGSIZE
    ensures Px(2, va) < 256
  {
    var v := va / PGSIZE;
    PxIsIdx(0, va);
    PxIsIdx(1, va);
    PxIsIdx(2, va);
    assert v == v / 512 * 512 + v % 512;
    assert v / 512 == v / 262144 * 512 + v / 512 % 512 by { assert v / 512 / 512 == v / 262144; }
  }

  lemma PrefixStep(level: nat, vpn: nat)
    requires level <= 2
    ensures Prefix(level, vpn) * 512 + Idx(level, vpn) == if level == 0 then vpn else Prefix(level - 1, vpn)
  {
  }

  /** The flag bits of a page-table entry, from bit 0 (PTE_V) to the two software bits 8 and 9. */
  datatype Flags = Flags(v: bool, r: bool, w: bool, x: bool, u: bool, g: bool, a: bool, d: bool, s0: bool, s1: bool)

  datatype Pte = Pte(ppn: nat, flags: Flags)

  const NOFLAGS := Flags(false, false, false, false, false, false, false, false, false, false)
  const ZEROPTE := Pte(0, NOFLAGS)

  /** PA2PTE(pa) | PTE_V, the entry for a page-table page. */
  function Pointer(ppn: nat): Pte { Pte(ppn, NOFLAGS.(v := true)) }

  // ---- page-table entries as 64-bit words

  function Pa2Pte(pa: nat): nat { pa / 4096 * 1024 }
  function Pte2Pa(w: nat): nat { w / 1024 * 4096 }
  function PteFlags(w: nat): nat { w % 1024 }

  /** Bit k of a word, found by shifting right one place k times. */
  function Bit(w: nat, k: nat): bool {
    if k == 0 then w % 2 == 1 else Bit(w / 2, k - 1)
  }

  function BitList(f: Flags): seq<bool> { [f.v, f.r, f.w, f.x, f.u, f.g, f.a, f.d, f.s0, f.s1] }

  /** The number whose bits, lowest first, are bs. */
  function Num(bs: seq<bool>): nat {
    if bs == [] then 0 else 2 * Num(bs[1..]) + if bs[0] then 1 else 0
  }

  function Word(p: Pte): nat { Pa2Pte(p.ppn * PGSIZE) + Num(BitList(p.flags)) }

  lemma {:induction false} NumBits(bs: seq<bool>, k: nat)
    requires k < |bs|
    ensures Bit(Num(bs), k) == bs[k]
  {
    if k > 0 {
      NumBits(bs[1..], k - 1);
    }
  }

  /** The structured entry and the 64-bit word carry the same information: the
      macros read back exactly what was packed, and a 44-bit page number fits in 54 bits. */
  lemma WordRoundTrip(p: Pte)
    ensures Pte2Pa(Word(p)) == p.ppn * 4096 && Word(p) / 1024 == p.ppn && PteFlags(Word(p)) == Word(p) % 1024
    ensures PteFlags(Word(p)) == Num(BitList(p.flags))
    ensures forall k: nat :: k < 10 ==> Bit(PteFlags(Word(p)), k) == BitList(p.flags)[k]
    ensures p.ppn < 0x1000_0000_0000 ==> Word(p) < 0x40_0000_0000_0000
  {
    NumBound(BitList(p.flags), 10, 1024);
    assert Word(p) == p.ppn * 1024 + Num(BitList(p.flags));
    forall k: nat | k < 10 ensures Bit(Num(BitList(p.flags)), k) == BitList(p.flags)[k] {
      NumBits(BitList(p.flags), k);
    }
  }

  /** Each flag is the bit of the word whose position riscv.h or, for the flags that it does not
      name, the privileged architecture gives it: V is bit 0, R 1, W 2, X 3, U 4, G 5, A 6, D 7. */
  lemma FlagPositions(p: Pte)
    ensures var w, f := PteFlags(Word(p)), p.flags;
            && (w % 2 == 1 <==> f.v) && (w / 2 % 2 == 1 <==> f.r) && (w / 4 % 2 == 1 <==> f.w)
            && (w / 8 % 2 == 1 <==> f.x) && (w / 16 % 2 == 1 <==> f.u) && (w / 32 % 2 == 1 <==> f.g)
            && (w / 64 % 2 == 1 <==> f.a) && (w / 128 % 2 == 1 <==> f.d)
            && (w / 256 % 2 == 1 <==> f.s0) && (w / 512 % 2 == 1 <==> f.s1)
  {
    hide Num, Bit, BitList, Word, Pow2, PteFlags, Pte2Pa;
    WordRoundTrip(p);
    FlagDigits(p.flags);
  }

  /** The flags are the binary digits of their number. */
  lemma FlagDigits(f: Flags)
    ensures var n := Num(BitList(f));
            && (n % 2 == 1 <==> f.v) && (n / 2 % 2 == 1 <==> f.r) && (n / 4 % 2 == 1 <==> f.w)
            && (n / 8 % 2 == 1 <==> f.x) && (n / 16 % 2 == 1 <==> f.u) && (n / 32 % 2 == 1 <==> f.g)
            && (n / 64 % 2 == 1 <==> f.a) && (n / 128 % 2 == 1 <==> f.d)
            && (n / 256 % 2 == 1 <==> f.s0) && (n / 512 % 2 == 1 <==> f.s1)
  {
    var bs := BitList(f);
    forall k: nat | k < 10 ensures Halved(Num(bs), k) % 2 == 1 <==> bs[k] { HalvedNum(bs, k); }
    assert bs == [f.v, f.r, f.w, f.x, f.u, f.g, f.a, f.d, f.s0, f.s1];
    hide Num, Halved, BitList;
    Halves(Num(bs));
  }

  /** n >> k */
  function Halved(n: nat, k: nat): nat { if k == 0 then n else Halved(n, k - 1) / 2 }

  lemma {:induction false} HalvedNum(bs: seq<bool>, k: nat)
    requires k < |bs|
    ensures Halved(Num(bs), k) == Num(bs[k..])
    ensures Halved(Num(bs), k) % 2 == 1 <==> bs[k]
  {
    if k == 0 {
      assert bs[0..] == bs;
    } else {
      HalvedNum(bs, k - 1);
      assert bs[k - 1..][1..] == bs[k..];
    }
  }

  lemma Halves(n: nat)
    ensures Halved(n, 0) == n && Halved(n, 1) == n / 2 && Halved(n, 2) == n / 4 && Halved(n, 3) == n / 8
    ensures Halved(n, 4) == n / 16 && Halved(n, 5) == n / 32 && Halved(n, 6) == n / 64 && Halved(n, 7) == n / 128
    ensures Halved(n, 8) == n / 256 && Halved(n, 9) == n / 512
  {
    assert Halved(n, 2) == Halved(n, 1) / 2 && Halved(n, 3) == Halved(n, 2) / 2 && Halved(n, 4) == Halved(n, 3) / 2;
    assert Halved(n, 5) == Halved(n, 4) / 2 && Halved(n, 6) == Halved(n, 5) / 2 && Halved(n, 7) == Halved(n, 6) / 2;
    assert Halved(n, 8) == Halved(n, 7) / 2 && Halved(n, 9) == Halved(n, 8) / 2;
  }

  lemma {:induction false} NumBound(bs: seq<bool>, n: nat, bound: nat)
    requires |bs| == n && bound == Pow2(n)
    ensures Num(bs) < bound
  {
    if n > 0 {
      NumBound(bs[1..], n - 1, Pow2(n - 1));
    }
  }

  function Pow2(n: nat): (r: nat)
    ensures r > 0
  {
    if n == 0 then 1 else 2 * Pow2(n - 1)
  }
}
