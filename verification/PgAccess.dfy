/** sys_pgaccess of the page-table lab: report and clear the accessed bits of a range of pages. */
module PgAccess {
  import opened Types
  import opened Riscv
  import opened Phys
  import opened PhysUpdate
  import opened Kalloc
  import opened Vm
  import opened UserVm
  import opened CopyUser

  const MAX_PAGES: int := 512

  ghost predicate Accessed(s: Snap, r: nat, v: nat) {
    Lookup(s.mem, r, v).Some? && Lookup(s.mem, r, v).value.flags.a
  }

  // ---- the bitmap

  /** Bits 8j to 8j + 7 of the report, when the first n pages from v0 on have been looked at. */
  ghost function Bits(s: Snap, r: nat, v0: nat, n: nat, j: nat): (bs: seq<bool>)
    ensures |bs| == 8
  {
    seq(8, t requires 0 <= t => 8 * j + t < n && Accessed(s, r, v0 + 8 * j + t))
  }

  ghost function Report(s: Snap, r: nat, v0: nat, n: nat, j: nat): (b: byte)
  {
    NumBound(Bits(s, r, v0, n, j), 8, Pow2(8));
    Num(Bits(s, r, v0, n, j))
  }

  /** The first len bytes of the report on n pages. */
  ghost function Bitmap(s: Snap, r: nat, v0: nat, n: nat, len: nat): (b: seq<byte>)
    ensures |b| == len && forall j :: 0 <= j < len ==> b[j] == Report(s, r, v0, n, j)
  {
    seq(len, j requires 0 <= j => Report(s, r, v0, n, j))
  }

  /** Bit i of the packed bitmap is the accessed bit of page i, and the padding is 0. */
  lemma BitmapBit(s: Snap, r: nat, v0: nat, n: nat, len: nat, i: nat)
    requires i < 8 * len
    ensures Bit(Bitmap(s, r, v0, n, len)[i / 8], i % 8) <==> i < n && Accessed(s, r, v0 + i)
  {
    NumBits(Bits(s, r, v0, n, i / 8), i % 8);
    assert 8 * (i / 8) + i % 8 == i;
    assert Bitmap(s, r, v0, n, len)[i / 8] == Report(s, r, v0, n, i / 8);
  }

  /** b |= 1 << k */
  function SetBit(b: nat, k: nat): nat { if Bit(b, k) then b else b + Pow2(k) }

  lemma {:induction false} SetOne(bs: seq<bool>, k: nat)
    requires k < |bs|
    ensures SetBit(Num(bs), k) == Num(bs[k := true])
  {
    NumBits(bs, k);
    if k == 0 {
      assert bs[0 := true][1..] == bs[1..];
    } else {
      SetOne(bs[1..], k - 1);
      NumBits(bs[1..], k - 1);
      assert bs[k := true][1..] == bs[1..][k - 1 := true];
    }
  }

  /** What looking at page n does to the bytes of the report. */
  lemma ReportStep(s: Snap, r: nat, v0: nat, n: nat, j: nat)
    ensures j != n / 8 || !Accessed(s, r, v0 + n) ==> Report(s, r, v0, n + 1, j) == Report(s, r, v0, n, j)
    ensures j == n / 8 && Accessed(s, r, v0 + n) ==> Report(s, r, v0, n + 1, j) == SetBit(Report(s, r, v0, n, j), n % 8)
  {
    var bs := Bits(s, r, v0, n, j);
    if j == n / 8 && Accessed(s, r, v0 + n) {
      assert 8 * j + n % 8 == n;
      assert Bits(s, r, v0, n + 1, j) == bs[n % 8 := true];
      SetOne(bs, n % 8);
    } else {
      assert Bits(s, r, v0, n + 1, j) == bs;
    }
  }

  /** One more page for all bytes at once. */
  lemma ReportsStep(s: Snap, r: nat, v0: nat, n: nat, t: seq<byte>)
    requires n / 8 < |t| && forall j :: 0 <= j < |t| ==> t[j] == Report(s, r, v0, n, j)
    ensures Accessed(s, r, v0 + n) ==> SetBit(t[n / 8], n % 8) == Report(s, r, v0, n + 1, n / 8)
    ensures forall j :: 0 <= j < |t| && (j != n / 8 || !Accessed(s, r, v0 + n)) ==> t[j] == Report(s, r, v0, n + 1, j)
  {
    hide Report, SetBit, Accessed;
    forall j | 0 <= j < |t|
      ensures j == n / 8 && Accessed(s, r, v0 + n) ==> Report(s, r, v0, n + 1, j) == SetBit(t[j], n % 8)
      ensures j != n / 8 || !Accessed(s, r, v0 + n) ==> t[j] == Report(s, r, v0, n + 1, j)
    {
      ReportStep(s, r, v0, n, j);
    }
  }

  lemma {:induction false} NoBits(bs: seq<bool>)
    requires forall t :: 0 <= t < |bs| ==> !bs[t]
    ensures Num(bs) == 0
  {
    if bs != [] { NoBits(bs[1..]); }
  }

  lemma ReportNone(s: Snap, r: nat, v0: nat, n: nat, j: nat)
    requires forall v :: v0 <= v < v0 + n ==> !Accessed(s, r, v)
    ensures Report(s, r, v0, n, j) == 0
  {
    NoBits(Bits(s, r, v0, n, j));
  }

  // ---- clearing

  /** The accessed bits of the n pages from v0 on of tree r are cleared; every other
      flag, every translation, owner and byte is the same. */
  ghost predicate Cleared(s: Snap, s': Snap, r: nat, v0: nat, n: nat) {
    && s'.own == s.own && |s'.mem| == |s.mem| == |s.own| && s'.lo == s.lo && s'.free == s.free
    && (forall f :: 0 <= f < |s.own| && !IsTab(s.own[f], r) ==> s'.mem[f] == s.mem[f])
    && (forall r2, v :: IsRoot(s, r2) && 0 <= v < MAXVPN ==>
          if r2 == r && v0 <= v < v0 + n && Lookup(s.mem, r, v).Some? then
            Lookup(s'.mem, r, v) == Some(Unaccessed(Lookup(s.mem, r, v).value))
          else Lookup(s'.mem, r2, v) == Lookup(s.mem, r2, v))
  }

  function Unaccessed(e: Pte): Pte { e.(flags := e.flags.(a := false)) }

  lemma ClearedNone(s: Snap, r: nat, v0: nat)
    requires Inv(s)
    ensures Cleared(s, s, r, v0, 0)
  {
  }

  lemma ClearedFacts(s: Snap, s': Snap, r: nat, v0: nat, n: nat)
    requires Cleared(s, s', r, v0, n) && IsRoot(s, r) && v0 + n < MAXVPN
    ensures IsRoot(s', r) && Lookup(s'.mem, r, v0 + n) == Lookup(s.mem, r, v0 + n)
    ensures Accessed(s', r, v0 + n) <==> Accessed(s, r, v0 + n)
  {
    hide Lookup;
  }

  lemma ClearedStep(s: Snap, s1: Snap, s2: Snap, r: nat, v0: nat, n: nat)
    requires IsRoot(s, r) && Cleared(s, s1, r, v0, n) && v0 + n < MAXVPN
    requires if Accessed(s, r, v0 + n) then
               Reflagged(s1, s2, r, v0 + n, Lookup(s.mem, r, v0 + n).value.flags.(a := false))
             else s2 == s1
    ensures Cleared(s, s2, r, v0, n + 1)
  {
    hide Lookup;
    forall r2, v | IsRoot(s, r2) && 0 <= v < MAXVPN
      ensures if r2 == r && v0 <= v < v0 + n + 1 && Lookup(s.mem, r, v).Some? then
                Lookup(s2.mem, r, v) == Some(Unaccessed(Lookup(s.mem, r, v).value))
              else Lookup(s2.mem, r2, v) == Lookup(s.mem, r2, v)
    {
      assert IsRoot(s1, r2) && IsRoot(s1, r);
    }
  }

  /** The bits are gone: asking again at once reports nothing. */
  lemma SecondReport(s: Snap, s1: Snap, s2: Snap, r: nat, v0: nat, n: nat, len: nat, dst: nat, data: seq<byte>)
    requires IsRoot(s, r) && v0 + n <= MAXVPN && Cleared(s, s1, r, v0, n) && Wrote(s1, s2, r, dst, data)
    ensures Bitmap(s2, r, v0, n, len) == Repeat<byte>(0, len)
  {
    hide Lookup, UByte, Report;
    assert IsRoot(s1, r);
    forall v | v0 <= v < v0 + n ensures !Accessed(s2, r, v) {
      assert Lookup(s2.mem, r, v) == Lookup(s1.mem, r, v);
    }
    forall j | 0 <= j < len ensures Report(s2, r, v0, n, j) == 0 { ReportNone(s2, r, v0, n, j); }
  }

  /** What user code can reach is unaffected. */
  lemma ClearedBytes(s: Snap, s': Snap, r: nat, v0: nat, n: nat, r2: nat, a: nat)
    requires Inv(s) && IsRoot(s, r2) && Cleared(s, s', r, v0, n)
    ensures UByte(s'.mem, r2, a) == UByte(s.mem, r2, a) && UserPage(s'.mem, r2, a) == UserPage(s.mem, r2, a)
  {
    hide TableAt, Lookup;
    if UserPage(s.mem, r2, a) != 0 { UserPageOwned(s, r2, a); }
  }

  /** One iteration: look at page v, and if its accessed bit is set, clear it. */
  method TestAndClear(k: Kmem, pagetable: nat, addr: uint64) returns (was: bool)
    requires Inv(k.G()) && IsRoot(k.G(), pagetable) && addr < MAXVA
    modifies k, k.mem
    ensures Inv(k.G())
    ensures was <==> Accessed(old(k.G()), pagetable, addr / PGSIZE)
    ensures !was ==> k.G() == old(k.G())
    ensures was ==>
              Reflagged(old(k.G()), k.G(), pagetable, addr / PGSIZE,
                        Lookup(old(k.mem[..]), pagetable, addr / PGSIZE).value.flags.(a := false))
  {
    hide Inv, Reflagged, TableAt;
    ghost var s, v := k.G(), addr / PGSIZE;
    var pte := Walk(k, pagetable, addr, false);
    if pte == Null { return false; }
    TableAtOwner(s, pagetable, v, 0);
    TablePage(s, pte.t);
    EntryClear(s, pagetable, v, pte.t, pte.i);
    var e := k.mem[pte.t].ptes[pte.i];
    if !e.flags.a { return false; }
    LeafAt(s, pagetable, v);
    ReflagOne(s, pagetable, v, pte.t, pte.i, e.flags.(a := false));
    k.mem[pte.t] := Table(k.mem[pte.t].ptes[pte.i := e.(flags := e.flags.(a := false))]);
    assert k.G() == WithEntry(s, pte.t, pte.i, e.(flags := e.flags.(a := false)));
    return true;
  }

  /** An entry that is not valid is 0, so it is not marked accessed. */
  lemma EntryClear(s: Snap, r: nat, v: nat, t: nat, i: nat)
    requires Inv(s) && IsRoot(s, r) && v < MAXVPN && TableAt(s.mem, r, v, 0) == Some(t) && i == Idx(0, v)
    ensures Entry(s.mem, t, i).flags.a ==> Lookup(s.mem, r, v) == Some(Entry(s.mem, t, i))
    ensures Lookup(s.mem, r, v).Some? ==> Lookup(s.mem, r, v).value == Entry(s.mem, t, i)
  {
    TableAtOwner(s, r, v, 0);
    assert FrameOk(s, t) && EntryOk(s, t, r, 0, s.own[t].prefix, i);
  }

  /** The scan delivers the packed accessed bits of the first min(num_pages, 512) pages
      and clears exactly them, also when the copy to the user's buffer then fails. */
  method SysPgaccess(k: Kmem, pagetable: nat, startAddr: uint64, numPages: nat, bitmap: uint64)
    returns (r: int, ghost mid: Snap, ghost done: nat)
    requires Inv(k.G()) && IsRoot(k.G(), pagetable)
    // panic("walk")
    requires numPages > 0 ==> startAddr + ((if numPages > MAX_PAGES then MAX_PAGES else numPages) - 1) * PGSIZE < MAXVA
    modifies k, k.mem
    ensures var n := if numPages > MAX_PAGES then MAX_PAGES else numPages; var v0 := startAddr / PGSIZE;
            var report := Bitmap(old(k.G()), pagetable, v0, n, Pages8(n));
            && Inv(k.G()) && Cleared(old(k.G()), mid, pagetable, v0, n)
            && done <= |report| && Wrote(mid, k.G(), pagetable, bitmap, report[..done])
            && r == (if done == |report| then 0 else -1)
            && (done < |report| ==> UByte(old(k.mem[..]), pagetable, bitmap + done) == None)
    ensures r == 0 ==> forall i :: 0 <= i < numPages && i < 512 ==>
              Reported(old(k.mem[..]), k.mem[..], pagetable, startAddr, bitmap, i)
    ensures forall i :: 0 <= i < numPages && i < 512 ==> Unmarked(k.mem[..], pagetable, startAddr, i)
    ensures forall a: nat :: a < bitmap || a >= bitmap + ((if numPages < 512 then numPages else 512) + 7) / 8 ==>
              UByte(k.mem[..], pagetable, a) == UByte(old(k.mem[..]), pagetable, a)
  {
    hide Inv, Reflagged, Accessed, Cleared, Report, Wrote, UByte, SetBit, Reported, Unmarked, Lookup, TableAt;
    var n := if numPages > MAX_PAGES then MAX_PAGES else numPages;
    var temp := new byte[64](i => 0);
    ghost var s0, v0 := k.G(), startAddr / PGSIZE;
    ClearedNone(s0, pagetable, v0);
    forall j | 0 <= j < 64 ensures Report(s0, pagetable, v0, 0, j) == 0 { ReportNone(s0, pagetable, v0, 0, j); }
    var i := 0;
    while i < n
      invariant 0 <= i <= n && Inv(k.G()) && IsRoot(k.G(), pagetable) && Cleared(s0, k.G(), pagetable, v0, i)
      invariant forall j :: 0 <= j < 64 ==> temp[..][j] == Report(s0, pagetable, v0, i, j)
    {
      ghost var s1 := k.G();
      PageOf(startAddr, i);
      ClearedFacts(s0, s1, pagetable, v0, i);
      var was := TestAndClear(k, pagetable, startAddr + i * PGSIZE);
      ReportsStep(s0, pagetable, v0, i, temp[..]);
      if was { temp[i / 8] := SetBit(temp[i / 8], i % 8); }
      ClearedStep(s0, s1, k.G(), pagetable, v0, i);
      ClearedRoot(s0, k.G(), pagetable, v0, i + 1);
      i := i + 1;
    }
    mid := k.G();
    var len := n / 8 + if n % 8 != 0 then 1 else 0;
    assert temp[..len] == Bitmap(s0, pagetable, v0, n, len);
    r, done := Copyout(k, pagetable, bitmap, temp[..len]);
    ClearedBytes(s0, mid, pagetable, v0, n, pagetable, bitmap + done);
    PageOf(startAddr, n - 1);
    ReportSeen(s0, mid, k.G(), pagetable, startAddr, n, bitmap, temp[..len], done);
  }

  /** Whether page i of the range was accessed, as memory m0 has it, is in memory m the
      bit i % 8 of the user's byte at bitmap + i / 8. */
  ghost predicate Reported(m0: seq<Frame>, m: seq<Frame>, r: nat, startAddr: nat, bitmap: nat, i: nat) {
    var e, b := Lookup(m0, r, startAddr / 4096 + i), UByte(m, r, bitmap + i / 8);
    b.Some? && (Bit(b.value, i % 8) <==> e.Some? && e.value.flags.a)
  }

  /** Page i of the range is not marked accessed. */
  ghost predicate Unmarked(m: seq<Frame>, r: nat, startAddr: nat, i: nat) {
    var e := Lookup(m, r, startAddr / 4096 + i);
    e.None? || !e.value.flags.a
  }

  /** What user code finds after the copy. */
  lemma ReportSeen(s: Snap, s1: Snap, s2: Snap, r: nat, startAddr: nat, n: nat, bitmap: nat, data: seq<byte>, done: nat)
    requires Inv(s) && IsRoot(s, r) && (n == 0 || startAddr / 4096 + n <= MAXVPN)
             && Cleared(s, s1, r, startAddr / 4096, n)
    requires done <= |data| && data == Bitmap(s, r, startAddr / 4096, n, (n + 7) / 8)
    requires Wrote(s1, s2, r, bitmap, data[..done])
    ensures done == |data| ==> forall i :: 0 <= i < n ==> Reported(s.mem, s2.mem, r, startAddr, bitmap, i)
    ensures forall i :: 0 <= i < n ==> Unmarked(s2.mem, r, startAddr, i)
    ensures forall a: nat :: a < bitmap || a >= bitmap + (n + 7) / 8 ==> UByte(s2.mem, r, a) == UByte(s.mem, r, a)
  {
    hide Inv, UByte, Report, Bit, Lookup;
    var v0 := startAddr / 4096;
    forall i | 0 <= i < n ensures done == |data| ==> Reported(s.mem, s2.mem, r, startAddr, bitmap, i) {
      BitmapBit(s, r, v0, n, (n + 7) / 8, i);
      assert bitmap <= bitmap + i / 8 < bitmap + |data|;
    }
    forall a: nat | a < bitmap || a >= bitmap + (n + 7) / 8 ensures UByte(s2.mem, r, a) == UByte(s.mem, r, a) {
      ClearedBytes(s, s1, r, v0, n, r, a);
    }
    forall i | 0 <= i < n ensures Unmarked(s2.mem, r, startAddr, i) { assert IsRoot(s1, r); }
  }

  /** Bytes that n bits take. */
  function Pages8(n: nat): nat { n / 8 + if n % 8 != 0 then 1 else 0 }

  lemma PageOf(a: nat, i: int)
    ensures (a + i * PGSIZE) / PGSIZE == a / PGSIZE + i
  {
  }

  lemma ClearedRoot(s: Snap, s': Snap, r: nat, v0: nat, n: nat)
    requires Cleared(s, s', r, v0, n) && IsRoot(s, r)
    ensures IsRoot(s', r)
  {
  }
}
