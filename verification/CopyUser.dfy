/** copyout, copyin and copyinstr of vm.c.  They work page by page; their contracts
    are about single bytes at single user addresses. */
module CopyUser {
  import opened Types
  import opened Riscv
  import opened Phys
  import opened PhysUpdate
  import opened Kalloc
  import opened Vm
  import opened UserVm

  /** The byte that user code running on tree r sees at address a, if it may access it. */
  function UByte(m: seq<Frame>, r: nat, a: nat): Option<byte> {
    var c := UserPage(m, r, a);
    if c != 0 && c < |m| && m[c].Page? && a % PGSIZE < |m[c].bytes| then Some(m[c].bytes[a % PGSIZE]) else None
  }

  lemma UByteSome(s: Snap, r: nat, a: nat)
    requires Inv(s) && IsRoot(s, r)
    ensures UByte(s.mem, r, a).Some? <==> UserPage(s.mem, r, a) != 0
  {
    if UserPage(s.mem, r, a) != 0 { UserPageOwned(s, r, a); }
  }

  /** Accessibility is a property of the page. */
  lemma SamePage(m: seq<Frame>, r: nat, a: nat, b: nat)
    requires a / PGSIZE == b / PGSIZE
    ensures UserPage(m, r, a) == UserPage(m, r, b)
  {
  }

  /** Maps, owners and every frame but the user pages of tree r are the same. */
  ghost predicate SameButPages(s: Snap, s': Snap, r: nat) {
    && s'.own == s.own && s'.free == s.free && s'.head == s.head && s'.lo == s.lo && |s'.mem| == |s.mem| == |s.own|
    && SameMaps(s, s')
    && (forall f :: 0 <= f < |s.own| && !(s.own[f].User? && s.own[f].space == r) ==> s'.mem[f] == s.mem[f])
  }

  /** From s to s' exactly the bytes at user addresses dst, dst + 1, ... of tree r
      became data; maps, owners and everybody else's memory are the same. */
  ghost predicate Wrote(s: Snap, s': Snap, r: nat, dst: nat, data: seq<byte>) {
    && SameButPages(s, s', r)
    && (forall a: nat :: UByte(s'.mem, r, a) ==
          if dst <= a < dst + |data| then Some(data[a - dst]) else UByte(s.mem, r, a))
  }

  function Patched(b: seq<byte>, o: nat, chunk: seq<byte>): (p: seq<byte>)
    requires o + |chunk| <= |b|
    ensures |p| == |b|
    ensures forall j :: 0 <= j < |b| ==> p[j] == if o <= j < o + |chunk| then chunk[j - o] else b[j]
  {
    b[..o] + chunk + b[o + |chunk|..]
  }

  lemma WriteStep(s: Snap, r: nat, va: nat, chunk: seq<byte>)
    requires Inv(s) && IsRoot(s, r) && UserPage(s.mem, r, va) != 0 && va % PGSIZE + |chunk| <= PGSIZE
    ensures var c := UserPage(s.mem, r, va);
            && c < |s.mem| && IsPage(s.mem[c])
            && var s' := WithFrame(s, c, Page(Patched(s.mem[c].bytes, va % PGSIZE, chunk)));
               Inv(s') && Wrote(s, s', r, va, chunk)
  {
    var c := UserPage(s.mem, r, va);
    UserPageOwned(s, r, va);
    var x := Page(Patched(s.mem[c].bytes, va % PGSIZE, chunk));
    WriteKeeps(s, c, x);
    var s' := WithFrame(s, c, x);
    forall a: nat
      ensures UByte(s'.mem, r, a) == if va <= a < va + |chunk| then Some(chunk[a - va]) else UByte(s.mem, r, a)
    {
      ByteAfter(s, s', r, va, chunk, c, a);
    }
  }

  lemma ByteAfter(s: Snap, s': Snap, r: nat, va: nat, chunk: seq<byte>, c: nat, a: nat)
    requires Inv(s) && IsRoot(s, r) && c == UserPage(s.mem, r, va) != 0 && va % PGSIZE + |chunk| <= PGSIZE
    requires c < |s.mem| && IsPage(s.mem[c]) && SameMaps(s, s')
    requires s' == WithFrame(s, c, Page(Patched(s.mem[c].bytes, va % PGSIZE, chunk)))
    ensures UByte(s'.mem, r, a) == if va <= a < va + |chunk| then Some(chunk[a - va]) else UByte(s.mem, r, a)
  {
    UserPageOwned(s, r, va);
    assert UserPage(s'.mem, r, a) == UserPage(s.mem, r, a);
    if UserPage(s.mem, r, a) != 0 { UserPageOwned(s, r, a); }
    hide Inv, Lookup, TableAt, SameMaps;
    if a / PGSIZE == va / PGSIZE {
      SamePage(s.mem, r, a, va);
      assert a - va == a % PGSIZE - va % PGSIZE;
    } else {
      assert UserPage(s.mem, r, a) != c;
      assert !(va <= a < va + |chunk|);
    }
  }

  lemma WroteNone(s: Snap, r: nat, dst: nat)
    requires Inv(s)
    ensures Wrote(s, s, r, dst, [])
  {
  }

  lemma WroteTrans(s: Snap, s1: Snap, s2: Snap, r: nat, dst: nat, d1: seq<byte>, d2: seq<byte>)
    requires Wrote(s, s1, r, dst, d1) && Wrote(s1, s2, r, dst + |d1|, d2)
    ensures Wrote(s, s2, r, dst, d1 + d2)
  {
    hide UByte, Lookup;
    forall r2, v | IsRoot(s, r2) && 0 <= v < MAXVPN ensures Lookup(s2.mem, r2, v) == Lookup(s.mem, r2, v) {
      assert IsRoot(s1, r2);
    }
  }

  /** A whole-page question answers for the bytes of a chunk. */
  lemma ChunkSome(s: Snap, r: nat, va: nat, n: nat)
    requires Inv(s) && IsRoot(s, r) && UserPage(s.mem, r, va) != 0 && va % PGSIZE + n <= PGSIZE
    ensures UserPage(s.mem, r, va) < |s.mem| && IsPage(s.mem[UserPage(s.mem, r, va)])
    ensures forall a :: va <= a < va + n ==>
              UByte(s.mem, r, a) == Some(s.mem[UserPage(s.mem, r, va)].bytes[va % PGSIZE + (a - va)])
  {
    UserPageOwned(s, r, va);
    forall a | va <= a < va + n
      ensures UByte(s.mem, r, a) == Some(s.mem[UserPage(s.mem, r, va)].bytes[va % PGSIZE + (a - va)])
    {
      assert a / PGSIZE == va / PGSIZE && a % PGSIZE == va % PGSIZE + (a - va);
      SamePage(s.mem, r, a, va);
    }
  }

  // ---- copyout

  /** done bytes of src were written, all of them exactly when every address was
      accessible; otherwise the first inaccessible address stopped it. */
  method Copyout(k: Kmem, pagetable: nat, dst: uint64, src: seq<byte>) returns (r: int, ghost done: nat)
    requires Inv(k.G()) && IsRoot(k.G(), pagetable) && |src| < 0x1_0000_0000_0000_0000
    modifies k, k.mem
    ensures Inv(k.G()) && done <= |src|
    ensures Wrote(old(k.G()), k.G(), pagetable, dst, src[..done])
    ensures r == if done == |src| then 0 else -1
    ensures done < |src| ==> UByte(old(k.mem[..]), pagetable, dst + done) == None
    ensures forall a :: dst <= a < dst + done ==> UByte(old(k.mem[..]), pagetable, a).Some?
  {
    hide Inv, Wrote, UByte, UserPage;
    var dstva: uint64, len: uint64, off := dst, |src|, 0;
    done := 0;
    ghost var s0 := k.G();
    WroteNone(s0, pagetable, dst);
    assert src[..0] == [];
    while len > 0
      invariant done == off == |src| - len && (len > 0 ==> dstva == dst + off)
      invariant Inv(k.G()) && IsRoot(k.G(), pagetable) && Wrote(s0, k.G(), pagetable, dst, src[..off])
      invariant forall a :: dst <= a < dst + off ==> UByte(s0.mem, pagetable, a).Some?
    {
      ghost var s1 := k.G();
      var va0: uint64 := PgRoundDown(dstva);
      var pa0 := Walkaddr(k, pagetable, va0);
      SamePage(s1.mem, pagetable, va0, dstva);
      UByteSome(s1, pagetable, dstva);
      Before(s0, s1, pagetable, dst, src[..off], dstva);
      if pa0 == 0 { return -1, done; }
      var n := PGSIZE - (dstva - va0);
      if n > len { n := len; }
      ghost var chunk := src[off..off + n];
      WriteStep(s1, pagetable, dstva, chunk);
      ChunkSome(s1, pagetable, dstva, n);
      AllBefore(s0, s1, pagetable, dst, src[..off], n);
      k.mem[pa0] := Page(Patched(k.mem[pa0].bytes, dstva - va0, src[off..off + n]));
      assert k.G() == WithFrame(s1, pa0, Page(Patched(s1.mem[pa0].bytes, dstva % PGSIZE, chunk)));
      WroteTrans(s0, s1, k.G(), pagetable, dst, src[..off], chunk);
      assert src[..off + n] == src[..off] + chunk;
      WroteRoot(s1, k.G(), pagetable, dstva, chunk);
      BelowTop(s1, pagetable, dstva);
      len := len - n;
      off := off + n;
      done := done + n;
      dstva := va0 + PGSIZE;
    }
    assert src[..off] == src;
    return 0, done;
  }

  lemma WroteRoot(s: Snap, s': Snap, r: nat, dst: nat, data: seq<byte>)
    requires Wrote(s, s', r, dst, data) && IsRoot(s, r)
    ensures IsRoot(s', r)
  {
  }

  lemma BelowTop(s: Snap, r: nat, a: nat)
    requires UserPage(s.mem, r, a) != 0
    ensures a < MAXVA
  {
  }

  /** What is not written yet is as it was. */
  lemma Before(s: Snap, s1: Snap, r: nat, dst: nat, data: seq<byte>, a: nat)
    requires Wrote(s, s1, r, dst, data) && a >= dst + |data|
    ensures UByte(s1.mem, r, a) == UByte(s.mem, r, a)
  {
  }

  lemma AllBefore(s: Snap, s1: Snap, r: nat, dst: nat, data: seq<byte>, n: nat)
    requires Wrote(s, s1, r, dst, data)
    requires forall a :: dst + |data| <= a < dst + |data| + n ==> UByte(s1.mem, r, a).Some?
    ensures forall a :: dst + |data| <= a < dst + |data| + n ==> UByte(s.mem, r, a).Some?
  {
    hide UByte;
  }

  // ---- copyin

  /** The first done bytes of dst hold the bytes at user addresses src, src + 1, ...;
      all len of them exactly when every address is accessible. */
  method Copyin(k: Kmem, pagetable: nat, dst: array<byte>, src: uint64, length: uint64)
    returns (r: int, ghost done: nat)
    requires Inv(k.G()) && IsRoot(k.G(), pagetable) && length <= dst.Length
    modifies k, k.mem, dst
    ensures k.G() == old(k.G()) && done <= length
    ensures forall a :: src <= a < src + done ==> UByte(k.mem[..], pagetable, a) == Some(dst[a - src])
    ensures (forall j :: done <= j < dst.Length ==> dst[j] == old(dst[j]))
    ensures r == if done == length then 0 else -1
    ensures done < length ==> UByte(k.mem[..], pagetable, src + done) == None
  {
    hide Inv, UByte, UserPage;
    var srcva: uint64, len: uint64, off := src, length, 0;
    done := 0;
    ghost var s := k.G();
    while len > 0
      invariant done == off == length - len && (len > 0 ==> srcva == src + off)
      invariant k.G() == s
      invariant forall a :: src <= a < src + off ==> UByte(s.mem, pagetable, a) == Some(dst[a - src])
      invariant (forall j :: off <= j < dst.Length ==> dst[j] == old(dst[j]))
    {
      var va0: uint64 := PgRoundDown(srcva);
      var pa0 := Walkaddr(k, pagetable, va0);
      SamePage(s.mem, pagetable, va0, srcva);
      UByteSome(s, pagetable, srcva);
      if pa0 == 0 { return -1, done; }
      var n := PGSIZE - (srcva - va0);
      if n > len { n := len; }
      ChunkSome(s, pagetable, srcva, n);
      var from := srcva - va0;
      forall j | 0 <= j < n { dst[off + j] := k.mem[pa0].bytes[from + j]; }
      assert k.G() == s;
      forall a | src + off <= a < src + off + n ensures UByte(s.mem, pagetable, a) == Some(dst[a - src]) {
        assert dst[off + (a - src - off)] == s.mem[pa0].bytes[from + (a - src - off)];
      }
      BelowTop(s, pagetable, srcva);
      len := len - n;
      off := off + n;
      done := done + n;
      srcva := va0 + PGSIZE;
    }
    return 0, done;
  }

  /** copyout and then copyin of the same range, by their contracts: what comes back is
      what was sent. */
  lemma OutThenIn(s: Snap, s': Snap, r: nat, a: nat, sent: seq<byte>, got: seq<byte>, done: nat)
    requires Wrote(s, s', r, a, sent)
    requires |got| == |sent| && done <= |got| && (done < |got| ==> UByte(s'.mem, r, a + done) == None)
    requires forall b :: a <= b < a + done ==> UByte(s'.mem, r, b) == Some(got[b - a])
    ensures got == sent
  {
    hide UByte, SameButPages;
    forall i | 0 <= i < |sent| ensures got[i] == sent[i] {
      assert UByte(s'.mem, r, a + i) == Some(sent[i]);
    }
  }

  // ---- copyinstr

  /** The user string at va has its NUL at offset p. */
  ghost predicate NulAt(m: seq<Frame>, r: nat, va: nat, p: nat) {
    && UByte(m, r, va + p) == Some(0)
    && forall a :: va <= a < va + p ==> UByte(m, r, a).Some? && UByte(m, r, a).value != 0
  }

  /** Succeeds exactly when a NUL occurs within the first max bytes, all of them
      before it accessible: what lies after the NUL is never looked at.  Then dst
      holds the string and its NUL. */
  method Copyinstr(k: Kmem, pagetable: nat, dst: array<byte>, src: uint64, maxlen: uint64)
    returns (r: int, ghost got: nat)
    requires Inv(k.G()) && IsRoot(k.G(), pagetable) && maxlen <= dst.Length
    modifies k, k.mem, dst
    ensures k.G() == old(k.G()) && (r == 0 || r == -1) && got <= maxlen
    ensures forall a :: src <= a < src + got ==>
              UByte(k.mem[..], pagetable, a) == Some(dst[a - src]) && UByte(k.mem[..], pagetable, a) != Some(0)
    ensures r == 0 <==> exists p :: 0 <= p < maxlen && NulAt(k.mem[..], pagetable, src, p)
    ensures r == 0 ==> got < maxlen && dst[got] == 0 && NulAt(k.mem[..], pagetable, src, got)
    ensures r == 0 ==> (forall j :: got + 1 <= j < dst.Length ==> dst[j] == old(dst[j]))
    ensures r == -1 ==> (forall j :: got <= j < dst.Length ==> dst[j] == old(dst[j]))
    ensures r == -1 ==> got == maxlen || UByte(k.mem[..], pagetable, src + got) == None
  {
    hide Inv, UByte, UserPage;
    var srcva: uint64, max: uint64, off := src, maxlen, 0;
    var gotNull := false;
    got := 0;
    ghost var s := k.G();
    while !gotNull && max > 0
      invariant got == off == maxlen - max && k.G() == s
      invariant !gotNull && max > 0 ==> srcva == src + off
      invariant forall a :: src <= a < src + off ==>
                  UByte(s.mem, pagetable, a) == Some(dst[a - src]) && UByte(s.mem, pagetable, a) != Some(0)
      invariant gotNull ==> off < maxlen && dst[off] == 0 && UByte(s.mem, pagetable, src + off) == Some(0)
      invariant gotNull ==> (forall j :: off + 1 <= j < dst.Length ==> dst[j] == old(dst[j]))
      invariant !gotNull ==> (forall j :: off <= j < dst.Length ==> dst[j] == old(dst[j]))
      decreases !gotNull, max
    {
      var va0: uint64 := PgRoundDown(srcva);
      var pa0 := Walkaddr(k, pagetable, va0);
      SamePage(s.mem, pagetable, va0, srcva);
      UByteSome(s, pagetable, srcva);
      if pa0 == 0 {
        NoNul(s.mem, pagetable, src, off, maxlen);
        return -1, got;
      }
      var n := PGSIZE - (srcva - va0);
      if n > max { n := max; }
      ChunkSome(s, pagetable, srcva, n);
      BelowTop(s, pagetable, srcva);
      var p := srcva - va0;
      ghost var start, n0 := off, n;
      while n > 0
        invariant 0 <= n <= n0 && got == off == start + (n0 - n) == maxlen - max && p == srcva - va0 + (n0 - n)
        invariant k.G() == s && !gotNull
        invariant forall a :: src <= a < src + off ==>
                    UByte(s.mem, pagetable, a) == Some(dst[a - src]) && UByte(s.mem, pagetable, a) != Some(0)
        invariant (forall j :: off <= j < dst.Length ==> dst[j] == old(dst[j]))
      {
        assert UByte(s.mem, pagetable, src + off) == Some(s.mem[pa0].bytes[p]);
        if k.mem[pa0].bytes[p] == 0 {
          dst[off] := 0;
          gotNull := true;
          break;
        } else {
          dst[off] := k.mem[pa0].bytes[p];
        }
        n := n - 1;
        max := max - 1;
        p := p + 1;
        off := off + 1;
        got := got + 1;
      }
      srcva := va0 + PGSIZE;
    }
    if gotNull {
      assert NulAt(s.mem, pagetable, src, got);
      return 0, got;
    } else {
      NoNul(s.mem, pagetable, src, off, maxlen);
      return -1, got;
    }
  }

  lemma NoNul(m: seq<Frame>, r: nat, va: nat, got: nat, maxlen: nat)
    requires forall a :: va <= a < va + got ==> UByte(m, r, a).Some? && UByte(m, r, a).value != 0
    requires got >= maxlen || UByte(m, r, va + got) == None
    ensures !exists p :: 0 <= p < maxlen && NulAt(m, r, va, p)
  {
    hide UByte;
    forall p | 0 <= p < maxlen ensures !NulAt(m, r, va, p) {
      assert p < got ==> UByte(m, r, va + p).value != 0;
      assert p > got ==> !(0 <= got < p && UByte(m, r, va + got).Some?);
    }
  }

  // ---- numbers in user memory

  /** The n bytes of the little-endian number x. */
  function Le(x: nat, n: nat): (b: seq<byte>)
    ensures |b| == n
  {
    if n == 0 then [] else [x % 256] + Le(x / 256, n - 1)
  }

  /** The number that the n bytes at user address a hold, lowest byte first. */
  function UNum(m: seq<Frame>, r: nat, a: nat, n: nat): Option<nat>
    decreases n
  {
    if n == 0 then Some(0) else
    match UByte(m, r, a)
    case None => None
    case Some(b) =>
      match UNum(m, r, a + 1, n - 1)
      case None => None
      case Some(x) => Some(b + 256 * x)
  }

  function Pow256(n: nat): nat { if n == 0 then 1 else 256 * Pow256(n - 1) }

  /** A number stored little-endian is read back. */
  lemma {:induction false} UNumIs(m: seq<Frame>, r: nat, a: nat, n: nat, x: nat)
    requires x < Pow256(n)
    requires forall i :: a <= i < a + n ==> UByte(m, r, i) == Some(Le(x, n)[i - a])
    ensures UNum(m, r, a, n) == Some(x)
    decreases n
  {
    hide UByte, Le, Pow256, UNum;
    UNumBase(m, r, a);
    if n > 0 {
      LeTail(x, n);
      assert UByte(m, r, a) == Some(Le(x, n)[0]);
      var x1, tail := x / 256, Le(x, n)[1..];
      forall i | a + 1 <= i < a + 1 + (n - 1) ensures UByte(m, r, i) == Some(tail[i - (a + 1)]) {
        assert tail[i - (a + 1)] == Le(x, n)[i - a];
      }
      UNumIs(m, r, a + 1, n - 1, x1);
      UNumStep(m, r, a, n);
    }
  }

  lemma UNumBase(m: seq<Frame>, r: nat, a: nat)
    ensures UNum(m, r, a, 0) == Some(0) && Pow256(0) == 1
  {
  }

  lemma UNumStep(m: seq<Frame>, r: nat, a: nat, n: nat)
    requires n > 0 && UByte(m, r, a).Some? && UNum(m, r, a + 1, n - 1).Some?
    ensures UNum(m, r, a, n) == Some(UByte(m, r, a).value + 256 * UNum(m, r, a + 1, n - 1).value)
  {
  }

  lemma LeTail(x: nat, n: nat)
    requires x < Pow256(n) && n > 0
    ensures x / 256 < Pow256(n - 1) && x == x % 256 + 256 * (x / 256)
    ensures Le(x, n)[0] == x % 256
    ensures Le(x, n)[1..] == Le(x / 256, n - 1)
  {
  }

  lemma EightBytes()
    ensures Pow256(8) == 0x1_0000_0000_0000_0000
  {
    assert Pow256(4) == 0x1_0000_0000;
  }

  lemma FourBytes()
    ensures Pow256(4) == 0x1_0000_0000
  {
  }

  // ---- new pages, as the hardware and user code see them

  /** Address translation finds a 4 KB page that user code may read, write and execute. */
  predicate UserRwx(m: seq<Frame>, r: nat, v: nat) {
    var w := Sv39(m, r, v, 2);
    w.Leaf? && w.level == 0 && w.pte.flags.u && w.pte.flags.r && w.pte.flags.w && w.pte.flags.x
  }

  /** A page of new user memory with contents x. */
  lemma NewPageSeen(s: Snap, r: nat, v: nat, x: Frame)
    requires Inv(s) && IsRoot(s, r) && v < MAXVPN && IsPage(x) && PageIs(s, r, v, USERFLAGS.(v := true), x)
    ensures UserRwx(s.mem, r, v)
    ensures forall a: nat :: v * 4096 <= a < v * 4096 + 4096 ==> UByte(s.mem, r, a) == Some(x.bytes[a - v * 4096])
  {
    Sv39IsLookup(s, r, v);
    LookupOwner(s, r, v);
    NotKernel(s, Lookup(s.mem, r, v).value.ppn);
    hide Inv, Lookup;
    forall a: nat | v * 4096 <= a < v * 4096 + 4096 ensures UByte(s.mem, r, a) == Some(x.bytes[a - v * 4096]) {
      assert a / PGSIZE == v && a % PGSIZE == a - v * 4096;
    }
  }

  /** uvmalloc's pages: readable, writable and executable for the user, and all zeros. */
  lemma ZeroPagesSeen(s: Snap, r: nat, v0: nat, n: nat)
    requires Inv(s) && IsRoot(s, r) && v0 + n <= MAXVPN && ZeroPages(s, r, v0, n)
    ensures forall v :: v0 <= v < v0 + n ==> UserRwx(s.mem, r, v)
    ensures forall a: nat :: v0 * 4096 <= a < (v0 + n) * 4096 ==> UByte(s.mem, r, a) == Some(0)
  {
    hide Inv, UByte, UserRwx, PageIs;
    forall v | v0 <= v < v0 + n ensures UserRwx(s.mem, r, v) { NewPageSeen(s, r, v, Filled(0)); }
    forall a: nat | v0 * 4096 <= a < (v0 + n) * 4096 ensures UByte(s.mem, r, a) == Some(0) {
      NewPageSeen(s, r, a / 4096, Filled(0));
    }
  }

  /** uvminit's page: the code, then zeros, and user code may execute it. */
  lemma InitPageSeen(s: Snap, r: nat, src: seq<byte>)
    requires Inv(s) && IsRoot(s, r) && |src| < PGSIZE && PageIs(s, r, 0, USERFLAGS.(v := true), InitPage(src))
    ensures UserRwx(s.mem, r, 0)
    ensures forall a: nat :: a < 4096 ==> UByte(s.mem, r, a) == Some(if a < |src| then src[a] else 0)
  {
    hide Inv, UByte, UserRwx, PageIs;
    NewPageSeen(s, r, 0, InitPage(src));
  }

  /** uvmcopy's pages: user code in the copy finds what it found in the original, with the same rights. */
  lemma CopySeen(s: Snap, s': Snap, src: nat, dst: nat, n: nat)
    requires Inv(s) && Inv(s') && IsRoot(s, src) && IsRoot(s', dst) && n <= MAXVPN && CopyOf(s, s', src, dst, n)
    ensures forall a: nat :: a < n * 4096 ==> UByte(s'.mem, dst, a) == UByte(s.mem, src, a)
    ensures forall v :: 0 <= v < n ==> SameRights(s.mem, s'.mem, src, dst, v)
  {
    hide Inv, Lookup, UByte, Sv39, FrameOk;
    forall a: nat | a < n * 4096 ensures UByte(s'.mem, dst, a) == UByte(s.mem, src, a) {
      assert Copied(s, s', src, dst, a / 4096);
      CopyByte(s, s', src, dst, a);
    }
    forall v | 0 <= v < n ensures SameRights(s.mem, s'.mem, src, dst, v) {
      assert Copied(s, s', src, dst, v);
      Sv39IsLookup(s, src, v);
      Sv39IsLookup(s', dst, v);
    }
  }

  /** Both translations of page v find a page, with the same flags. */
  predicate SameRights(m: seq<Frame>, m': seq<Frame>, r: nat, r': nat, v: nat) {
    var w, w' := Sv39(m, r, v, 2), Sv39(m', r', v, 2);
    w.Leaf? && w'.Leaf? && w.level == w'.level == 0 && w.pte.flags == w'.pte.flags
  }

  lemma CopyByte(s: Snap, s': Snap, src: nat, dst: nat, a: nat)
    requires Inv(s) && Inv(s') && IsRoot(s, src) && IsRoot(s', dst) && a < MAXVA && Copied(s, s', src, dst, a / 4096)
    ensures UByte(s'.mem, dst, a) == UByte(s.mem, src, a)
  {
    LookupOwner(s, src, a / 4096);
    LookupOwner(s', dst, a / 4096);
    if Lookup(s.mem, src, a / 4096).value.flags.u {
      NotKernel(s, Lookup(s.mem, src, a / 4096).value.ppn);
      NotKernel(s', Lookup(s'.mem, dst, a / 4096).value.ppn);
    }
    hide Inv, Lookup;
  }
}
