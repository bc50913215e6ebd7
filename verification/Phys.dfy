/** Physical memory as an array of frames, who owns each frame, and the tree of
    page-table pages laid out in it.  Everything here is a pure statement about
    one snapshot of memory; Kalloc and Vm are the code that changes it. */
module Phys {
  import opened Types
  import opened Riscv

  /** What a frame currently holds.  A free frame's first word is the free-list link. */
  datatype Frame = Table(ptes: seq<Pte>) | Page(bytes: seq<byte>) | Run(next: nat)

  /** The one owner of a frame.  `Held` frames are reached only through a kernel
      pointer (a trapframe, a page just returned by kalloc).  A `Tab` frame is the
      page-table page of tree `root` at `level` for the addresses whose page
      number starts with `prefix`, pointed to from frame `parent`.  A `User` frame
      is mapped at page `vpn` of tree `root`, by an entry in frame `table`. */
  datatype Owner =
    | Kernel
    | Free
    | Held
    | Tab(root: nat, level: nat, parent: nat, prefix: nat)
    | User(space: nat, vpn: nat, table: nat)

  /** A snapshot of physical memory: `lo` is the first frame after the kernel,
      `free` the free frames in the order of the list that starts at `head`. */
  datatype Snap = Snap(mem: seq<Frame>, own: seq<Owner>, free: seq<nat>, head: nat, lo: nat)

  function Repeat<T>(x: T, n: nat): (r: seq<T>)
    ensures |r| == n && forall i :: 0 <= i < n ==> r[i] == x
  {
    seq(n, i => x)
  }

  // what memset(page, b, PGSIZE) leaves, seen as data and as a page-table page
  function Filled(b: byte): Frame { Page(Repeat(b, PGSIZE)) }
  function ZeroTable(): Frame { Table(Repeat(ZEROPTE, 512)) }

  // ---- reading memory

  function Entry(m: seq<Frame>, f: nat, i: nat): Pte {
    if f < |m| && m[f].Table? && i < |m[f].ptes| then m[f].ptes[i] else ZEROPTE
  }

  /** The page-table page that translates page v at level l in the tree at r. */
  function TableAt(m: seq<Frame>, r: nat, v: nat, l: nat): Option<nat>
    requires l <= 2
    decreases 2 - l
  {
    if l == 2 then Some(r) else
    match TableAt(m, r, v, l + 1)
    case None => None
    case Some(t) =>
      var e := Entry(m, t, Idx(l + 1, v));
      if e.flags.v then Some(e.ppn) else None
  }

  /** The partial map that the tree at r stands for: page number to entry. */
  function Lookup(m: seq<Frame>, r: nat, v: nat): Option<Pte> {
    match TableAt(m, r, v, 0)
    case None => None
    case Some(t) =>
      var e := Entry(m, t, Idx(0, v));
      if e.flags.v then Some(e) else None
  }

  // ---- what every reachable snapshot satisfies

  ghost predicate IsTab(o: Owner, r: nat) { o.Tab? && o.root == r }
  ghost predicate Of(o: Owner, r: nat) { IsTab(o, r) || (o.User? && o.space == r) }
  ghost predicate IsRoot(s: Snap, r: nat) { r < |s.own| && s.own[r] == Tab(r, 2, r, 0) }

  /** The links starting at head visit exactly the frames of free, in order, and end in 0. */
  ghost predicate Chain(m: seq<Frame>, head: nat, free: seq<nat>)
    decreases |free|
  {
    if free == [] then head == 0
    else head == free[0] && head < |m| && m[head].Run? && Chain(m, m[head].next, free[1..])
  }

  ghost predicate Distinct(free: seq<nat>) {
    forall i, j :: 0 <= i < j < |free| ==> free[i] != free[j]
  }

  ghost predicate FreeListOk(s: Snap) {
    && |s.mem| == |s.own|
    && 0 < s.lo <= |s.mem| < LOWVPN
    && Chain(s.mem, s.head, s.free)
    && Distinct(s.free)
    && (forall f :: f in s.free <==> 0 <= f < |s.own| && s.own[f] == Free)
    && (forall f :: 0 <= f < |s.own| ==> (f < s.lo <==> s.own[f] == Kernel))
  }

  ghost predicate IsPage(f: Frame) { f.Page? && |f.bytes| == PGSIZE }

  /** Number of prefixes at level l below MAXVA. */
  function Prefixes(l: nat): nat { if l == 0 then 0x2_0000 else if l == 1 then 0x100 else 1 }

  /** The permission bits of a leaf that section 4.3.1 of the RISC-V Privileged
      Architecture does not reserve: readable, or executable and not writable. */
  predicate LeafFlags(f: Flags) { f.r || (f.x && !f.w) }

  /** Entry i of the level-l page f of tree r with prefix q. */
  ghost predicate EntryOk(s: Snap, f: nat, r: nat, l: nat, q: nat, i: nat) {
    var e := Entry(s.mem, f, i);
    if !e.flags.v then e == ZEROPTE
    else if l > 0 then
      && e == Pointer(e.ppn)
      && e.ppn < |s.own|
      && s.own[e.ppn] == Tab(r, l - 1, f, q * 512 + i)
    else
      && LeafFlags(e.flags)
      && e.ppn < |s.own|
      && (s.own[e.ppn] == User(r, q * 512 + i, f) || !e.flags.u)
  }

  /** The page-table page that points to f, when f has the owner o. */
  ghost predicate ParentOk(s: Snap, f: nat, o: Owner)
    requires o.Tab?
  {
    if o.level == 2 then o == Tab(f, 2, f, 0)
    else
      && o.parent < |s.own|
      && IsTab(s.own[o.parent], o.root)
      && s.own[o.parent].level == o.level + 1
      && s.own[o.parent].prefix == o.prefix / 512
      && Entry(s.mem, o.parent, o.prefix % 512) == Pointer(f)
  }

  ghost predicate FrameOk(s: Snap, f: nat)
    requires f < |s.own| == |s.mem|
  {
    match s.own[f]
    case Kernel => true
    case Free => true
    case Held => IsPage(s.mem[f])
    case Tab(r, l, p, q) =>
      && s.mem[f].Table? && |s.mem[f].ptes| == 512
      && l <= 2 && q < Prefixes(l)
      && ParentOk(s, f, s.own[f])
      && forall i: nat :: i < 512 ==> EntryOk(s, f, r, l, q, i)
    case User(r, v, t) =>
      && IsPage(s.mem[f])
      && v < MAXVPN
      && t < |s.own|
      && IsTab(s.own[t], r) && s.own[t].level == 0 && s.own[t].prefix == v / 512
      && Entry(s.mem, t, v % 512).flags.v
      && Entry(s.mem, t, v % 512).ppn == f
  }

  ghost predicate Inv(s: Snap) {
    && FreeListOk(s)
    && forall f :: 0 <= f < |s.own| ==> FrameOk(s, f)
  }

  // ---- the tree and the owners agree

  /** Walking down from a root stays in that root's own page-table pages, each
      with the prefix of the address: hence a table page is on one path only. */
  lemma {:induction false} TableAtOwner(s: Snap, r: nat, v: nat, l: nat)
    requires Inv(s) && IsRoot(s, r) && v < MAXVPN && l <= 2
    ensures TableAt(s.mem, r, v, l).Some? ==>
              var t := TableAt(s.mem, r, v, l).value;
              && t < |s.own|
              && IsTab(s.own[t], r) && s.own[t].level == l && s.own[t].prefix == Prefix(l, v)
    decreases 2 - l
  {
    if l < 2 {
      TableAtOwner(s, r, v, l + 1);
      PrefixStep(l + 1, v);
      var up := TableAt(s.mem, r, v, l + 1);
      if up.Some? {
        assert FrameOk(s, up.value);
        assert EntryOk(s, up.value, r, l + 1, Prefix(l + 1, v), Idx(l + 1, v));
      }
    }
  }

  /** Every page-table page is on the path of exactly the addresses with its prefix. */
  lemma {:induction false} OwnerTableAt(s: Snap, t: nat, v: nat)
    requires Inv(s) && t < |s.own| && s.own[t].Tab? && v < MAXVPN
    requires s.own[t].level <= 2 && s.own[t].prefix == Prefix(s.own[t].level, v)
    ensures IsRoot(s, s.own[t].root)
    ensures TableAt(s.mem, s.own[t].root, v, s.own[t].level) == Some(t)
    decreases 2 - s.own[t].level
  {
    assert FrameOk(s, t);
    var Tab(r, l, p, q) := s.own[t];
    if l < 2 {
      PrefixStep(l + 1, v);
      assert s.own[p].prefix == Prefix(l + 1, v) && q % 512 == Idx(l + 1, v);
      OwnerTableAt(s, p, v);
    }
  }

  lemma TablePage(s: Snap, t: nat)
    requires Inv(s) && t < |s.own| && s.own[t].Tab?
    ensures t < |s.mem| && s.mem[t].Table? && |s.mem[t].ptes| == 512 && s.own[t].level <= 2
    ensures forall i: nat :: i < 512 ==> Entry(s.mem, t, i) == s.mem[t].ptes[i]
  {
    assert FrameOk(s, t);
  }

  /** The mapping that a user frame's owner names is really there. */
  lemma UserIsMapped(s: Snap, f: nat)
    requires Inv(s) && f < |s.own| && s.own[f].User?
    ensures IsRoot(s, s.own[f].space) && s.own[f].vpn < MAXVPN
    ensures TableAt(s.mem, s.own[f].space, s.own[f].vpn, 0) == Some(s.own[f].table)
    ensures Lookup(s.mem, s.own[f].space, s.own[f].vpn).Some?
    ensures Lookup(s.mem, s.own[f].space, s.own[f].vpn).value.ppn == f
  {
    assert FrameOk(s, f);
    OwnerTableAt(s, s.own[f].table, s.own[f].vpn);
  }

  /** What is known of the entry found for page v. */
  lemma LookupOwner(s: Snap, r: nat, v: nat)
    requires Inv(s) && IsRoot(s, r) && v < MAXVPN && Lookup(s.mem, r, v).Some?
    ensures var e := Lookup(s.mem, r, v).value; var t := TableAt(s.mem, r, v, 0).value;
            && t < |s.own| && IsTab(s.own[t], r) && s.own[t].level == 0 && s.own[t].prefix == v / 512
            && e.flags.v && LeafFlags(e.flags) && e.ppn < |s.own|
            && (s.own[e.ppn] == User(r, v, t) || !e.flags.u)
  {
    TableAtOwner(s, r, v, 0);
    var t := TableAt(s.mem, r, v, 0).value;
    assert FrameOk(s, t);
    PrefixStep(0, v);
    assert EntryOk(s, t, r, 0, v / 512, v % 512);
  }

  /** Page v of tree r is backed by a frame that the tree owns. */
  ghost predicate Owns(s: Snap, r: nat, v: nat) {
    && Lookup(s.mem, r, v).Some?
    && var c := Lookup(s.mem, r, v).value.ppn;
    && c < |s.own| && s.own[c].User? && s.own[c].space == r && s.own[c].vpn == v
  }

  /** No aliasing: a frame that some process can touch from user mode is reached
      by one page of one address space, is not on the free list, is not a
      page-table page and is not held by a kernel pointer. */
  lemma NoAliasing(s: Snap, r1: nat, v1: nat, r2: nat, v2: nat)
    requires Inv(s) && IsRoot(s, r1) && IsRoot(s, r2) && v1 < MAXVPN && v2 < MAXVPN
    requires Lookup(s.mem, r1, v1).Some? && Lookup(s.mem, r1, v1).value.flags.u
    requires Lookup(s.mem, r2, v2).Some? && Lookup(s.mem, r2, v2).value.flags.u
    ensures Lookup(s.mem, r1, v1).value.ppn == Lookup(s.mem, r2, v2).value.ppn <==> r1 == r2 && v1 == v2
    ensures Lookup(s.mem, r1, v1).value.ppn !in s.free
    ensures s.lo <= Lookup(s.mem, r1, v1).value.ppn < |s.mem|
    ensures IsPage(s.mem[Lookup(s.mem, r1, v1).value.ppn])
  {
    LookupOwner(s, r1, v1);
    LookupOwner(s, r2, v2);
    assert FrameOk(s, Lookup(s.mem, r1, v1).value.ppn);
  }

  // ---- Sv39, as the hardware does it

  /** What address translation finds: a fault, or a leaf entry and its level. */
  datatype Walked = Fault | Leaf(pte: Pte, level: nat)

  /** Steps 2 to 5 of the algorithm in section 4.3.2 of the RISC-V Privileged
      Architecture (Sv39, section 4.4: three levels, so no sign extension below MAXVA). */
  function Sv39(m: seq<Frame>, a: nat, v: nat, i: nat): Walked
    requires i <= 2
    decreases i
  {
    var pte := Entry(m, a, Idx(i, v));
    if !pte.flags.v || (!pte.flags.r && pte.flags.w) then Fault
    else if pte.flags.r || pte.flags.x then Leaf(pte, i)
    else if i == 0 then Fault
    else Sv39(m, pte.ppn, v, i - 1)
  }

  /** The tree refines the map: hardware translation of page v in a well-formed
      tree yields a 4 KB leaf exactly where Lookup does, and the same entry. */
  lemma Sv39IsLookup(s: Snap, r: nat, v: nat)
    requires Inv(s) && IsRoot(s, r) && v < MAXVPN
    ensures Sv39(s.mem, r, v, 2) ==
            match Lookup(s.mem, r, v)
            case None => Fault
            case Some(e) => Leaf(e, 0)
  {
    assert FrameOk(s, r) && EntryOk(s, r, r, 2, 0, Idx(2, v));
    var t1 := TableAt(s.mem, r, v, 1);
    if t1.Some? {
      TableAtOwner(s, r, v, 1);
      assert FrameOk(s, t1.value) && EntryOk(s, t1.value, r, 1, Prefix(1, v), Idx(1, v));
      var t0 := TableAt(s.mem, r, v, 0);
      if t0.Some? {
        TableAtOwner(s, r, v, 0);
        assert FrameOk(s, t0.value) && EntryOk(s, t0.value, r, 0, Prefix(0, v), Idx(0, v));
        assert Sv39(s.mem, t1.value, v, 1) == Sv39(s.mem, t0.value, v, 0);
      }
    }
  }
}
