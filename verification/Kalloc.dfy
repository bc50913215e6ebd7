/** kalloc.c: the physical page allocator, an intrusive free list through the free frames.
    A page-aligned physical address pa stands here as its page number pa / PGSIZE. */
module Kalloc {
  import opened Types
  import opened Riscv
  import opened Phys
  import opened PhysUpdate

  class Kmem {
    const mem: array<Frame>   // physical memory from address 0 up to PHYSTOP
    const end: nat            // first address after the kernel
    var freelist: nat         // page number of the first free page, 0 for none
    ghost var own: seq<Owner>
    ghost var free: seq<nat>

    ghost function G(): Snap
      reads this, mem
    {
      Snap(mem[..], own, free, freelist, Pages(end))
    }

    /** Memory as the boot loader leaves it: nothing free, the frames after the kernel unclaimed. */
    constructor (end: nat, pages: nat)
      requires 0 < Pages(end) <= pages < LOWVPN
      ensures Inv(G()) && fresh(mem) && mem.Length == pages && this.end == end
      ensures free == [] && forall f :: Pages(end) <= f < pages ==> own[f] == Held
    {
      var m := new Frame[pages](i => Page(seq(PGSIZE, j => 0)));
      this.mem := m;
      this.end := end;
      freelist := 0;
      own := seq(pages, i => if i < Pages(end) then Kernel else Held);
      free := [];
      new;
      assert forall f :: 0 <= f < pages ==> mem[..][f] == Page(seq(PGSIZE, j => 0));
    }

    /** kfree: no double free, and nothing outside the pool (the panic). */
    method Kfree(pa: nat)
      requires FreeListOk(G()) && Pages(end) <= pa < mem.Length && own[pa] != Free
      modifies this, mem
      ensures G() == Pushed(old(G()), pa)
      ensures FreeListOk(G()) && free == [pa] + old(free) && own == old(own)[pa := Free]
    {
      PushList(G(), pa);
      ghost var was := G();
      mem[pa] := Filled(1);
      mem[pa] := Run(freelist);
      freelist := pa;
      own := own[pa := Free];
      free := [pa] + free;
      assert G() == Pushed(was, pa);
    }

    /** kalloc: 0 exactly when nothing is free; otherwise a page full of junk that nobody owned. */
    method Kalloc() returns (r: nat)
      requires FreeListOk(G())
      modifies this, mem
      ensures r == 0 <==> old(free) == []
      ensures r == 0 ==> G() == old(G())
      ensures r != 0 ==> r == old(free)[0] && Pages(end) <= r < mem.Length && G() == Popped(old(G()))
      ensures r != 0 ==> free == old(free)[1..] && own == old(own)[r := Held]
      ensures r != 0 ==> mem[r].Page? && |mem[r].bytes| == 4096 && forall j :: 0 <= j < 4096 ==> mem[r].bytes[j] == 5
      ensures FreeListOk(G())
    {
      ghost var was := G();
      r := freelist;
      assert free != [] ==> free[0] in free;
      if r != 0 {
        PopList(was);
        freelist := mem[r].next;
        mem[r] := Filled(5);
        own := own[r := Held];
        free := free[1..];
        assert G() == Popped(was);
      }
    }

    method Freerange(paStart: nat, paEnd: nat)
      requires Inv(G()) && end <= paStart && paEnd <= mem.Length * PGSIZE
      requires forall f :: Pages(paStart) <= f && (f + 1) * PGSIZE <= paEnd ==> own[f] == Held
      modifies this, mem
      ensures Inv(G())
      ensures forall f :: 0 <= f < |own| ==>
                own[f] == if Pages(paStart) <= f && (f + 1) * PGSIZE <= paEnd then Free else old(own)[f]
    {
      var p := PgRoundUp(paStart);
      while p + PGSIZE <= paEnd
        invariant p % PGSIZE == 0 && p >= PgRoundUp(paStart)
        invariant Inv(G())
        invariant forall f :: 0 <= f < |own| ==>
                    own[f] == if Pages(paStart) <= f < p / PGSIZE && (f + 1) * PGSIZE <= paEnd then Free
                    else old(own)[f]
      {
        PushKeeps(G(), p / PGSIZE);
        Kfree(p / PGSIZE);
        p := p + PGSIZE;
      }
    }

    /** freemem, added by the system-call lab: walks the list to count the free bytes. */
    method Freemem() returns (count: uint64)
      requires FreeListOk(G())
      ensures count == PGSIZE * |set f | 0 <= f < |own| && own[f] == Free|
    {
      ListSize(free);
      ListBound(free, mem.Length);
      count := 0;
      var r := freelist;
      ghost var k := 0;
      assert free != [] ==> free[0] in free;
      while r != 0
        invariant 0 <= k <= |free| && count == PGSIZE * k
        invariant Chain(mem[..], r, free[k..])
        invariant r == 0 ==> k == |free|
        decreases |free| - k
      {
        count := count + PGSIZE;
        assert free[k..][1..] == free[k + 1..];
        r := mem[r].next;
        k := k + 1;
        assert k < |free| ==> free[k] in free;
      }
      assert (set f | 0 <= f < |own| && own[f] == Free) == Elems(free);
    }
  }

  ghost function Elems(free: seq<nat>): set<nat> { set f | f in free }

  lemma {:induction false} ListSize(free: seq<nat>)
    requires Distinct(free)
    ensures |Elems(free)| == |free|
  {
    if free == [] {
      assert Elems(free) == {};
    } else {
      ListSize(free[1..]);
      assert free == [free[0]] + free[1..];
      assert Elems(free) == {free[0]} + Elems(free[1..]);
      assert free[0] !in Elems(free[1..]);
    }
  }

  ghost function Below(n: nat): (b: set<nat>)
    ensures forall f: nat :: f in b <==> f < n
    ensures |b| == n
  {
    if n == 0 then {} else Below(n - 1) + {n - 1}
  }

  lemma ListBound(free: seq<nat>, n: nat)
    requires Distinct(free) && forall f :: f in free ==> f < n
    ensures |free| <= n
  {
    ListSize(free);
    SubsetSize(Elems(free), Below(n));
  }

  lemma {:induction false} SubsetSize<T>(a: set<T>, b: set<T>)
    requires a <= b
    ensures |a| <= |b|
    decreases a
  {
    if a != {} {
      var x :| x in a;
      SubsetSize(a - {x}, b - {x});
    }
  }

  /** kinit: every whole page after the kernel is free. */
  method Kinit(end: nat, pages: nat) returns (k: Kmem)
    requires 0 < Pages(end) <= pages < LOWVPN
    ensures fresh(k) && fresh(k.mem) && Inv(k.G()) && k.mem.Length == pages && k.end == end
    ensures |k.own| == pages && forall f :: 0 <= f < pages ==> k.own[f] == if f < Pages(end) then Kernel else Free
    ensures |k.free| == pages - Pages(end)
  {
    k := new Kmem(end, pages);
    k.Freerange(end, pages * PGSIZE);
    PoolSize(k.G());
  }

  lemma PoolSize(s: Snap)
    requires FreeListOk(s) && forall f :: s.lo <= f < |s.own| ==> s.own[f] == Free
    ensures |s.free| == |s.own| - s.lo
  {
    ListSize(s.free);
    var pool := Below(|s.own|) - Below(s.lo);
    assert Elems(s.free) == pool;
    assert Below(|s.own|) == pool + Below(s.lo);
  }

  /** Two snapshots with the same owners have the same free frames, in number too. */
  lemma SameFree(s: Snap, s': Snap)
    requires FreeListOk(s) && FreeListOk(s') && s.own == s'.own
    ensures multiset(s.free) == multiset(s'.free) && |s.free| == |s'.free|
  {
    ListSize(s.free);
    ListSize(s'.free);
    assert Elems(s.free) == Elems(s'.free);
    forall f ensures multiset(s.free)[f] == multiset(s'.free)[f] {
      Once(s.free, f);
      Once(s'.free, f);
    }
  }

  lemma {:induction false} Once(free: seq<nat>, f: nat)
    requires Distinct(free)
    ensures multiset(free)[f] == if f in free then 1 else 0
  {
    if free != [] {
      Once(free[1..], f);
      assert free == [free[0]] + free[1..];
    }
  }
}
