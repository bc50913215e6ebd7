/** Whole histories of memory: after any sequence of fork, sbrk, exec, exit-and-wait and
    writes to user memory, by any processes, every frame beyond the kernel is free or
    belongs to exactly one live process. */
module Machine {
  import opened Types
  import opened Riscv
  import opened Phys
  import opened PhysUpdate
  import opened Kalloc
  import opened UserVm
  import opened ProcMem
  import opened ProcAlloc
  import opened ExecImage
  import opened Exec

  /** The memory of a live process: its two trapframe pages, its page table and size. */
  datatype Memory = Memory(orig: nat, tf: nat, pt: nat, sz: nat)

  ghost predicate Belongs(s: Snap, f: nat, x: Option<Memory>) {
    x.Some? && f < |s.own| && Slots(s.own[f], f, x.value.orig, x.value.tf, x.value.pt)
  }

  ghost predicate Whole(lab: Lab, s: Snap, tr: nat, x: Option<Memory>) {
    x.Some? ==>
      && (x.value.orig != 0 <==> lab.orig) && x.value.tf != 0 && x.value.pt != 0
      && SlotOk(lab, s, x.value.orig, x.value.tf, x.value.pt, x.value.sz)
      && MapOk(s.mem, x.value.pt, tr, x.value.tf)
  }

  /** Frames in use and live processes match up: no frame without a process, none with two.
      The trampoline page tr is one of the kernel's. */
  ghost predicate Complete(lab: Lab, s: Snap, tr: nat, slots: seq<Option<Memory>>) {
    && Inv(s) && |s.own| < POOL32 && tr < |s.own| && s.own[tr] == Kernel
    && (forall i :: 0 <= i < |slots| ==> Whole(lab, s, tr, slots[i]))
    && (forall f :: 0 <= f < |s.own| && s.own[f] != Kernel && s.own[f] != Free ==>
         exists i :: 0 <= i < |slots| && Belongs(s, f, slots[i]))
    && (forall f, i, j :: 0 <= i < |slots| && 0 <= j < |slots| && Belongs(s, f, slots[i]) && Belongs(s, f, slots[j]) ==>
         i == j)
  }

  /** What an operation on behalf of one process may do: x is its memory before, x' after. */
  ghost predicate Local(lab: Lab, s: Snap, s': Snap, tr: nat, x: Option<Memory>, x': Option<Memory>) {
    && Inv(s') && Whole(lab, s', tr, x')
    && |s'.own| == |s.own| == |s.mem| == |s'.mem|
    && forall f :: 0 <= f < |s.own| ==>
         if s.own[f] == Free || Belongs(s, f, x) then s'.own[f] == Free || Belongs(s', f, x')
         else s'.own[f] == s.own[f] && s'.mem[f] == s.mem[f] && !Belongs(s', f, x')
  }

  /** An address space none of whose frames changed, and which got no new one. */
  lemma SpaceKept(lab: Lab, s: Snap, s': Snap, r: nat, n: nat)
    requires Inv(s) && ProcSpace(lab, s, r, n) && |s'.own| == |s.own| == |s.mem| == |s'.mem|
    requires forall f :: 0 <= f < |s.own| && Of(s.own[f], r) ==> s'.own[f] == s.own[f] && s'.mem[f] == s.mem[f]
    requires forall f :: 0 <= f < |s.own| && Of(s'.own[f], r) ==> s'.own[f] == s.own[f]
    ensures ProcSpace(lab, s', r, n)
    ensures forall v :: 0 <= v < MAXVPN ==> Lookup(s'.mem, r, v) == Lookup(s.mem, r, v)
  {
    hide Inv, ProcSpace, TableAt, Lookup;
    ProcSpaceFacts(lab, s, r, n);
    forall v | 0 <= v < MAXVPN ensures Lookup(s'.mem, r, v) == Lookup(s.mem, r, v) { LookupFrame(s, s'.mem, r, v); }
    BorrowedKeeps(s, s', r, TRAMPVPN);
    BorrowedKeeps(s, s', r, TRAPVPN);
    forall v | 0 <= v < n ensures Owns(s', r, v) { assert Owns(s, r, v); }
    ProcSpaceIs(lab, s', r, n);
  }

  /** The frames of y are still those of y, and not of x'. */
  ghost predicate Undisturbed(s: Snap, s': Snap, y: Option<Memory>, x': Option<Memory>) {
    forall f :: 0 <= f < |s.own| ==>
      && (Belongs(s, f, y) <==> Belongs(s', f, y))
      && (Belongs(s, f, y) ==> !Belongs(s', f, x') && s'.own[f] == s.own[f])
  }

  ghost predicate Apart(s: Snap, x: Option<Memory>, y: Option<Memory>) {
    forall f :: 0 <= f < |s.own| && Belongs(s, f, y) ==> !Belongs(s, f, x)
  }

  lemma FramesStay(lab: Lab, s: Snap, s': Snap, tr: nat, x: Option<Memory>, x': Option<Memory>, y: Option<Memory>,
                   f: nat)
    requires Local(lab, s, s', tr, x, x') && Whole(lab, s, tr, y) && Apart(s, x, y) && f < |s.own| && Belongs(s, f, y)
    ensures Belongs(s', f, y) && !Belongs(s', f, x') && s'.own[f] == s.own[f] != Free && s'.mem[f] == s.mem[f]
  {
    hide Inv, ProcSpace;
  }

  lemma FramesCome(lab: Lab, s: Snap, s': Snap, tr: nat, x: Option<Memory>, x': Option<Memory>, y: Option<Memory>,
                   f: nat)
    requires Local(lab, s, s', tr, x, x') && Whole(lab, s, tr, y) && Apart(s, x, y) && f < |s.own| && Belongs(s', f, y)
    requires y.Some? && x'.Some? ==> x'.value.pt != y.value.pt
    ensures Belongs(s, f, y)
  {
    hide Inv, ProcSpace;
  }

  lemma RootsDiffer(lab: Lab, s: Snap, s': Snap, tr: nat, x: Option<Memory>, x': Option<Memory>, y: Option<Memory>)
    requires Local(lab, s, s', tr, x, x') && Whole(lab, s, tr, y) && Apart(s, x, y) && y.Some? && x'.Some?
    ensures x'.value.pt != y.value.pt
  {
    var r := y.value.pt;
    ProcSpaceFacts(lab, s, r, Pages(y.value.sz));
    assert Belongs(s, r, y);
    FramesStay(lab, s, s', tr, x, x', y, r);
    hide Inv, ProcSpace, Local, Apart;
  }

  lemma OthersFrames(lab: Lab, s: Snap, s': Snap, tr: nat, x: Option<Memory>, x': Option<Memory>, y: Option<Memory>)
    requires Local(lab, s, s', tr, x, x') && Whole(lab, s, tr, y) && Apart(s, x, y)
    ensures Undisturbed(s, s', y, x')
  {
    hide Local, Whole, Apart, Belongs;
    LocalSizes(lab, s, s', tr, x, x');
    if y.Some? && x'.Some? { RootsDiffer(lab, s, s', tr, x, x', y); }
    forall f | 0 <= f < |s.own|
      ensures Belongs(s, f, y) <==> Belongs(s', f, y)
      ensures Belongs(s, f, y) ==> !Belongs(s', f, x') && s'.own[f] == s.own[f]
    {
      if Belongs(s, f, y) { FramesStay(lab, s, s', tr, x, x', y, f); }
      if Belongs(s', f, y) { FramesCome(lab, s, s', tr, x, x', y, f); }
    }
  }

  lemma LocalSizes(lab: Lab, s: Snap, s': Snap, tr: nat, x: Option<Memory>, x': Option<Memory>)
    requires Local(lab, s, s', tr, x, x')
    ensures |s'.own| == |s.own|
  {
  }

  /** Everybody else's memory is whole. */
  lemma OthersWhole(lab: Lab, s: Snap, s': Snap, tr: nat, x: Option<Memory>, x': Option<Memory>, y: Option<Memory>)
    requires Inv(s) && Local(lab, s, s', tr, x, x') && Whole(lab, s, tr, y) && Apart(s, x, y)
    ensures Whole(lab, s', tr, y) && Undisturbed(s, s', y, x')
  {
    hide Inv, ProcSpace, MapOk, Local, Undisturbed, Apart;
    OthersFrames(lab, s, s', tr, x, x', y);
    if y.Some? {
      OthersSpace(lab, s, s', tr, x, x', y.value);
      if lab.orig { FramesStay(lab, s, s', tr, x, x', y, y.value.orig); }
      FramesStay(lab, s, s', tr, x, x', y, y.value.tf);
      assert (lab.orig ==> Belongs(s, y.value.orig, y)) && Belongs(s, y.value.tf, y);
    }
  }

  lemma OthersSpace(lab: Lab, s: Snap, s': Snap, tr: nat, x: Option<Memory>, x': Option<Memory>, y: Memory)
    requires Inv(s) && Local(lab, s, s', tr, x, x') && Whole(lab, s, tr, Some(y)) && Apart(s, x, Some(y))
             && Undisturbed(s, s', Some(y), x')
    ensures ProcSpace(lab, s', y.pt, Pages(y.sz)) && MapOk(s'.mem, y.pt, tr, y.tf)
  {
    hide Inv, ProcSpace, Lookup;
    forall f | 0 <= f < |s.own|
      ensures Of(s.own[f], y.pt) ==> s'.own[f] == s.own[f] && s'.mem[f] == s.mem[f]
      ensures Of(s'.own[f], y.pt) ==> s'.own[f] == s.own[f]
    {
      assert Of(s.own[f], y.pt) ==> Belongs(s, f, Some(y));
      assert Of(s'.own[f], y.pt) ==> Belongs(s', f, Some(y));
    }
    SpaceKept(lab, s, s', y.pt, Pages(y.sz));
    MapSame(s.mem, s'.mem, y.pt, tr, y.tf);
  }

  lemma KernelKept(lab: Lab, s: Snap, s': Snap, tr: nat, x: Option<Memory>, x': Option<Memory>)
    requires Local(lab, s, s', tr, x, x') && Whole(lab, s, tr, x) && tr < |s.own| && s.own[tr] == Kernel
    ensures tr < |s'.own| && s'.own[tr] == Kernel
  {
    hide Inv, ProcSpace, Lookup;
  }

  lemma LocalKeeps(lab: Lab, s: Snap, s': Snap, tr: nat, slots: seq<Option<Memory>>, i: nat, x': Option<Memory>)
    requires Complete(lab, s, tr, slots) && i < |slots| && Local(lab, s, s', tr, slots[i], x')
    ensures Complete(lab, s', tr, slots[i := x'])
  {
    var slots' := slots[i := x'];
    forall j | 0 <= j < |slots| && j != i ensures Whole(lab, s', tr, slots[j]) && Undisturbed(s, s', slots[j], x') {
      assert Apart(s, slots[i], slots[j]);
      OthersWhole(lab, s, s', tr, slots[i], x', slots[j]);
    }
    KernelKept(lab, s, s', tr, slots[i], x');
    LocalCovers(lab, s, s', tr, slots, i, x', slots');
    LocalOnce(lab, s, s', tr, slots, i, x', slots');
    hide Inv, Whole, Undisturbed, Belongs;
  }

  lemma LocalCovers(lab: Lab, s: Snap, s': Snap, tr: nat, slots: seq<Option<Memory>>, i: nat, x': Option<Memory>,
                    slots': seq<Option<Memory>>)
    requires Complete(lab, s, tr, slots) && i < |slots| && Local(lab, s, s', tr, slots[i], x')
             && slots' == slots[i := x']
    requires forall j :: 0 <= j < |slots| && j != i ==> Undisturbed(s, s', slots[j], x')
    ensures forall f :: 0 <= f < |s'.own| && s'.own[f] != Kernel && s'.own[f] != Free ==>
              exists j :: 0 <= j < |slots'| && Belongs(s', f, slots'[j])
  {
    hide Inv, Whole;
    forall f | 0 <= f < |s'.own| && s'.own[f] != Kernel && s'.own[f] != Free
      ensures exists j :: 0 <= j < |slots'| && Belongs(s', f, slots'[j])
    {
      if Belongs(s', f, x') {
        assert Belongs(s', f, slots'[i]);
      } else {
        var j :| 0 <= j < |slots| && Belongs(s, f, slots[j]);
        assert j != i && Undisturbed(s, s', slots[j], x');
        assert Belongs(s', f, slots'[j]);
      }
    }
  }

  lemma LocalOnce(lab: Lab, s: Snap, s': Snap, tr: nat, slots: seq<Option<Memory>>, i: nat, x': Option<Memory>,
                  slots': seq<Option<Memory>>)
    requires Complete(lab, s, tr, slots) && i < |slots| && Local(lab, s, s', tr, slots[i], x')
             && slots' == slots[i := x']
    requires forall j :: 0 <= j < |slots| && j != i ==> Undisturbed(s, s', slots[j], x')
    ensures forall f, j, l ::
              0 <= j < |slots'| && 0 <= l < |slots'| && Belongs(s', f, slots'[j]) && Belongs(s', f, slots'[l]) ==>
                j == l
  {
    hide Inv, Whole;
    forall f, j, l | 0 <= j < |slots'| && 0 <= l < |slots'| && Belongs(s', f, slots'[j]) && Belongs(s', f, slots'[l])
      ensures j == l
    {
      assert j != i ==> Undisturbed(s, s', slots[j], x');
      assert l != i ==> Undisturbed(s, s', slots[l], x');
    }
  }

  /** When the last process is gone, all memory beyond the kernel is free again. */
  lemma NothingLost(lab: Lab, s: Snap, tr: nat, slots: seq<Option<Memory>>)
    requires Complete(lab, s, tr, slots) && forall i :: 0 <= i < |slots| ==> slots[i] == None
    ensures forall f :: s.lo <= f < |s.own| ==> s.own[f] == Free
    ensures |s.free| == |s.own| - s.lo
  {
    forall f | s.lo <= f < |s.own| ensures s.own[f] == Free {
      forall i | 0 <= i < |slots| ensures !Belongs(s, f, slots[i]) { assert slots[i] == None; }
    }
    PoolSize(s);
  }

  /** Whatever page of a live process leads somewhere, it leads to the trampoline, to the
      process's own trapframe or to a frame of its own for that page: to no free frame
      and to nothing of another process. */
  lemma LiveLeaves(lab: Lab, s: Snap, tr: nat, slots: seq<Option<Memory>>, i: nat, v: nat)
    requires Complete(lab, s, tr, slots) && i < |slots| && slots[i].Some? && v < MAXVPN
             && Lookup(s.mem, slots[i].value.pt, v).Some?
    ensures var c := Lookup(s.mem, slots[i].value.pt, v).value.ppn;
            && c < |s.own| && c !in s.free && (c == tr || Belongs(s, c, slots[i]))
            && (forall j :: 0 <= j < |slots| && j != i ==> !Belongs(s, c, slots[j]))
  {
    hide Inv, Lookup, ProcSpace, MapOk;
    assert Whole(lab, s, tr, slots[i]);
    SlotLeaf(lab, s, tr, slots[i].value, v);
    forall j | 0 <= j < |slots| ensures !Belongs(s, tr, slots[j]) {
      assert Whole(lab, s, tr, slots[j]);
    }
  }

  lemma SlotLeaf(lab: Lab, s: Snap, tr: nat, x: Memory, v: nat)
    requires Inv(s) && Whole(lab, s, tr, Some(x)) && tr < |s.own| && s.own[tr] == Kernel && v < MAXVPN
             && Lookup(s.mem, x.pt, v).Some?
    ensures var c := Lookup(s.mem, x.pt, v).value.ppn;
            c < |s.own| && c !in s.free && (c == tr || Belongs(s, c, Some(x)))
  {
    hide Inv, Lookup, ProcSpace, Rights, TopMapped;
    LeafTargets(lab, s, x.pt, Pages(x.sz), tr, x.tf, v);
  }

  // ---- the operations are local

  lemma ConservedLocal(lab: Lab, s: Snap, s': Snap, tr: nat, x: Option<Memory>)
    requires Inv(s) && Inv(s') && Whole(lab, s, tr, x) && Conserved(s, s')
    ensures Local(lab, s, s', tr, x, x)
  {
    if x.Some? {
      SpaceKept(lab, s, s', x.value.pt, Pages(x.value.sz));
      MapSame(s.mem, s'.mem, x.value.pt, tr, x.value.tf);
    }
  }

  lemma NewLocal(lab: Lab, s: Snap, s': Snap, tr: nat, orig: nat, tf: nat, pt: nat, sz: nat)
    requires NewProc(lab, s, s', orig, tf, pt, sz) && MapOk(s'.mem, pt, tr, tf)
    ensures Local(lab, s, s', tr, None, Some(Memory(orig, tf, pt, sz)))
  {
  }

  lemma FreedLocal(lab: Lab, s: Snap, s': Snap, tr: nat, x: Memory)
    requires Inv(s') && SlotFreed(s, s', x.orig, x.tf, x.pt)
    ensures Local(lab, s, s', tr, Some(x), None)
  {
  }

  lemma IsolatedLocal(lab: Lab, s: Snap, s': Snap, tr: nat, x: Memory, sz: nat)
    requires Inv(s') && Whole(lab, s, tr, Some(x)) && Isolated(s, s', x.pt) && ProcSpace(lab, s', x.pt, Pages(sz))
    requires MapOk(s'.mem, x.pt, tr, x.tf)
    ensures Local(lab, s, s', tr, Some(x), Some(x.(sz := sz)))
  {
    hide Inv, ProcSpace;
  }

  lemma SwappedLocal(lab: Lab, s: Snap, s': Snap, tr: nat, x: Memory, r: nat, sz: nat)
    requires Inv(s) && Inv(s') && Whole(lab, s, tr, Some(x)) && Swapped(s, s', x.pt, r, x.tf)
             && ProcSpace(lab, s', r, Pages(sz))
             && r != 0
    requires r < |s.own| && s.own[r] == Free && MapOk(s'.mem, r, tr, x.tf)
    ensures Local(lab, s, s', tr, Some(x), Some(x.(pt := r, sz := sz)))
  {
    NobodyOf(s, r);
    hide Inv, ProcSpace;
    var x' := x.(pt := r, sz := sz);
    assert Whole(lab, s', tr, Some(x'));
    forall f | 0 <= f < |s.own|
      ensures if s.own[f] == Free || Belongs(s, f, Some(x)) then s'.own[f] == Free || Belongs(s', f, Some(x'))
              else s'.own[f] == s.own[f] && s'.mem[f] == s.mem[f] && !Belongs(s', f, Some(x'))
    {
      assert !Of(s.own[f], r);
    }
  }
}
