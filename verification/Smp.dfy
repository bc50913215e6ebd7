/** Memory under several CPUs.  Between two lock operations kalloc and kfree are single
    steps, and page tables and pages are written without a lock; what keeps them apart is
    that each CPU works on trees and frames of its own.  Here any number of CPUs take
    such steps in any order. */
module Smp {
  import opened Types
  import opened Riscv
  import opened Phys
  import opened PhysUpdate

  /** `held[c]` are the frames that CPU c reaches by kernel pointers, `trees[c]` the roots of
      the page tables that it works on. */
  datatype Smp = Smp(s: Snap, held: seq<set<nat>>, trees: seq<set<nat>>)

  function RootOf(o: Owner): Option<nat> {
    match o
    case Tab(r, _, _, _) => Some(r)
    case User(r, _, _) => Some(r)
    case _ => None
  }

  /** Frame f is CPU d's: held by it, or part of one of its trees. */
  ghost predicate Mine(m: Smp, d: nat, f: nat) {
    && f < |m.s.own|
    && (Holds(m, d, f) || (RootOf(m.s.own[f]).Some? && Has(m, d, RootOf(m.s.own[f]).value)))
  }

  ghost predicate Holds(m: Smp, c: nat, f: nat) { c < |m.held| && f in m.held[c] }

  ghost predicate Has(m: Smp, c: nat, r: nat) { c < |m.trees| && r in m.trees[c] }

  /** What the CPUs hold is held, and by one of them only. */
  ghost predicate HeldApart(m: Smp) {
    && (forall c: nat, f: nat :: Holds(m, c, f) ==> f < |m.s.own| && m.s.own[f] == Held)
    && (forall c: nat, d: nat, f: nat :: Holds(m, c, f) && Holds(m, d, f) ==> c == d)
  }

  ghost predicate TreesApart(m: Smp) {
    && (forall c: nat, r: nat :: Has(m, c, r) ==> IsRoot(m.s, r))
    && (forall c: nat, d: nat, r: nat :: Has(m, c, r) && Has(m, d, r) ==> c == d)
  }

  /** Memory is in order, and no frame and no tree has two CPUs. */
  ghost predicate Ok(m: Smp) { Inv(m.s) && |m.held| == |m.trees| && HeldApart(m) && TreesApart(m) }

  // ---- steps

  /** kalloc's unlinking, kfree's linking, memset or memmove of a page, uvmcreate's and walk's
      new page-table pages, and the writes of mappages, uvmunmap and uvmclear. */
  datatype Act =
    | Pop
    | Push(f: nat)
    | Fill(f: nat, x: Frame)
    | Root(f: nat)
    | Install(t: nat, i: nat, f: nat)
    | Map(t: nat, i: nat, e: Pte, take: bool)
    | Unmap(t: nat, i: nat)
    | Reflag(t: nat, i: nat, fl: Flags)

  /** Page-table page t of level l is in one of CPU c's trees. */
  ghost predicate MyTable(m: Smp, c: nat, t: nat) {
    t < |m.s.own| && m.s.own[t].Tab? && Has(m, c, m.s.own[t].root)
  }

  /** The step is one that CPU c may take: it uses only what is its own. */
  ghost predicate May(m: Smp, c: nat, a: Act) {
    && c < |m.held| == |m.trees|
    && match a
       case Pop => m.s.free != []
       case Push(f) => Holds(m, c, f)
       case Fill(f, x) => IsPage(x) && Mine(m, c, f) && (Holds(m, c, f) || m.s.own[f].User?)
       case Root(f) => Holds(m, c, f)
       case Install(t, i, f) =>
         && MyTable(m, c, t) && m.s.own[t].level > 0 && i < 512 && (m.s.own[t].level == 2 ==> i < 256)
         && !Entry(m.s.mem, t, i).flags.v && Holds(m, c, f)
       case Map(t, i, e, take) =>
         && MyTable(m, c, t) && m.s.own[t].level == 0 && i < 512 && !Entry(m.s.mem, t, i).flags.v
         && e.flags.v && LeafFlags(e.flags) && e.ppn < |m.s.own| && if take then Holds(m, c, e.ppn) else !e.flags.u
       case Unmap(t, i) => MyTable(m, c, t) && m.s.own[t].level == 0 && i < 512 && Entry(m.s.mem, t, i).flags.v
       case Reflag(t, i, fl) =>
         && MyTable(m, c, t) && m.s.own[t].level == 0 && i < 512 && Entry(m.s.mem, t, i).flags.v
         && fl.v && LeafFlags(fl) && (fl.u ==> Entry(m.s.mem, t, i).flags.u)
  }

  /** What CPU c holds after the step, and its trees. */
  ghost function HeldAfter(m: Smp, c: nat, a: Act): set<nat>
    requires May(m, c, a)
  {
    match a
    case Pop => m.held[c] + {m.s.free[0]}
    case Push(f) => m.held[c] - {f}
    case Root(f) => m.held[c] - {f}
    case Install(_, _, f) => m.held[c] - {f}
    case Map(_, _, e, take) => if take then m.held[c] - {e.ppn} else m.held[c]
    case Unmap(t, i) => if Owned(m.s, t, i) then m.held[c] + {Entry(m.s.mem, t, i).ppn} else m.held[c]
    case _ => m.held[c]
  }

  /** Entry i of t leads to a frame that the tree owns for that page. */
  ghost predicate Owned(s: Snap, t: nat, i: nat) {
    var f := Entry(s.mem, t, i).ppn;
    t < |s.own| && s.own[t].Tab? && f < |s.own| && s.own[f] == User(s.own[t].root, s.own[t].prefix * 512 + i, t)
  }

  ghost function MemAfter(m: Smp, c: nat, a: Act): Snap
    requires Ok(m) && May(m, c, a)
  {
    Shapes(m, c, a);
    match a
    case Pop => Popped(m.s)
    case Push(f) => Pushed(m.s, f)
    case Fill(f, x) => WithFrame(m.s, f, x)
    case Root(f) => NewRoot(m.s, f)
    case Install(t, i, f) => Installed(m.s, t, i, f)
    case Map(t, i, e, take) => Mapped(m.s, t, i, e, take)
    case Unmap(t, i) => Unmapped(m.s, t, i)
    case Reflag(t, i, fl) => WithEntry(m.s, t, i, Entry(m.s.mem, t, i).(flags := fl))
  }

  /** The state after CPU c's step a. */
  ghost function After(m: Smp, c: nat, a: Act): Smp
    requires Ok(m) && May(m, c, a)
  {
    Smp(MemAfter(m, c, a), m.held[c := HeldAfter(m, c, a)],
        m.trees[c := if a.Root? then m.trees[c] + {a.f} else m.trees[c]])
  }

  lemma HeldIs(m: Smp, c: nat, f: nat)
    requires Ok(m) && Holds(m, c, f)
    ensures f < |m.s.own| && m.s.own[f] == Held
  {
  }

  /** The frames and entries that a step names are there. */
  lemma Shapes(m: Smp, c: nat, a: Act)
    requires Ok(m) && May(m, c, a)
    ensures |m.s.own| == |m.s.mem|
    ensures a.Pop? ==> m.s.free[0] < |m.s.mem| && m.s.own[m.s.free[0]] == Free
    ensures a.Install? || a.Map? || a.Unmap? || a.Reflag? ==> HasEntry(m.s, a.t, a.i)
    ensures a.Push? || a.Root? || a.Install? ==> a.f < |m.s.own| && m.s.own[a.f] == Held
    ensures a.Map? && a.take ==> m.s.own[a.e.ppn] == Held
    ensures a.Install? ==> a.f != a.t
  {
    if a.Push? || a.Root? || a.Install? { HeldIs(m, c, a.f); }
    if a.Map? && a.take { HeldIs(m, c, a.e.ppn); }
    if a.Pop? { assert m.s.free[0] in m.s.free; }
    if a.Install? || a.Map? || a.Unmap? || a.Reflag? { TablePage(m.s, a.t); }
  }

  /** Memory stays in order. */
  lemma MemOk(m: Smp, c: nat, a: Act)
    requires Ok(m) && May(m, c, a)
    ensures Inv(MemAfter(m, c, a))
  {
    hide Inv;
    Shapes(m, c, a);
    match a
    case Pop => PopKeeps(m.s);
    case Push(f) => PushKeeps(m.s, f);
    case Fill(f, x) => WriteKeeps(m.s, f, x);
    case Root(f) => NewRootKeeps(m.s, f);
    case Install(t, i, f) => InstallKeeps(m.s, t, i, f);
    case Map(t, i, e, take) => MapKeeps(m.s, t, i, e, take);
    case Unmap(t, i) => UnmapKeeps(m.s, t, i);
    case Reflag(t, i, fl) => ReflagKeeps(m.s, t, i, fl);
  }

  /** A step changes only free frames and frames of the CPU that makes it, and never the
      owner of a page-table page. */
  lemma Changed(m: Smp, c: nat, a: Act, f: nat)
    requires Ok(m) && May(m, c, a) && f < |m.s.own|
    ensures var s' := MemAfter(m, c, a);
            && |s'.own| == |m.s.own| == |m.s.mem| == |s'.mem| && s'.lo == m.s.lo
            && (s'.own[f] != m.s.own[f] || s'.mem[f] != m.s.mem[f] ==> m.s.own[f] == Free || Mine(m, c, f))
            && (m.s.own[f].Tab? ==> s'.own[f] == m.s.own[f])
  {
    hide Inv, HeldApart, TreesApart, Holds, Has;
    Shapes(m, c, a);
  }

  /** Only CPU c's holdings and trees change. */
  lemma Parts(m: Smp, c: nat, a: Act)
    requires Ok(m) && May(m, c, a)
    ensures c < |m.held| == |m.trees| && |After(m, c, a).held| == |After(m, c, a).trees| == |m.held|
    ensures forall d: nat, f: nat :: Holds(After(m, c, a), d, f) <==>
              if d == c then f in HeldAfter(m, c, a) else Holds(m, d, f)
    ensures forall d: nat, r: nat :: Has(After(m, c, a), d, r) <==> Has(m, d, r) || (a.Root? && d == c && r == a.f)
  {
    hide Ok, MemAfter, HeldAfter;
  }

  /** A frame has one CPU. */
  lemma OneOwner(m: Smp, c: nat, d: nat, f: nat)
    requires Ok(m) && Mine(m, c, f) && Mine(m, d, f)
    ensures c == d && m.s.own[f] != Free && f !in m.s.free
  {
    hide FrameOk, Holds, Has;
    if Holds(m, c, f) { HeldIs(m, c, f); }
    if Holds(m, d, f) { HeldIs(m, d, f); }
  }

  /** The frames of another CPU keep owner and contents. */
  lemma OthersFrame(m: Smp, c: nat, a: Act, d: nat, f: nat)
    requires Ok(m) && May(m, c, a) && d != c && f < |m.s.own|
    ensures var m' := After(m, c, a);
            && |m'.s.own| == |m.s.own| == |m.s.mem| == |m'.s.mem|
            && (Mine(m', d, f) <==> Mine(m, d, f))
            && (Mine(m, d, f) ==> m'.s.own[f] == m.s.own[f] && m'.s.mem[f] == m.s.mem[f])
  {
    hide Ok, May, MemAfter, HeldAfter;
    Parts(m, c, a);
    hide After, Has, Holds;
    Changed(m, c, a, f);
    if Mine(m, d, f) {
      OneOwner(m, d, d, f);
      if Mine(m, c, f) { OneOwner(m, c, d, f); }
    }
    if Mine(After(m, c, a), d, f) && !Holds(m, d, f) { NewOwner(m, c, a, d, f); }
  }

  lemma NotRoot(m: Smp, c: nat, d: nat, f: nat)
    requires Ok(m) && Holds(m, c, f)
    ensures !Has(m, d, f)
  {
    HeldIs(m, c, f);
    if Has(m, d, f) { RootIs(m, d, f); }
  }

  lemma RootIs(m: Smp, c: nat, r: nat)
    requires Ok(m) && Has(m, c, r)
    ensures IsRoot(m.s, r)
  {
    hide Inv, Has;
  }

  /** What becomes part of a tree becomes part of one of the CPU's own. */
  lemma NewOwner(m: Smp, c: nat, a: Act, d: nat, f: nat)
    requires Ok(m) && May(m, c, a) && d != c && f < |m.s.own| == |MemAfter(m, c, a).own|
    requires RootOf(MemAfter(m, c, a).own[f]).Some? && Has(m, d, RootOf(MemAfter(m, c, a).own[f]).value)
    ensures MemAfter(m, c, a).own[f] == m.s.own[f]
  {
    hide Inv, Has, Holds;
    Shapes(m, c, a);
    if a.Root? { NotRoot(m, c, d, a.f); }
  }

  /** Every step of any CPU leaves memory in order and the CPUs apart. */
  lemma StepKeeps(m: Smp, c: nat, a: Act)
    requires Ok(m) && May(m, c, a)
    ensures Ok(After(m, c, a))
  {
    MemOk(m, c, a);
    HeldKept(m, c, a);
    TreesKept(m, c, a);
    hide Inv, May, MemAfter, HeldAfter, HeldApart, TreesApart;
  }

  lemma HeldKept(m: Smp, c: nat, a: Act)
    requires Ok(m) && May(m, c, a)
    ensures HeldApart(After(m, c, a))
  {
    var m' := After(m, c, a);
    hide Ok, May, After, HeldAfter, MemAfter, Holds;
    forall d: nat, f: nat | Holds(m', d, f) ensures f < |m'.s.own| && m'.s.own[f] == Held {
      HeldThere(m, c, a, d, f);
    }
    forall d: nat, e: nat, f: nat | Holds(m', d, f) && Holds(m', e, f) ensures d == e {
      if d != e { HeldOnce(m, c, a, if d == c then e else d, if d == c then d else e, f); }
    }
  }

  lemma HeldThere(m: Smp, c: nat, a: Act, d: nat, f: nat)
    requires Ok(m) && May(m, c, a) && Holds(After(m, c, a), d, f)
    ensures f < |After(m, c, a).s.own| && After(m, c, a).s.own[f] == Held
  {
    hide Ok, May, MemAfter, HeldAfter, Holds;
    Parts(m, c, a);
    if d == c {
      HeldHere(m, c, a, f);
    } else {
      HeldIs(m, d, f);
      OthersFrame(m, c, a, d, f);
    }
  }

  /** What another CPU d holds, no second one does after the step. */
  lemma HeldOnce(m: Smp, c: nat, a: Act, d: nat, e: nat, f: nat)
    requires Ok(m) && May(m, c, a) && d != c && d != e && Holds(After(m, c, a), d, f)
    ensures !Holds(After(m, c, a), e, f)
  {
    hide Ok, May, MemAfter, HeldAfter, Holds;
    Parts(m, c, a);
    HeldIs(m, d, f);
    HeldOne(m, d, e, f);
    if e == c && Holds(After(m, c, a), e, f) { HeldNew(m, c, a, f); }
  }

  lemma HeldOne(m: Smp, d: nat, e: nat, f: nat)
    requires Ok(m) && d != e && Holds(m, d, f)
    ensures !Holds(m, e, f)
  {
    hide Inv, Holds;
  }

  lemma HeldNew(m: Smp, c: nat, a: Act, f: nat)
    requires Ok(m) && May(m, c, a) && f in HeldAfter(m, c, a)
    ensures Holds(m, c, f) || (f < |m.s.own| && m.s.own[f] != Held)
  {
    hide Inv, HeldApart, TreesApart;
    Shapes(m, c, a);
  }

  lemma HeldHere(m: Smp, c: nat, a: Act, f: nat)
    requires Ok(m) && May(m, c, a) && f in HeldAfter(m, c, a)
    ensures f < |MemAfter(m, c, a).own| && MemAfter(m, c, a).own[f] == Held
  {
    hide Inv, HeldApart, TreesApart;
    Shapes(m, c, a);
    if Holds(m, c, f) { HeldIs(m, c, f); }
  }

  lemma TreesKept(m: Smp, c: nat, a: Act)
    requires Ok(m) && May(m, c, a)
    ensures TreesApart(After(m, c, a))
  {
    hide Ok, May, MemAfter, HeldAfter, Has;
    Parts(m, c, a);
    var m' := After(m, c, a);
    forall d: nat, r: nat | Has(m', d, r) ensures IsRoot(m'.s, r) {
      if a.Root? && d == c && r == a.f {
        NewTree(m, c, a);
      } else {
        RootIs(m, d, r);
        Changed(m, c, a, r);
      }
    }
    forall d: nat, e: nat, r: nat | Has(m', d, r) && Has(m', e, r) ensures d == e {
      if d != e { HasOnce(m, c, a, if d == c then e else d, if d == c then d else e, r); }
    }
  }

  lemma HasOnce(m: Smp, c: nat, a: Act, d: nat, e: nat, r: nat)
    requires Ok(m) && May(m, c, a) && d != c && d != e && Has(After(m, c, a), d, r)
    ensures !Has(After(m, c, a), e, r)
  {
    hide Ok, After, MemAfter, HeldAfter, Has;
    Parts(m, c, a);
    HasOne(m, d, e, r);
    if a.Root? { NotRoot(m, c, d, a.f); }
  }

  lemma HasOne(m: Smp, d: nat, e: nat, r: nat)
    requires Ok(m) && d != e && Has(m, d, r)
    ensures !Has(m, e, r)
  {
    hide Inv, Has;
  }

  lemma NewTree(m: Smp, c: nat, a: Act)
    requires Ok(m) && May(m, c, a) && a.Root?
    ensures IsRoot(MemAfter(m, c, a), a.f)
  {
    hide Inv, HeldApart, TreesApart;
    HeldIs(m, c, a.f);
  }

  /** Page v of tree r as it is after the step. */
  ghost function MapAfter(m: Smp, c: nat, a: Act, r: nat, v: nat): Option<Pte>
    requires Ok(m) && May(m, c, a)
  {
    Lookup(MemAfter(m, c, a).mem, r, v)
  }

  /** What each step does: a frame comes off the list into the CPU's hands or goes back onto it, a page
      gets its contents, a tree begins empty, a new page-table page changes no map, and one entry changes
      one page of one map, with the frame it takes or gives up. */
  lemma StepDoes(m: Smp, c: nat, a: Act)
    requires Ok(m) && May(m, c, a)
    ensures var s, m' := m.s, After(m, c, a); var s' := m'.s;
            match a
            case Pop => s.free == [s.free[0]] + s'.free && Holds(m', c, s.free[0])
            case Push(f) => s'.free == [f] + s.free && !Holds(m', c, f)
            case Fill(f, x) => f < |s'.mem| && s'.mem[f] == x && s'.own == s.own && s'.free == s.free
            case Root(f) => Has(m', c, f) && forall v: nat :: v < MAXVPN ==> MapAfter(m, c, a, f, v) == None
            case Install(t, i, f) => SameMaps(s, s') && Entry(s'.mem, t, i) == Pointer(f) && s'.free == s.free
            case Map(t, i, e, take) =>
              && MapAfter(m, c, a, s.own[t].root, s.own[t].prefix * 512 + i) == Some(e)
              && (take ==> s'.own[e.ppn] == User(s.own[t].root, s.own[t].prefix * 512 + i, t) && !Holds(m', c, e.ppn))
            case Unmap(t, i) =>
              && MapAfter(m, c, a, s.own[t].root, s.own[t].prefix * 512 + i) == None
              && (Owned(s, t, i) ==> Holds(m', c, Entry(s.mem, t, i).ppn))
            case Reflag(t, i, fl) =>
              && MapAfter(m, c, a, s.own[t].root, s.own[t].prefix * 512 + i) == Some(Entry(s.mem, t, i).(flags := fl))
              && s'.own == s.own
  {
    hide HeldApart, TreesApart, Lookup, TableAt;
    Shapes(m, c, a);
    match a
    case Root(f) => NewRootKeeps(m.s, f);
    case Install(t, i, f) => InstallKeeps(m.s, t, i, f);
    case Map(t, i, e, _) =>
      LeafWrite(m.s, t, i, e);
      assert MemAfter(m, c, a).mem == WithEntry(m.s, t, i, e).mem;
    case Unmap(t, i) =>
      LeafWrite(m.s, t, i, ZEROPTE);
      assert MemAfter(m, c, a).mem == WithEntry(m.s, t, i, ZEROPTE).mem;
    case Reflag(t, i, fl) => LeafWrite(m.s, t, i, Entry(m.s.mem, t, i).(flags := fl));
    case _ =>
  }

  // ---- runs

  /** The CPUs' steps, in any order, one after another. */
  datatype Move = Move(c: nat, a: Act)

  /** The states of a run: moves[i] leads from run[i] to run[i + 1]. */
  ghost predicate IsRun(run: seq<Smp>, moves: seq<Move>) {
    && |run| == |moves| + 1 && Ok(run[0])
    && forall i :: 0 <= i < |moves| ==> Goes(run[i], moves[i], run[i + 1])
  }

  ghost predicate Goes(m: Smp, v: Move, m': Smp) { Ok(m) ==> May(m, v.c, v.a) && m' == After(m, v.c, v.a) }

  /** Every interleaving leaves memory in order: in each state every frame beyond the
      kernel is free, or with exactly one CPU, or nobody's that moves. */
  lemma {:induction false} RunOk(run: seq<Smp>, moves: seq<Move>, n: nat)
    requires IsRun(run, moves) && n < |run|
    ensures Ok(run[n]) && |run[n].s.own| == |run[0].s.own| && |run[n].held| == |run[0].held|
  {
    hide Ok, May, After;
    if n > 0 {
      RunOk(run, moves, n - 1);
      assert Goes(run[n - 1], moves[n - 1], run[n]);
      GoesOk(run[n - 1], moves[n - 1], run[n]);
    }
  }

  lemma GoesOk(m: Smp, v: Move, m': Smp)
    requires Ok(m) && Goes(m, v, m')
    ensures Ok(m') && |m'.s.own| == |m.s.own| && |m'.held| == |m.held|
  {
    StepKeeps(m, v.c, v.a);
    Sizes(m, v.c, v.a);
    hide Ok, May, MemAfter, HeldAfter;
  }

  lemma Sizes(m: Smp, c: nat, a: Act)
    requires Ok(m) && May(m, c, a)
    ensures |MemAfter(m, c, a).own| == |m.s.own| && |m.s.own| == |m.s.mem|
  {
    hide Inv;
    Shapes(m, c, a);
  }

  /** While CPU d makes no step, nothing that is d's changes, whatever the others do: the
      same frames are d's, with the same owners and contents, and d's trees map every page
      as before. */
  lemma {:induction false} Undisturbed(run: seq<Smp>, moves: seq<Move>, d: nat, f: nat, i: nat, n: nat)
    requires IsRun(run, moves) && i <= n < |run| && f < |run[i].s.own|
    requires forall k :: i <= k < n ==> moves[k].c != d
    ensures Ok(run[i]) && Ok(run[n]) && |run[n].s.own| == |run[i].s.own| == |run[i].s.mem| == |run[n].s.mem|
    ensures Mine(run[n], d, f) <==> Mine(run[i], d, f)
    ensures Mine(run[i], d, f) ==> run[n].s.own[f] == run[i].s.own[f] && run[n].s.mem[f] == run[i].s.mem[f]
  {
    RunOk(run, moves, i);
    RunOk(run, moves, n);
    SizeOk(run[i]);
    SizeOk(run[n]);
    if i < n {
      Undisturbed(run, moves, d, f, i, n - 1);
      assert Goes(run[n - 1], moves[n - 1], run[n]);
      OthersFrame(run[n - 1], moves[n - 1].c, moves[n - 1].a, d, f);
    }
  }

  lemma SizeOk(m: Smp)
    requires Ok(m)
    ensures |m.s.own| == |m.s.mem|
  {
  }

  lemma UndisturbedMap(run: seq<Smp>, moves: seq<Move>, d: nat, r: nat, v: nat, i: nat, n: nat)
    requires IsRun(run, moves) && i <= n < |run| && Has(run[i], d, r) && v < MAXVPN
    requires forall k :: i <= k < n ==> moves[k].c != d
    ensures Lookup(run[n].s.mem, r, v) == Lookup(run[i].s.mem, r, v)
  {
    RunOk(run, moves, i);
    RootIs(run[i], d, r);
    SizeOk(run[i]);
    Undisturbed(run, moves, d, r, i, n);
    forall f | 0 <= f < |run[i].s.mem| && IsTab(run[i].s.own[f], r) ensures run[n].s.mem[f] == run[i].s.mem[f] {
      assert Mine(run[i], d, f);
      Undisturbed(run, moves, d, f, i, n);
    }
    LookupFrame(run[i].s, run[n].s.mem, r, v);
  }
}
