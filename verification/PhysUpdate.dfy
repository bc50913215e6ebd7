/** The elementary changes of memory that the allocator and vm.c make, each with
    the proof that it keeps the invariant and with its effect on every address map. */
module PhysUpdate {
  import opened Types
  import opened Riscv
  import opened Phys

  // ---- the changes

  function Popped(s: Snap): Snap
    requires |s.own| == |s.mem| && s.free != [] && s.free[0] < |s.mem|
  {
    Snap(s.mem[s.free[0] := Filled(5)], s.own[s.free[0] := Held], s.free[1..],
         if |s.free| > 1 then s.free[1] else 0, s.lo)
  }

  function Pushed(s: Snap, f: nat): Snap
    requires f < |s.own| == |s.mem|
  {
    Snap(s.mem[f := Run(s.head)], s.own[f := Free], [f] + s.free, f, s.lo)
  }

  function WithOwner(s: Snap, f: nat, o: Owner): Snap
    requires f < |s.own|
  {
    s.(own := s.own[f := o])
  }

  function WithFrame(s: Snap, f: nat, x: Frame): Snap
    requires f < |s.mem|
  {
    s.(mem := s.mem[f := x])
  }

  ghost predicate HasEntry(s: Snap, t: nat, i: nat) {
    t < |s.mem| && s.mem[t].Table? && i < |s.mem[t].ptes|
  }

  function WithEntry(s: Snap, t: nat, i: nat, e: Pte): Snap
    requires HasEntry(s, t, i)
  {
    WithFrame(s, t, Table(s.mem[t].ptes[i := e]))
  }

  /** Frame c becomes an empty page-table page, pointed to by entry i of t. */
  function Installed(s: Snap, t: nat, i: nat, c: nat): Snap
    requires |s.own| == |s.mem| && HasEntry(s, t, i) && c < |s.mem| && c != t
    requires s.own[t].Tab? && s.own[t].level > 0
  {
    var Tab(r, l, _, q) := s.own[t];
    WithEntry(WithOwner(WithFrame(s, c, ZeroTable()), c, Tab(r, l - 1, t, q * 512 + i)), t, i, Pointer(c))
  }

  /** Entry i of the level-0 page t becomes e, which takes over the frame if `take`. */
  function Mapped(s: Snap, t: nat, i: nat, e: Pte, take: bool): Snap
    requires HasEntry(s, t, i) && t < |s.own| && s.own[t].Tab? && e.ppn < |s.own|
  {
    WithEntry(if take then WithOwner(s, e.ppn, User(s.own[t].root, s.own[t].prefix * 512 + i, t)) else s, t, i, e)
  }

  /** Entry i of the level-0 page t becomes 0, and the frame it owned becomes held. */
  function Unmapped(s: Snap, t: nat, i: nat): Snap
    requires HasEntry(s, t, i) && t < |s.own| && s.own[t].Tab?
  {
    var c := s.mem[t].ptes[i].ppn;
    var owned := c < |s.own| && s.own[c] == User(s.own[t].root, s.own[t].prefix * 512 + i, t);
    WithEntry(if owned then WithOwner(s, c, Held) else s, t, i, ZEROPTE)
  }

  // ---- framing

  lemma {:induction false} TableAtFrame(s: Snap, m: seq<Frame>, r: nat, v: nat, l: nat)
    requires Inv(s) && IsRoot(s, r) && v < MAXVPN && l <= 2 && |m| == |s.mem|
    requires forall f :: 0 <= f < |m| && IsTab(s.own[f], r) && s.own[f].level > l ==> m[f] == s.mem[f]
    ensures TableAt(m, r, v, l) == TableAt(s.mem, r, v, l)
    decreases 2 - l
  {
    if l < 2 {
      TableAtFrame(s, m, r, v, l + 1);
      TableAtOwner(s, r, v, l + 1);
    }
  }

  /** An address map depends on its own page-table pages only. */
  lemma LookupFrame(s: Snap, m: seq<Frame>, r: nat, v: nat)
    requires Inv(s) && IsRoot(s, r) && v < MAXVPN && |m| == |s.mem|
    requires forall f :: 0 <= f < |m| && IsTab(s.own[f], r) ==> m[f] == s.mem[f]
    ensures Lookup(m, r, v) == Lookup(s.mem, r, v)
  {
    TableAtFrame(s, m, r, v, 0);
    TableAtOwner(s, r, v, 0);
  }

  /** Every address map is the same in both memories. */
  ghost predicate SameMaps(s: Snap, s': Snap) {
    forall r, v :: IsRoot(s, r) && 0 <= v < MAXVPN ==> Lookup(s'.mem, r, v) == Lookup(s.mem, r, v)
  }

  lemma SameTables(s: Snap, s': Snap)
    requires Inv(s) && |s'.mem| == |s.mem|
    requires forall f :: 0 <= f < |s.mem| && s.own[f].Tab? ==> s'.mem[f] == s.mem[f]
    ensures SameMaps(s, s')
  {
    forall r, v | IsRoot(s, r) && 0 <= v < MAXVPN ensures Lookup(s'.mem, r, v) == Lookup(s.mem, r, v) {
      LookupFrame(s, s'.mem, r, v);
    }
  }

  /** A frame keeps its invariant when nothing it refers to changed. */
  lemma FrameOkFrame(s: Snap, s': Snap, f: nat)
    requires |s.own| == |s.mem| == |s'.mem| == |s'.own| && f < |s.own| && FrameOk(s, f)
    requires s'.own[f] == s.own[f] && (s.own[f] == Free || s'.mem[f] == s.mem[f])
    requires s.own[f].Tab? ==> forall i: nat :: i < 512 && Entry(s.mem, f, i).flags.v ==>
               var c := Entry(s.mem, f, i).ppn;
               c < |s.own| && (s.own[f].level > 0 || (s.own[c].User? && s.own[c].table == f) ==> s'.own[c] == s.own[c])
    requires s.own[f].Tab? && s.own[f].level < 2 ==>
               s'.own[s.own[f].parent] == s.own[s.own[f].parent] &&
               Entry(s'.mem, s.own[f].parent, s.own[f].prefix % 512) ==
                 Entry(s.mem, s.own[f].parent, s.own[f].prefix % 512)
    requires s.own[f].User? ==>
               s'.own[s.own[f].table] == s.own[s.own[f].table] &&
               var e, e' := Entry(s.mem, s.own[f].table, s.own[f].vpn % 512),
               Entry(s'.mem, s.own[f].table, s.own[f].vpn % 512);
               e'.flags.v == e.flags.v && e'.ppn == e.ppn
    ensures FrameOk(s', f)
  {
    if s.own[f].Tab? {
      var Tab(r, l, p, q) := s.own[f];
      forall i: nat | i < 512 ensures EntryOk(s', f, r, l, q, i) {
        assert EntryOk(s, f, r, l, q, i);
      }
    }
  }

  // ---- the allocator

  lemma {:induction false} ChainFrame(m: seq<Frame>, m': seq<Frame>, head: nat, free: seq<nat>)
    requires Chain(m, head, free) && |m'| == |m|
    requires forall f :: f in free && f < |m| ==> m'[f] == m[f]
    ensures Chain(m', head, free)
    decreases |free|
  {
    if free != [] {
      assert free[0] in free;
      ChainFrame(m, m', m[head].next, free[1..]);
    }
  }

  lemma ChainHead(m: seq<Frame>, head: nat, free: seq<nat>)
    requires Chain(m, head, free)
    ensures head == if free == [] then 0 else free[0]
  {
  }

  lemma PopList(s: Snap)
    requires FreeListOk(s) && s.free != []
    ensures s.head == s.free[0] && s.lo <= s.head < |s.mem| && s.mem[s.head].Run?
    ensures s.mem[s.head].next == Popped(s).head
    ensures FreeListOk(Popped(s))
  {
    var s', c := Popped(s), s.free[0];
    assert c in s.free;
    assert s.free == [c] + s'.free;
    assert Chain(s.mem, s.mem[c].next, s'.free);
    ChainHead(s.mem, s.mem[c].next, s'.free);
    assert forall f :: f in s.free <==> f == c || f in s'.free;
    assert c !in s'.free;
    ChainFrame(s.mem, s'.mem, s'.head, s'.free);
  }

  lemma PushList(s: Snap, c: nat)
    requires FreeListOk(s) && s.lo <= c < |s.mem| && s.own[c] != Free
    ensures FreeListOk(Pushed(s, c))
  {
    var s' := Pushed(s, c);
    assert s'.free[1..] == s.free;
    ChainFrame(s.mem, s'.mem, s.head, s.free);
  }

  lemma PopKeeps(s: Snap)
    requires Inv(s) && s.free != []
    ensures Inv(Popped(s)) && SameMaps(s, Popped(s))
  {
    var s', c := Popped(s), s.free[0];
    PopList(s);
    forall f | 0 <= f < |s'.own| ensures FrameOk(s', f) {
      if f != c {
        UntouchedFrame(s, s', c, f);
      }
    }
    SameTables(s, s');
  }

  lemma PushKeeps(s: Snap, c: nat)
    requires Inv(s) && c < |s.own| && s.own[c] == Held
    ensures Inv(Pushed(s, c)) && SameMaps(s, Pushed(s, c))
  {
    var s' := Pushed(s, c);
    PushList(s, c);
    forall f | 0 <= f < |s'.own| ensures FrameOk(s', f) {
      if f != c {
        UntouchedFrame(s, s', c, f);
      }
    }
    SameTables(s, s');
  }

  /** Frames that do not involve c, which is free or held before. */
  lemma UntouchedFrame(s: Snap, s': Snap, c: nat, f: nat)
    requires Inv(s) && c < |s.own| && f < |s.own| && f != c
    requires s.own[c] == Free || s.own[c] == Held
    requires |s'.own| == |s.own| && |s'.mem| == |s.mem|
    requires forall g :: 0 <= g < |s.own| && g != c ==> s'.own[g] == s.own[g] && s'.mem[g] == s.mem[g]
    ensures FrameOk(s', f)
  {
    assert FrameOk(s, f);
    if s.own[f].Tab? {
      forall i: nat | i < 512 && Entry(s.mem, f, i).flags.v
        ensures var x := Entry(s.mem, f, i).ppn;
                x < |s.own| && (s.own[f].level > 0 || s.own[x].User? ==> s'.own[x] == s.own[x])
      {
        assert EntryOk(s, f, s.own[f].root, s.own[f].level, s.own[f].prefix, i);
      }
    }
    FrameOkFrame(s, s', f);
  }

  // ---- writing a leaf entry

  /** Writing one level-0 entry changes one page of one address map. */
  lemma LeafWrite(s: Snap, t: nat, i: nat, e: Pte)
    requires Inv(s) && t < |s.own| && s.own[t].Tab? && s.own[t].level == 0 && i < 512
    ensures HasEntry(s, t, i) && s.own[t].prefix * 512 + i < MAXVPN && IsRoot(s, s.own[t].root)
    ensures forall r, v :: IsRoot(s, r) && 0 <= v < MAXVPN ==>
              Lookup(WithEntry(s, t, i, e).mem, r, v) ==
              if r == s.own[t].root && v == s.own[t].prefix * 512 + i then (if e.flags.v then Some(e) else None)
              else Lookup(s.mem, r, v)
  {
    assert FrameOk(s, t);
    var at := s.own[t].prefix * 512 + i;
    OwnerTableAt(s, t, at);
    forall r, v | IsRoot(s, r) && 0 <= v < MAXVPN
      ensures Lookup(WithEntry(s, t, i, e).mem, r, v) ==
              if r == s.own[t].root && v == at then (if e.flags.v then Some(e) else None) else Lookup(s.mem, r, v)
    {
      TableAtFrame(s, WithEntry(s, t, i, e).mem, r, v, 0);
      TableAtOwner(s, r, v, 0);
    }
  }

  /** The frames that a level-0 entry and the owner of the frame it names do not concern. */
  lemma LeafElsewhere(s: Snap, s': Snap, t: nat, i: nat, c: nat, f: nat)
    requires Inv(s) && t < |s.own| && s.own[t].Tab? && s.own[t].level == 0 && i < 512 && c < |s.own|
    requires s'.own == s.own || s.own[c] == Held || s.own[c] == User(s.own[t].root, s.own[t].prefix * 512 + i, t)
    requires |s'.own| == |s.own| && |s'.mem| == |s.mem|
    requires forall g :: 0 <= g < |s.own| && g != c ==> s'.own[g] == s.own[g]
    requires forall g :: 0 <= g < |s.own| && g != t ==> s'.mem[g] == s.mem[g]
    requires forall j: nat :: j < 512 && j != i ==> Entry(s'.mem, t, j) == Entry(s.mem, t, j)
    requires f < |s.own| && f != t && s'.own[f] == s.own[f]
    requires s.own[f] == User(s.own[t].root, s.own[t].prefix * 512 + i, t) ==>
               Entry(s'.mem, t, i).flags.v && Entry(s'.mem, t, i).ppn == f
    ensures FrameOk(s', f)
  {
    assert FrameOk(s, f) && FrameOk(s, t);
    if s.own[f].Tab? {
      forall j: nat | j < 512 && Entry(s.mem, f, j).flags.v
        ensures var x := Entry(s.mem, f, j).ppn;
                x < |s.own| && (s.own[f].level > 0 || (s.own[x].User? && s.own[x].table == f) ==> s'.own[x] == s.own[x])
      {
        assert EntryOk(s, f, s.own[f].root, s.own[f].level, s.own[f].prefix, j);
      }
    }
    FrameOkFrame(s, s', f);
  }

  lemma MapKeeps(s: Snap, t: nat, i: nat, e: Pte, take: bool)
    requires Inv(s) && t < |s.own| && s.own[t].Tab? && s.own[t].level == 0 && i < 512
    requires !Entry(s.mem, t, i).flags.v && e.flags.v && LeafFlags(e.flags) && e.ppn < |s.own|
    requires if take then s.own[e.ppn] == Held else !e.flags.u
    ensures HasEntry(s, t, i) && Inv(Mapped(s, t, i, e, take))
  {
    assert FrameOk(s, t);
    var s' := Mapped(s, t, i, e, take);
    var c := e.ppn;
    LeafFreeList(s, s');
    var Tab(r, _, _, q) := s.own[t];
    forall f | 0 <= f < |s'.own| ensures FrameOk(s', f) {
      if f == t {
        LeafTable(s, s', t, i, c);
      } else if f == c && take {
        assert FrameOk(s, c);
      } else {
        assert FrameOk(s, f);
        LeafElsewhere(s, s', t, i, c, f);
      }
    }
  }

  lemma UnmappedFrame(s: Snap, t: nat, i: nat)
    requires Inv(s) && HasEntry(s, t, i) && t < |s.own| && s.own[t].Tab?
    requires Entry(s.mem, t, i).ppn < |s.own|
    requires s.own[Entry(s.mem, t, i).ppn] == User(s.own[t].root, s.own[t].prefix * 512 + i, t)
    ensures FrameOk(Unmapped(s, t, i), Entry(s.mem, t, i).ppn)
  {
    assert FrameOk(s, Entry(s.mem, t, i).ppn);
  }

  lemma UnmapKeeps(s: Snap, t: nat, i: nat)
    requires Inv(s) && t < |s.own| && s.own[t].Tab? && s.own[t].level == 0 && i < 512
    requires Entry(s.mem, t, i).flags.v
    ensures HasEntry(s, t, i) && Inv(Unmapped(s, t, i))
  {
    assert FrameOk(s, t);
    var s' := Unmapped(s, t, i);
    var Tab(r, _, _, q) := s.own[t];
    var c := Entry(s.mem, t, i).ppn;
    assert EntryOk(s, t, r, 0, q, i);
    LeafFreeList(s, s');
    LeafTable(s, s', t, i, c);
    forall f | 0 <= f < |s'.own| && f != t ensures FrameOk(s', f) {
      assert FrameOk(s, f);
      hide FrameOk;
      if f != c || s.own[c] != User(r, q * 512 + i, t) {
        LeafElsewhere(s, s', t, i, c, f);
      } else {
        UnmappedFrame(s, t, i);
      }
    }
  }

  /** Changing flags of a leaf other than V, short of granting user access to a borrowed frame. */
  lemma ReflagKeeps(s: Snap, t: nat, i: nat, fl: Flags)
    requires Inv(s) && t < |s.own| && s.own[t].Tab? && s.own[t].level == 0 && i < 512
    requires Entry(s.mem, t, i).flags.v && fl.v && LeafFlags(fl) && (fl.u ==> Entry(s.mem, t, i).flags.u)
    ensures HasEntry(s, t, i) && Inv(WithEntry(s, t, i, Entry(s.mem, t, i).(flags := fl)))
  {
    assert FrameOk(s, t);
    var s' := WithEntry(s, t, i, Entry(s.mem, t, i).(flags := fl));
    var c := Entry(s.mem, t, i).ppn;
    assert EntryOk(s, t, s.own[t].root, 0, s.own[t].prefix, i);
    LeafFreeList(s, s');
    forall f | 0 <= f < |s'.own| ensures FrameOk(s', f) {
      if f == t {
        LeafTable(s, s', t, i, c);
      } else {
        assert FrameOk(s, f);
        LeafElsewhere(s, s', t, i, c, f);
      }
    }
  }

  lemma LeafFreeList(s: Snap, s': Snap)
    requires FreeListOk(s) && s'.free == s.free && s'.head == s.head && s'.lo == s.lo
    requires |s'.own| == |s.own| && |s'.mem| == |s.mem|
    requires forall f :: 0 <= f < |s.own| ==> (s'.own[f] == Free <==> s.own[f] == Free)
    requires forall f :: 0 <= f < |s.own| ==> (s'.own[f] == Kernel <==> s.own[f] == Kernel)
    requires forall f :: 0 <= f < |s.own| && s.own[f] == Free ==> s'.mem[f] == s.mem[f]
    ensures FreeListOk(s')
  {
    ChainFrame(s.mem, s'.mem, s.head, s.free);
  }

  /** The page-table page itself after one of its leaf entries was written. */
  lemma LeafTable(s: Snap, s': Snap, t: nat, i: nat, c: nat)
    requires Inv(s) && t < |s.own| && s.own[t].Tab? && s.own[t].level == 0 && i < 512
    requires |s'.own| == |s.own| && |s'.mem| == |s.mem| && s'.own[t] == s.own[t]
    requires forall g :: 0 <= g < |s.own| && g != c ==> s'.own[g] == s.own[g]
    requires c < |s.own| && s'.own != s.own ==>
               s.own[c] == Held || s.own[c] == User(s.own[t].root, s.own[t].prefix * 512 + i, t)
    requires forall g :: 0 <= g < |s.own| && g != t ==> s'.mem[g] == s.mem[g]
    requires s'.mem[t].Table? && |s'.mem[t].ptes| == 512
    requires forall j: nat :: j < 512 && j != i ==> Entry(s'.mem, t, j) == Entry(s.mem, t, j)
    requires EntryOk(s', t, s.own[t].root, 0, s.own[t].prefix, i)
    ensures FrameOk(s', t)
  {
    assert FrameOk(s, t);
    var Tab(r, _, p, q) := s.own[t];
    assert ParentOk(s, t, s.own[t]);
    assert s.own[p].level == 1;
    forall j: nat | j < 512 ensures EntryOk(s', t, r, 0, q, j) {
      assert EntryOk(s, t, r, 0, q, j);
    }
  }

  // ---- page-table pages and data pages

  lemma InstallKeeps(s: Snap, t: nat, i: nat, c: nat)
    requires Inv(s) && t < |s.own| && s.own[t].Tab? && s.own[t].level > 0 && i < 512
    requires s.own[t].level == 2 ==> i < 256
    requires !Entry(s.mem, t, i).flags.v && c < |s.own| && s.own[c] == Held
    ensures HasEntry(s, t, i) && Inv(Installed(s, t, i, c))
    ensures SameMaps(s, Installed(s, t, i, c))
  {
    TablePage(s, t);
    var s' := Installed(s, t, i, c);
    LeafFreeList(s, s');
    forall f | 0 <= f < |s'.own| ensures FrameOk(s', f) {
      if f == t {
        InstallParent(s, t, i, c);
      } else {
        InstallOther(s, t, i, c, f);
      }
    }
    forall r, v | IsRoot(s, r) && 0 <= v < MAXVPN ensures Lookup(s'.mem, r, v) == Lookup(s.mem, r, v) {
      hide Installed, Inv;
      InstallLookup(s, t, i, c, r, v, 0);
    }
  }

  lemma InstallOther(s: Snap, t: nat, i: nat, c: nat, f: nat)
    requires Inv(s) && t < |s.own| && s.own[t].Tab? && s.own[t].level > 0 && i < 512
    requires s.own[t].level == 2 ==> i < 256
    requires !Entry(s.mem, t, i).flags.v && c < |s.own| && s.own[c] == Held
    requires HasEntry(s, t, i) && f < |s.own| && f != t
    ensures FrameOk(Installed(s, t, i, c), f)
  {
    var s' := Installed(s, t, i, c);
    assert FrameOk(s, f) && FrameOk(s, t);
    if f == c {
      forall j: nat | j < 512 ensures Entry(s'.mem, c, j) == ZEROPTE {}
    } else {
      if s.own[f].Tab? {
        forall j: nat | j < 512 && Entry(s.mem, f, j).flags.v
          ensures var x := Entry(s.mem, f, j).ppn;
                  x < |s.own|
                  && (s.own[f].level > 0 || (s.own[x].User? && s.own[x].table == f) ==> s'.own[x] == s.own[x])
        {
          assert EntryOk(s, f, s.own[f].root, s.own[f].level, s.own[f].prefix, j);
        }
      }
      FrameOkFrame(s, s', f);
    }
  }

  lemma InstallParent(s: Snap, t: nat, i: nat, c: nat)
    requires Inv(s) && t < |s.own| && s.own[t].Tab? && s.own[t].level > 0 && i < 512
    requires s.own[t].level == 2 ==> i < 256
    requires !Entry(s.mem, t, i).flags.v && c < |s.own| && s.own[c] == Held
    requires HasEntry(s, t, i)
    ensures FrameOk(Installed(s, t, i, c), t)
  {
    var s' := Installed(s, t, i, c);
    var Tab(r, l, p, q) := s.own[t];
    assert FrameOk(s, t);
    assert ParentOk(s', t, s'.own[t]);
    forall j: nat | j < 512 ensures EntryOk(s', t, r, l, q, j) {
      assert EntryOk(s, t, r, l, q, j);
    }
  }

  /** Below a new, empty page-table page nothing is mapped, as before. */
  lemma {:induction false} InstallLookup(s: Snap, t: nat, i: nat, c: nat, r: nat, v: nat, k: nat)
    requires Inv(s) && t < |s.own| && s.own[t].Tab? && s.own[t].level > 0 && i < 512
    requires !Entry(s.mem, t, i).flags.v && c < |s.own| && s.own[c] == Held && HasEntry(s, t, i)
    requires IsRoot(s, r) && v < MAXVPN && k <= 2
    ensures var m := Installed(s, t, i, c).mem;
            || TableAt(m, r, v, k) == TableAt(s.mem, r, v, k)
            || (TableAt(s.mem, r, v, k).None? && TableAt(m, r, v, k) == Some(c))
    ensures Lookup(Installed(s, t, i, c).mem, r, v) == Lookup(s.mem, r, v) || k > 0
    decreases 2 - k
  {
    var m := Installed(s, t, i, c).mem;
    if k < 2 {
      InstallLookup(s, t, i, c, r, v, k + 1);
      TableAtOwner(s, r, v, k + 1);
      assert forall j: nat :: j < 512 ==> Entry(m, c, j) == ZEROPTE;
    }
    TableAtOwner(s, r, v, k);
  }

  lemma WriteKeeps(s: Snap, f: nat, x: Frame)
    requires Inv(s) && f < |s.own| && (s.own[f] == Held || s.own[f].User?) && IsPage(x)
    ensures Inv(WithFrame(s, f, x)) && SameMaps(s, WithFrame(s, f, x))
  {
    var s' := WithFrame(s, f, x);
    LeafFreeList(s, s');
    forall g | 0 <= g < |s'.own| ensures FrameOk(s', g) {
      assert FrameOk(s, g);
      if g != f {
        if s.own[g].Tab? {
          forall j: nat | j < 512 && Entry(s.mem, g, j).flags.v ensures Entry(s.mem, g, j).ppn < |s.own| {
            assert EntryOk(s, g, s.own[g].root, s.own[g].level, s.own[g].prefix, j);
          }
        }
        FrameOkFrame(s, s', g);
      }
    }
    SameTables(s, s');
  }

  function NewRoot(s: Snap, c: nat): Snap
    requires c < |s.own| == |s.mem|
  {
    WithOwner(WithFrame(s, c, ZeroTable()), c, Tab(c, 2, c, 0))
  }

  lemma NewRootKeeps(s: Snap, c: nat)
    requires Inv(s) && c < |s.own| && s.own[c] == Held
    ensures Inv(NewRoot(s, c)) && SameMaps(s, NewRoot(s, c)) && IsRoot(NewRoot(s, c), c)
    ensures forall v :: 0 <= v < MAXVPN ==>
              Lookup(NewRoot(s, c).mem, c, v) == None && TableAt(NewRoot(s, c).mem, c, v, 1) == None
  {
    var s' := NewRoot(s, c);
    LeafFreeList(s, s');
    forall f | 0 <= f < |s'.own| ensures FrameOk(s', f) {
      if f == c {
        forall j: nat | j < 512 ensures Entry(s'.mem, c, j) == ZEROPTE {}
      } else {
        UntouchedFrame(s, s', c, f);
      }
    }
    SameTables(s, s');
    forall v | 0 <= v < MAXVPN ensures Lookup(s'.mem, c, v) == None && TableAt(s'.mem, c, v, 1) == None {
      assert Entry(s'.mem, c, Idx(2, v)) == ZEROPTE;
      assert TableAt(s'.mem, c, v, 2) == Some(c);
      assert TableAt(s'.mem, c, v, 1) == None;
    }
  }
}
