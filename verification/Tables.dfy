/** Counting page-table pages: which ones a tree has, and how many more the mapping of a
    range of pages takes. */
module Tables {
  import opened Types
  import opened Riscv
  import opened Phys
  import opened PhysUpdate

  /** Addresses that share the index bits above level l are translated through the same
      page-table page of that level. */
  lemma {:induction false} SamePath(m: seq<Frame>, r: nat, u: nat, v: nat, l: nat)
    requires l <= 2 && Prefix(l, u) == Prefix(l, v)
    ensures TableAt(m, r, u, l) == TableAt(m, r, v, l)
    decreases 2 - l
  {
    if l < 2 {
      PrefixStep(l + 1, u);
      PrefixStep(l + 1, v);
      SamePath(m, r, u, v, l + 1);
    }
  }

  /** How many page-table pages are missing on the path of page v. */
  function Missing(m: seq<Frame>, r: nat, v: nat): nat {
    if TableAt(m, r, v, 0).Some? then 0 else if TableAt(m, r, v, 1).Some? then 1 else 2
  }

  // ---- what mapping a range costs

  /** 1 if page v0 + k is the first of the pages v0, v0 + 1, ... to need a page-table page
      of level l that the tree lacks. */
  function Fresh(m: seq<Frame>, r: nat, v0: nat, k: nat, l: nat): nat
    requires l <= 1
  {
    if TableAt(m, r, v0 + k, l).None? && (k == 0 || Prefix(l, v0 + k) != Prefix(l, v0 + k - 1)) then 1 else 0
  }

  /** The page-table pages of level l missing on the paths of the n pages from v0 on, each counted once. */
  function NewAt(m: seq<Frame>, r: nat, v0: nat, n: nat, l: nat): nat
    requires l <= 1
  {
    if n == 0 then 0 else NewAt(m, r, v0, n - 1, l) + Fresh(m, r, v0, n - 1, l)
  }

  function NewTables(m: seq<Frame>, r: nat, v0: nat, n: nat): nat { NewAt(m, r, v0, n, 0) + NewAt(m, r, v0, n, 1) }

  /** The frames that adding the n pages from v0 on to tree r takes. */
  function Cost(m: seq<Frame>, r: nat, v0: nat, n: nat): nat { n + NewTables(m, r, v0, n) }

  /** The prefixes of the level-l page-table pages that the n pages from v0 on lack. */
  ghost function Lacking(m: seq<Frame>, r: nat, v0: nat, n: nat, l: nat): set<nat>
    requires l <= 1
  {
    set v | v0 <= v < v0 + n && TableAt(m, r, v, l).None? :: Prefix(l, v)
  }

  /** NewAt is the number of distinct page-table pages of that level that the range lacks. */
  lemma {:induction false} NewAtDistinct(m: seq<Frame>, r: nat, v0: nat, n: nat, l: nat)
    requires l <= 1
    ensures NewAt(m, r, v0, n, l) == |Lacking(m, r, v0, n, l)|
  {
    hide TableAt, Prefix, Fresh;
    if n == 0 {
      assert Lacking(m, r, v0, n, l) == {};
    } else {
      var v := v0 + n - 1;
      NewAtDistinct(m, r, v0, n - 1, l);
      LackingFirst(m, r, v0, n - 1, l);
      var first := if TableAt(m, r, v, l).None? then {Prefix(l, v)} else {};
      assert Lacking(m, r, v0, n, l) == Lacking(m, r, v0, n - 1, l) + first;
    }
  }

  lemma LackingFirst(m: seq<Frame>, r: nat, v0: nat, k: nat, l: nat)
    requires l <= 1
    ensures Fresh(m, r, v0, k, l) ==
            if TableAt(m, r, v0 + k, l).None? && Prefix(l, v0 + k) !in Lacking(m, r, v0, k, l) then 1 else 0
  {
    hide TableAt, Prefix;
    if k > 0 && Prefix(l, v0 + k) == Prefix(l, v0 + k - 1) { SamePath(m, r, v0 + k - 1, v0 + k, l); }
    forall v | v0 <= v < v0 + k && Prefix(l, v) == Prefix(l, v0 + k)
      ensures Prefix(l, v0 + k - 1) == Prefix(l, v0 + k)
    {
      PrefixMonotone(l, v, v0 + k - 1);
      PrefixMonotone(l, v0 + k - 1, v0 + k);
    }
  }

  lemma PrefixMonotone(l: nat, u: nat, v: nat)
    requires l <= 2 && u <= v
    ensures Prefix(l, u) <= Prefix(l, v)
  {
  }

  lemma {:induction false} NewGrows(m: seq<Frame>, r: nat, v0: nat, k: nat, n: nat)
    requires k <= n
    ensures NewTables(m, r, v0, k) <= NewTables(m, r, v0, n)
  {
    hide Fresh;
    if k < n { NewGrows(m, r, v0, k, n - 1); }
  }

  lemma CostGrows(m: seq<Frame>, r: nat, v0: nat, k: nat, n: nat)
    requires k <= n
    ensures Cost(m, r, v0, k) <= Cost(m, r, v0, n) && Cost(m, r, v0, n) >= n
  {
    NewGrows(m, r, v0, k, n);
  }

  // ---- the page-table pages that an operation adds

  /** The path of page v passes the level-l page-table page of one of the n pages from v0 on. */
  predicate Covers(v0: nat, n: nat, v: nat, l: nat)
    requires l <= 1
  {
    n > 0 && Prefix(l, v0) <= Prefix(l, v) <= Prefix(l, v0 + n - 1)
  }

  /** Tree r has the same page-table pages in both memories. */
  ghost predicate SameTabs(m: seq<Frame>, m': seq<Frame>, r: nat) {
    forall v, l: nat :: 0 <= v < MAXVPN && l <= 1 ==> TableAt(m', r, v, l) == TableAt(m, r, v, l)
  }

  /** Tree r gained exactly the page-table pages missing on the paths of the n pages from v0 on. */
  ghost predicate Laid(m: seq<Frame>, m': seq<Frame>, r: nat, v0: nat, n: nat) {
    forall v, l: nat :: 0 <= v < MAXVPN && l <= 1 ==>
      (TableAt(m', r, v, l).Some? <==> TableAt(m, r, v, l).Some? || Covers(v0, n, v, l))
  }

  lemma LaidNone(m: seq<Frame>, r: nat, v0: nat)
    ensures Laid(m, m, r, v0, 0)
  {
  }

  lemma LaidSame(m: seq<Frame>, m1: seq<Frame>, m2: seq<Frame>, m3: seq<Frame>, r: nat, v0: nat, n: nat)
    requires SameTabs(m, m1, r) && Laid(m1, m2, r, v0, n) && SameTabs(m2, m3, r)
    ensures Laid(m, m3, r, v0, n)
  {
    hide TableAt, Covers;
  }

  lemma SameTabsRefl(m: seq<Frame>, r: nat)
    ensures SameTabs(m, m, r)
  {
  }

  /** One range after another. */
  lemma LaidStep(m: seq<Frame>, m1: seq<Frame>, m2: seq<Frame>, r: nat, v0: nat, n: nat, d: nat)
    requires Laid(m, m1, r, v0, n) && Laid(m1, m2, r, v0 + n, d)
    ensures Laid(m, m2, r, v0, n + d)
  {
    hide TableAt, Prefix;
    forall v, l: nat | 0 <= v < MAXVPN && l <= 1
      ensures TableAt(m2, r, v, l).Some? <==> TableAt(m, r, v, l).Some? || Covers(v0, n + d, v, l)
    {
      CoversSplit(v0, n, d, v, l);
    }
  }

  lemma CoversSplit(v0: nat, n: nat, d: nat, v: nat, l: nat)
    requires l <= 1
    ensures Covers(v0, n + d, v, l) <==> Covers(v0, n, v, l) || Covers(v0 + n, d, v, l)
  {
  }

  /** After n pages, what the next one lacks is what it costs. */
  lemma NextCost(m: seq<Frame>, m1: seq<Frame>, r: nat, v0: nat, n: nat)
    requires Laid(m, m1, r, v0, n) && v0 + n < MAXVPN
    ensures NewTables(m, r, v0, n + 1) == NewTables(m, r, v0, n) + Missing(m1, r, v0 + n)
    ensures Cost(m, r, v0, n + 1) == Cost(m, r, v0, n) + 1 + Missing(m1, r, v0 + n)
  {
    var v := v0 + n;
    assert TableAt(m1, r, v, 0).Some? <==> TableAt(m, r, v, 0).Some? || Covers(v0, n, v, 0);
    assert TableAt(m1, r, v, 1).Some? <==> TableAt(m, r, v, 1).Some? || Covers(v0, n, v, 1);
    assert TableAt(m1, r, v, 0).Some? ==> TableAt(m1, r, v, 1).Some?;
  }

  /** On the way down to page v: the page-table pages of its path of level lo and up are there. */
  ghost predicate LaidDown(m: seq<Frame>, m': seq<Frame>, r: nat, v: nat, lo: nat) {
    forall u, l: nat :: 0 <= u < MAXVPN && l <= 1 ==>
      (TableAt(m', r, u, l).Some? <==> TableAt(m, r, u, l).Some? || (l >= lo && Prefix(l, u) == Prefix(l, v)))
  }

  /** The level-k page-table page of page v's path was added, and no other. */
  ghost predicate LaidOne(m: seq<Frame>, m': seq<Frame>, r: nat, v: nat, k: nat) {
    forall u, l: nat :: 0 <= u < MAXVPN && l <= 1 ==>
      (TableAt(m', r, u, l).Some? <==> TableAt(m, r, u, l).Some? || (l == k && Prefix(l, u) == Prefix(l, v)))
  }

  lemma DownStart(m: seq<Frame>, r: nat, v: nat)
    ensures LaidDown(m, m, r, v, 2)
  {
  }

  lemma DownStep(m: seq<Frame>, m1: seq<Frame>, m2: seq<Frame>, r: nat, v: nat, k: nat)
    requires k <= 1 && LaidDown(m, m1, r, v, k + 1) && LaidOne(m1, m2, r, v, k)
    ensures LaidDown(m, m2, r, v, k)
  {
    hide TableAt, Prefix;
  }

  lemma DownThere(m: seq<Frame>, m1: seq<Frame>, r: nat, v: nat, k: nat)
    requires k <= 1 && LaidDown(m, m1, r, v, k + 1) && TableAt(m1, r, v, k).Some?
    ensures LaidDown(m, m1, r, v, k)
  {
    hide TableAt, Prefix;
    forall u, l: nat | 0 <= u < MAXVPN && l <= 1
      ensures TableAt(m1, r, u, l).Some? <==> TableAt(m, r, u, l).Some? || (l >= k && Prefix(l, u) == Prefix(l, v))
    {
      if l == k && Prefix(l, u) == Prefix(l, v) { SamePath(m1, r, u, v, k); }
    }
  }

  lemma DownDone(m: seq<Frame>, m': seq<Frame>, r: nat, v: nat)
    requires LaidDown(m, m', r, v, 0)
    ensures Laid(m, m', r, v, 1)
  {
    hide TableAt, Prefix;
  }

  lemma OneNew(m: seq<Frame>, r: nat, v: nat)
    requires v < MAXVPN
    ensures NewTables(m, r, v, 1) == Missing(m, r, v)
  {
    LaidNone(m, r, v);
    NextCost(m, m, r, v, 0);
  }

  /** Owner and path: the tree has a page-table page for page u at level k exactly when a frame is one. */
  lemma TabsByOwner(s: Snap, s': Snap, r: nat, u: nat, k: nat, c: nat)
    requires Inv(s) && Inv(s') && IsRoot(s, r) && IsRoot(s', r) && u < MAXVPN && k <= 1
    requires c < |s.own| == |s'.own| && s.own[c] == Free && IsTab(s'.own[c], r)
    requires forall f :: 0 <= f < |s.own| && f != c && (s.own[f].Tab? || s'.own[f].Tab?) ==> s'.own[f] == s.own[f]
    ensures TableAt(s'.mem, r, u, k).Some? <==>
            TableAt(s.mem, r, u, k).Some? || (s'.own[c].level == k && s'.own[c].prefix == Prefix(k, u))
  {
    TableAtOwner(s, r, u, k);
    TableAtOwner(s', r, u, k);
    if TableAt(s.mem, r, u, k).Some? { OwnerTableAt(s', TableAt(s.mem, r, u, k).value, u); }
    if TableAt(s'.mem, r, u, k).Some? && TableAt(s'.mem, r, u, k).value != c {
      OwnerTableAt(s, TableAt(s'.mem, r, u, k).value, u);
    }
    if s'.own[c].level == k && s'.own[c].prefix == Prefix(k, u) { OwnerTableAt(s', c, u); }
  }

  /** Writes to level-0 page-table pages and to other frames leave the shape of the tree alone. */
  lemma SameShape(s: Snap, m: seq<Frame>, r: nat)
    requires Inv(s) && IsRoot(s, r) && |m| == |s.mem|
    requires forall f :: 0 <= f < |m| && IsTab(s.own[f], r) && s.own[f].level > 0 ==> m[f] == s.mem[f]
    ensures SameTabs(s.mem, m, r)
  {
    forall v, l: nat | 0 <= v < MAXVPN && l <= 1 ensures TableAt(m, r, v, l) == TableAt(s.mem, r, v, l) {
      TableAtFrame(s, m, r, v, l);
    }
  }

  // ---- trees that grow from nothing

  /** Below LOWVPN tree r has exactly the page-table pages that its n first pages need. */
  ghost predicate Tidy(m: seq<Frame>, r: nat, n: nat) {
    forall v, l: nat :: 0 <= v < LOWVPN && l <= 1 ==> (TableAt(m, r, v, l).Some? <==> Covers(0, n, v, l))
  }

  /** n pages, and the page-table pages for them: one for every 512, one for every 512 of those. */
  function TreeCost(n: nat): nat { n + (n + 511) / 512 + (n + 262143) / 262144 }

  lemma TidyGrows(m: seq<Frame>, m': seq<Frame>, r: nat, n: nat, d: nat)
    requires Tidy(m, r, n) && Laid(m, m', r, n, d)
    ensures Tidy(m', r, n + d)
  {
    hide TableAt, Prefix;
    forall v, l: nat | 0 <= v < LOWVPN && l <= 1 ensures TableAt(m', r, v, l).Some? <==> Covers(0, n + d, v, l) {
      CoversSplit(0, n, d, v, l);
      assert TableAt(m', r, v, l).Some? <==> TableAt(m, r, v, l).Some? || Covers(n, d, v, l);
    }
  }

  lemma TidySame(m: seq<Frame>, m': seq<Frame>, r: nat, n: nat)
    requires Tidy(m, r, n) && SameTabs(m, m', r)
    ensures Tidy(m', r, n)
  {
    hide TableAt, Covers;
  }

  /** Mapping a page at the top does not concern the lower part. */
  lemma TidyTop(m: seq<Frame>, m': seq<Frame>, r: nat, n: nat, v: nat)
    requires Tidy(m, r, n) && Laid(m, m', r, v, 1) && LOWVPN <= v < MAXVPN
    ensures Tidy(m', r, n)
  {
    hide TableAt;
    forall u, l: nat | 0 <= u < LOWVPN && l <= 1 ensures TableAt(m', r, u, l).Some? <==> Covers(0, n, u, l) {
      assert TableAt(m', r, u, l).Some? <==> TableAt(m, r, u, l).Some? || Covers(v, 1, u, l);
      assert !Covers(v, 1, u, l);
    }
  }

  /** A tree that was built up from nothing has taken TreeCost frames, and takes the rest. */
  lemma {:induction false} CostTidy(m: seq<Frame>, r: nat, v0: nat, n: nat)
    requires Tidy(m, r, v0) && v0 + n <= LOWVPN
    ensures TreeCost(v0) + Cost(m, r, v0, n) == TreeCost(v0 + n)
  {
    hide Tidy, Fresh, TreeCost, TableAt, Prefix;
    if n > 0 {
      CostTidy(m, r, v0, n - 1);
      FreshTidy(m, r, v0, n - 1, 0);
      FreshTidy(m, r, v0, n - 1, 1);
      TreeCostStep(v0 + n - 1);
    }
  }

  lemma FreshTidy(m: seq<Frame>, r: nat, v0: nat, k: nat, l: nat)
    requires Tidy(m, r, v0) && v0 + k < LOWVPN && l <= 1
    ensures Fresh(m, r, v0, k, l) == if (v0 + k) % (if l == 0 then 512 else 262144) == 0 then 1 else 0
  {
    var v := v0 + k;
    assert TableAt(m, r, v, l).Some? <==> Covers(0, v0, v, l);
    assert v > 0 && v % 512 == 0 ==> v / 512 == (v - 1) / 512 + 1;
    assert v > 0 && v % 262144 == 0 ==> v / 262144 == (v - 1) / 262144 + 1;
    assert v % 512 != 0 ==> v / 512 == (v - 1) / 512;
    assert v % 262144 != 0 ==> v / 262144 == (v - 1) / 262144;
    if v0 > 0 { PrefixMonotone(l, v0 - 1, v); }
  }

  lemma TreeCostStep(v: nat)
    ensures TreeCost(v + 1) == TreeCost(v) + 1 + (if v % 512 == 0 then 1 else 0) + (if v % 262144 == 0 then 1 else 0)
  {
    CeilSmall(v);
    CeilLarge(v);
  }

  lemma CeilSmall(v: nat)
    ensures (v + 512) / 512 == (v + 511) / 512 + if v % 512 == 0 then 1 else 0
  {
  }

  lemma CeilLarge(v: nat)
    ensures (v + 262144) / 262144 == (v + 262143) / 262144 + if v % 262144 == 0 then 1 else 0
  {
  }

  lemma TreeCostGrows(n: nat, d: nat)
    ensures TreeCost(n) + d <= TreeCost(n + d)
  {
    assert (n + 511) / 512 <= (n + d + 511) / 512;
    assert (n + 262143) / 262144 <= (n + d + 262143) / 262144;
  }
}
