/** The second half of exec.c: pushing the argument strings and the argv array onto the
    new stack, so that user code reads back exactly what was passed. */
module ExecArgs {
  import opened Types
  import opened Riscv
  import opened Phys
  import opened PhysUpdate
  import opened Kalloc
  import opened Vm
  import opened CopyUser
  import opened ProcMem

  const MAXARG: int := 32  // param.h is not part of this model

  // ---- reading user memory back

  /** The string t and its NUL are at user address va. */
  ghost predicate StringAt(m: seq<Frame>, r: nat, va: nat, t: seq<byte>) {
    forall a :: va <= a <= va + |t| ==> UByte(m, r, a) == Some(if a - va < |t| then t[a - va] else 0)
  }

  /** What copyinstr, given room, returns for it. */
  lemma StringNul(m: seq<Frame>, r: nat, va: nat, t: seq<byte>, p: nat)
    requires StringAt(m, r, va, t) && 0 !in t
    ensures NulAt(m, r, va, p) <==> p == |t|
  {
    hide UByte;
    if p < |t| { assert UByte(m, r, va + p) == Some(t[p]); }
    if p > |t| { assert UByte(m, r, va + |t|) == Some(0); }
  }

  /** The array at sp holds a pointer to each string of argv, in order, and then a null pointer. */
  ghost predicate ArgvAt(m: seq<Frame>, r: nat, sp: nat, argv: seq<seq<byte>>) {
    && UNum(m, r, sp + 8 * |argv|, 8) == Some(0)
    && forall i :: 0 <= i < |argv| ==>
         && UNum(m, r, sp + 8 * i, 8).Some?
         && StringAt(m, r, UNum(m, r, sp + 8 * i, 8).value, argv[i])
  }

  // ---- where things go

  function Down16(x: int): (r: int)
    ensures r % 16 == 0 && r <= x < r + 16
  {
    x - x % 16
  }

  /** The stack pointer after the first n strings. */
  function ArgTop(argv: seq<seq<byte>>, top: int, n: nat): int
    requires n <= |argv|
  {
    if n == 0 then top else Down16(ArgTop(argv, top, n - 1) - (|argv[n - 1]| + 1))
  }

  /** The stack pointer after the array of pointers. */
  function VecTop(argv: seq<seq<byte>>, top: int): int {
    Down16(ArgTop(argv, top, |argv|) - 8 * (|argv| + 1))
  }

  lemma {:induction false} ArgTopFalls(argv: seq<seq<byte>>, top: int, i: nat, n: nat)
    requires i <= n <= |argv|
    ensures ArgTop(argv, top, n) <= ArgTop(argv, top, i)
  {
    if i < n {
      ArgTopFalls(argv, top, i, n - 1);
    }
  }

  /** The stack pointers, exactly: each is the highest multiple of 16 that leaves room for the string and
      its NUL, and in the end for the pointers and the null pointer. */
  lemma PointersExact(argv: seq<seq<byte>>, top: int, i: nat)
    requires i < |argv|
    ensures ArgTop(argv, top, 0) == top
    ensures ArgTop(argv, top, i + 1) % 16 == 0
            && ArgTop(argv, top, i) - |argv[i]| - 17 < ArgTop(argv, top, i + 1) <= ArgTop(argv, top, i) - |argv[i]| - 1
    ensures VecTop(argv, top) % 16 == 0
            && ArgTop(argv, top, |argv|) - 8 * |argv| - 24 < VecTop(argv, top) <= ArgTop(argv, top,
                                                                                         |argv|) - 8 * |argv| - 8
  {
  }

  /** The final stack pointer is aligned, and string i lies above it, below what was pushed before. */
  lemma StackPointer(argv: seq<seq<byte>>, top: int, i: nat)
    requires i < |argv|
    ensures VecTop(argv, top) % 16 == 0 && VecTop(argv, top) + 8 * (|argv| + 1) <= ArgTop(argv, top, i + 1)
    ensures ArgTop(argv, top, i + 1) % 16 == 0
            && ArgTop(argv, top, i + 1) + |argv[i]| + 1 <= ArgTop(argv, top, i) <= top
  {
    ArgTopFalls(argv, top, 0, i);
    ArgTopFalls(argv, top, i + 1, |argv|);
  }

  // ---- writing

  /** The 64-bit words ws as bytes. */
  function Pack(ws: seq<nat>): (b: seq<byte>)
    ensures |b| == 8 * |ws|
  {
    if ws == [] then [] else Le(ws[0], 8) + Pack(ws[1..])
  }

  lemma {:induction false} PackAt(ws: seq<nat>, i: nat, j: nat)
    requires i < |ws| && j < 8
    ensures Pack(ws)[8 * i + j] == Le(ws[i], 8)[j]
  {
    if i > 0 {
      PackAt(ws[1..], i - 1, j);
      assert Pack(ws)[8 * i + j] == Pack(ws[1..])[8 * (i - 1) + j];
    }
  }

  /** Only bytes at user addresses lo <= a < hi of tree r changed. */
  ghost predicate Scribbled(s: Snap, s': Snap, r: nat, lo: nat, hi: nat) {
    && SameButPages(s, s', r)
    && (forall a: nat :: !(lo <= a < hi) ==> UByte(s'.mem, r, a) == UByte(s.mem, r, a))
  }

  lemma ScribbleNone(s: Snap, r: nat, lo: nat, hi: nat)
    requires Inv(s)
    ensures Scribbled(s, s, r, lo, hi)
  {
  }

  lemma ScribbleStep(s: Snap, s1: Snap, s2: Snap, r: nat, lo: nat, hi: nat, dst: nat, data: seq<byte>)
    requires Scribbled(s, s1, r, lo, hi) && Wrote(s1, s2, r, dst, data) && lo <= dst && dst + |data| <= hi
    ensures Scribbled(s, s2, r, lo, hi)
  {
    hide UByte, Lookup;
    forall r2, v | IsRoot(s, r2) && 0 <= v < MAXVPN ensures Lookup(s2.mem, r2, v) == Lookup(s.mem, r2, v) {
      assert IsRoot(s1, r2);
    }
  }

  lemma ScribbleNothing(s: Snap, s1: Snap, s2: Snap, r: nat, lo: nat, hi: nat, a: nat)
    requires Scribbled(s, s1, r, lo, hi) && Wrote(s1, s2, r, a, [])
    ensures Scribbled(s, s2, r, lo, hi)
  {
    hide UByte, Lookup;
    forall r2, v | IsRoot(s, r2) && 0 <= v < MAXVPN ensures Lookup(s2.mem, r2, v) == Lookup(s.mem, r2, v) {
      assert IsRoot(s1, r2);
    }
  }

  lemma ScribbleFacts(s: Snap, s': Snap, r: nat, lo: nat, hi: nat)
    requires Scribbled(s, s', r, lo, hi) && IsRoot(s, r)
    ensures IsRoot(s', r)
    ensures forall a: nat :: UserPage(s'.mem, r, a) == UserPage(s.mem, r, a)
  {
    hide UByte, Lookup;
  }

  /** What lies above a write stays. */
  lemma StringKept(s: Snap, s': Snap, r: nat, dst: nat, data: seq<byte>, va: nat, t: seq<byte>)
    requires Wrote(s, s', r, dst, data) && dst + |data| <= va && StringAt(s.mem, r, va, t)
    ensures StringAt(s'.mem, r, va, t)
  {
    hide UByte, SameMaps;
  }

  lemma StringWritten(s: Snap, s': Snap, r: nat, dst: nat, t: seq<byte>)
    requires Wrote(s, s', r, dst, t + [0])
    ensures StringAt(s'.mem, r, dst, t)
  {
    hide UByte, SameMaps;
  }

  lemma WordWritten(s: Snap, s': Snap, r: nat, dst: nat, ws: seq<uint64>, i: nat)
    requires Wrote(s, s', r, dst, Pack(ws)) && i < |ws|
    ensures UNum(s'.mem, r, dst + 8 * i, 8) == Some(ws[i])
  {
    EightBytes();
    hide UByte, SameMaps, Le, Pow256, UNum, Pack;
    forall a | dst + 8 * i <= a < dst + 8 * i + 8 ensures UByte(s'.mem, r, a) == Some(Le(ws[i], 8)[a - (dst + 8 * i)]) {
      PackAt(ws, i, a - (dst + 8 * i));
    }
    UNumIs(s'.mem, r, dst + 8 * i, 8, ws[i]);
  }

  /** The first |ws| strings are at the addresses ws, none of them below sp. */
  ghost predicate StringsAt(m: seq<Frame>, r: nat, ws: seq<nat>, argv: seq<seq<byte>>, sp: nat) {
    |ws| <= |argv| && forall i :: 0 <= i < |ws| ==> sp <= ws[i] && StringAt(m, r, ws[i], argv[i])
  }

  lemma StringsStep(s: Snap, s': Snap, r: nat, ws: seq<nat>, argv: seq<seq<byte>>, sp: nat, sp': nat)
    requires StringsAt(s.mem, r, ws, argv, sp) && |ws| < |argv|
    requires sp' + |argv[|ws|]| + 1 <= sp && Wrote(s, s', r, sp', argv[|ws|] + [0])
    ensures StringsAt(s'.mem, r, ws + [sp'], argv, sp')
  {
    hide Wrote, StringAt;
    StringWritten(s, s', r, sp', argv[|ws|]);
    forall i | 0 <= i < |ws| ensures StringAt(s'.mem, r, ws[i], argv[i]) {
      StringKept(s, s', r, sp', argv[|ws|] + [0], ws[i], argv[i]);
    }
  }

  lemma NoStrings(m: seq<Frame>, r: nat, argv: seq<seq<byte>>, sp: nat)
    ensures StringsAt(m, r, [], argv, sp)
  {
  }

  lemma LowerStrings(m: seq<Frame>, r: nat, ws: seq<nat>, argv: seq<seq<byte>>, sp: nat, lo: nat)
    requires StringsAt(m, r, ws, argv, sp) && lo <= sp
    ensures StringsAt(m, r, ws, argv, lo)
  {
  }

  lemma ArgvWritten(s: Snap, s': Snap, r: nat, sp: nat, ws: seq<uint64>, argv: seq<seq<byte>>)
    requires |ws| == |argv| + 1 && ws[|argv|] == 0 && Wrote(s, s', r, sp, Pack(ws))
    requires StringsAt(s.mem, r, ws[..|argv|], argv, sp + 8 * |ws|)
    ensures ArgvAt(s'.mem, r, sp, argv)
  {
    hide Wrote, StringAt, UNum, StringsAt, Pack;
    WordWritten(s, s', r, sp, ws, |argv|);
    forall i | 0 <= i < |argv|
      ensures UNum(s'.mem, r, sp + 8 * i, 8).Some? && StringAt(s'.mem, r, UNum(s'.mem, r, sp + 8 * i, 8).value, argv[i])
    {
      WordWritten(s, s', r, sp, ws, i);
      StringOf(s.mem, r, ws[..|argv|], argv, sp + 8 * |ws|, i);
      StringKept(s, s', r, sp, Pack(ws), ws[i], argv[i]);
    }
  }

  lemma StringOf(m: seq<Frame>, r: nat, ws: seq<nat>, argv: seq<seq<byte>>, sp: nat, i: nat)
    requires StringsAt(m, r, ws, argv, sp) && i < |ws|
    ensures |ws| <= |argv| && sp <= ws[i] && StringAt(m, r, ws[i], argv[i])
  {
  }

  /** copyout into the stack page, where it cannot fail. */
  method CopyToStack(k: Kmem, pagetable: nat, sp: uint64, data: seq<byte>, base: nat, top: nat) returns (r: int)
    requires Inv(k.G()) && IsRoot(k.G(), pagetable) && |data| < 0x1_0000_0000 && 0 < |data| && base <= sp
    requires forall a :: base <= a < top ==> UserPage(k.mem[..], pagetable, a) != 0
    modifies k, k.mem
    ensures Inv(k.G()) && (sp + |data| <= top ==> r == 0 && Wrote(old(k.G()), k.G(), pagetable, sp, data))
    ensures sp >= MAXVA ==> r == -1 && Wrote(old(k.G()), k.G(), pagetable, sp, [])
  {
    hide Inv, Wrote, UByte, UserPage;
    ghost var s, done := k.G(), 0;
    r, done := Copyout(k, pagetable, sp, data);
    if sp + |data| <= top && done < |data| {
      UByteSome(s, pagetable, sp + done);
      assert false;
    }
    if sp >= MAXVA && done > 0 {
      assert UByte(s.mem, pagetable, sp).Some?;
      UByteSome(s, pagetable, sp);
      BelowTop(s, pagetable, sp);
      assert false;
    }
    assert done == |data| ==> data[..done] == data;
    assert done == 0 ==> data[..done] == [];
  }

  /** One string: it fits exactly when the aligned new stack pointer stays above the base. */
  method PushString(k: Kmem, pagetable: nat, t: seq<byte>, sp0: uint64, stackbase: uint64, top: uint64)
    returns (ok: bool, sp: uint64)
    requires Inv(k.G()) && IsRoot(k.G(), pagetable) && |t| < 0x7FFF_FFFF && 0 < stackbase <= sp0 <= top < MAXVA
    requires forall a :: stackbase <= a < top ==> UserPage(k.mem[..], pagetable, a) != 0
    modifies k, k.mem
    ensures Inv(k.G())
    ensures ok <==> Down16(sp0 - (|t| + 1)) >= stackbase
    ensures ok ==> sp == Down16(sp0 - (|t| + 1)) && Wrote(old(k.G()), k.G(), pagetable, sp, t + [0])
    ensures !ok ==> exists a: nat :: Wrote(old(k.G()), k.G(), pagetable, a, [])
  {
    hide Inv, Wrote, UByte, UserPage, IsRoot;
    WroteNone(k.G(), pagetable, 0);
    sp := (sp0 - (|t| + 1)) % 0x1_0000_0000_0000_0000;
    sp := sp - sp % 16;
    if sp < stackbase { return false, sp; }
    var c := CopyToStack(k, pagetable, sp, t + [0], stackbase, top);
    return c >= 0, sp;
  }

  /** The loop that pushes the strings and collects their addresses in ustack. */
  method PushStrings(k: Kmem, pagetable: nat, argv: seq<seq<byte>>, ustack: array<uint64>, top: uint64)
    returns (ok: bool, sp: uint64)
    requires Inv(k.G()) && IsRoot(k.G(), pagetable) && 2 * PGSIZE <= top < MAXVA && ustack.Length == MAXARG
    requires forall i :: 0 <= i < |argv| ==> |argv[i]| < 0x7FFF_FFFF  // strlen returns an int
    requires forall a :: top - PGSIZE <= a < top ==> UserPage(k.mem[..], pagetable, a) != 0
    modifies k, k.mem, ustack
    ensures Inv(k.G()) && Scribbled(old(k.G()), k.G(), pagetable, top - PGSIZE, top)
    ensures ok <==> |argv| <= MAXARG && ArgTop(argv, top, |argv|) >= top - PGSIZE
    ensures ok ==> sp == ArgTop(argv, top, |argv|) <= top
    ensures ok ==> StringsAt(k.mem[..], pagetable, ustack[..|argv|], argv, sp)
  {
    hide Inv, Scribbled, Wrote, UByte, UserPage, StringsAt, IsRoot;
    NoStrings(k.mem[..], pagetable, argv, top);
    sp := top;
    var stackbase: uint64 := sp - PGSIZE;
    var argc := 0;
    ghost var s0 := k.G();
    ScribbleNone(s0, pagetable, stackbase, top);
    while argc < |argv|
      invariant 0 <= argc <= |argv| && argc <= MAXARG && stackbase <= sp <= top && sp == ArgTop(argv, top, argc)
      invariant Inv(k.G()) && Scribbled(s0, k.G(), pagetable, stackbase, top)
      invariant StringsAt(k.mem[..], pagetable, ustack[..argc], argv, sp)
    {
      ArgTopFalls(argv, top, argc + 1, |argv|);
      if argc >= MAXARG { return false, sp; }
      ghost var s1 := k.G();
      ScribbleFacts(s0, s1, pagetable, stackbase, top);
      var ok, sp1 := PushString(k, pagetable, argv[argc], sp, stackbase, top);
      if !ok {
        ghost var a: nat :| Wrote(s1, k.G(), pagetable, a, []);
        ScribbleNothing(s0, s1, k.G(), pagetable, stackbase, top, a);
        return false, sp;
      }
      ScribbleStep(s0, s1, k.G(), pagetable, stackbase, top, sp1, argv[argc] + [0]);
      StringsStep(s1, k.G(), pagetable, ustack[..argc], argv, sp, sp1);
      sp := sp1;
      ustack[argc] := sp;
      argc := argc + 1;
      assert ustack[..argc] == ustack[..argc - 1] + [sp];
    }
    return true, sp;
  }

  datatype Pushed = Sp(sp: nat) | NoFit | Overrun

  /** Both pushes.  They fit exactly when everything stays above the base of the stack
      page.  With exactly MAXARG strings the code stores the null pointer one word past
      the end of ustack. */
  method PushArgs(k: Kmem, pagetable: nat, argv: seq<seq<byte>>, top: uint64) returns (r: Pushed)
    requires Inv(k.G()) && IsRoot(k.G(), pagetable) && 2 * PGSIZE <= top < MAXVA
    requires forall i :: 0 <= i < |argv| ==> |argv[i]| < 0x7FFF_FFFF
    requires forall a :: top - PGSIZE <= a < top ==> UserPage(k.mem[..], pagetable, a) != 0
    modifies k, k.mem
    ensures Inv(k.G()) && Scribbled(old(k.G()), k.G(), pagetable, top - PGSIZE, top)
    ensures r.Sp? <==> |argv| < MAXARG && VecTop(argv, top) >= top - PGSIZE
    ensures r.Overrun? <==> |argv| == MAXARG && ArgTop(argv, top, MAXARG) >= top - PGSIZE
    ensures r.Sp? ==> r.sp == VecTop(argv, top) <= top && ArgvAt(k.mem[..], pagetable, r.sp, argv)
  {
    hide Inv, Scribbled, Wrote, UByte, UserPage, StringsAt, ArgvAt, Pack, IsRoot, ArgTop;
    var sp: uint64, stackbase: uint64 := top, top - PGSIZE;
    var ustack := new uint64[MAXARG];
    var ok: bool;
    ghost var s0 := k.G();
    ok, sp := PushStrings(k, pagetable, argv, ustack, top);
    if !ok { return NoFit; }
    var argc := |argv|;
    if argc == MAXARG { return Overrun; }
    ustack[argc] := 0;
    sp := sp - (argc + 1) * 8;
    sp := sp - sp % 16;
    if sp < stackbase { return NoFit; }
    ghost var s1, ws := k.G(), ustack[..argc + 1];
    ScribbleFacts(s0, s1, pagetable, stackbase, top);
    var c := CopyToStack(k, pagetable, sp, Pack(ustack[..argc + 1]), stackbase, top);
    if c < 0 { assert false; }
    ScribbleStep(s0, s1, k.G(), pagetable, stackbase, top, sp, Pack(ws));
    assert ws[..|argv|] == ustack[..|argv|];
    LowerStrings(s1.mem, pagetable, ws[..|argv|], argv, ArgTop(argv, top, |argv|), sp + 8 * |ws|);
    ArgvWritten(s1, k.G(), pagetable, sp, ws, argv);
    return Sp(sp);
  }
}
