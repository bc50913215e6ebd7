/** primes.c: a chain of processes connected by pipes that sieves the numbers 2 to n, for
    any n in place of 35.  A step is one read, write, close, fork, print or wait by any
    process; reads and writes of an int are atomic, and pipe and fork succeed. */
module Sieve {
  import opened Types

  /** A pipe, with everything ever written to it and how much of that was read.  Its write
      end is open in the process that made it and, until it closes it, in the child. */
  datatype Pipe = Pipe(sent: seq<int>, got: nat, parentOpen: bool, childOpen: bool)

  /** Where a process is in main or in sieve. */
  datatype Phase =
    | Begin                        // main, before pipe and fork
    | Feed(num: int)               // main's loop
    | Opening                      // a new child, before close(pipe_fd[WRITE])
    | First                        // reading the prime
    | Announce(prime: int)         // fprintf
    | Forking(prime: int)          // pipe and fork
    | Read(prime: int)             // the filter loop
    | Write(prime: int, num: int)
    | Close
    | Wait
    | Exited

  /** Process 0 is main; process k writes pipe k, which process k + 1 reads. */
  datatype Net = Net(n: nat, cap: nat, procs: seq<Phase>, pipes: seq<Pipe>, out: seq<int>)

  predicate Empty(p: Pipe) { p.got >= |p.sent| }

  /** read returns 0. */
  predicate Eof(p: Pipe) { Empty(p) && !p.parentOpen && !p.childOpen }

  predicate HasRoom(p: Pipe, cap: nat) { |p.sent| < p.got + cap }

  function Pulled(p: Pipe): Pipe { p.(got := p.got + 1) }

  function Put(p: Pipe, x: int): Pipe { p.(sent := p.sent + [x]) }

  function To(w: Net, k: nat, ph: Phase): Net
    requires k < |w.procs|
  {
    w.(procs := w.procs[k := ph])
  }

  function WithPipe(w: Net, k: nat, p: Pipe): Net
    requires k < |w.pipes|
  {
    w.(pipes := w.pipes[k := p])
  }

  /** pipe and fork: a new pipe whose write end parent and child hold, and a new process. */
  function Spawned(w: Net): Net {
    w.(pipes := w.pipes + [Pipe([], 0, true, true)], procs := w.procs + [Opening])
  }

  /** One step of process k, if it can make one. */
  function Step(w: Net, k: nat): Option<Net>
    requires k < |w.procs|
  {
    match w.procs[k]
    case Begin => Some(Spawned(To(w, k, Feed(2))))
    case Feed(num) =>
      if num > w.n then Some(To(w, k, Close))
      else if k < |w.pipes| && HasRoom(w.pipes[k], w.cap) then
        Some(WithPipe(To(w, k, Feed(num + 1)), k, Put(w.pipes[k], num)))
      else None
    case Opening =>
      if 0 < k <= |w.pipes| then Some(WithPipe(To(w, k, First), k - 1, w.pipes[k - 1].(childOpen := false))) else None
    case First =>
      if !(0 < k <= |w.pipes|) then None
      else if !Empty(w.pipes[k - 1]) then
        Some(WithPipe(To(w, k, Announce(w.pipes[k - 1].sent[w.pipes[k - 1].got])), k - 1, Pulled(w.pipes[k - 1])))
      else if Eof(w.pipes[k - 1]) then Some(To(w, k, Exited))
      else None
    case Announce(p) => Some(To(w, k, Forking(p)).(out := w.out + [p]))
    case Forking(p) => Some(Spawned(To(w, k, Read(p))))
    case Read(p) =>
      if !(0 < k <= |w.pipes|) || p == 0 then None
      else if !Empty(w.pipes[k - 1]) then
        var num := w.pipes[k - 1].sent[w.pipes[k - 1].got];
        Some(WithPipe(To(w, k, if num % p != 0 then Write(p, num) else Read(p)), k - 1, Pulled(w.pipes[k - 1])))
      else if Eof(w.pipes[k - 1]) then Some(To(w, k, Close))
      else None
    case Write(p, num) =>
      if k < |w.pipes| && HasRoom(w.pipes[k], w.cap) then Some(WithPipe(To(w, k, Read(p)), k, Put(w.pipes[k], num)))
      else None
    case Close =>
      if k < |w.pipes| then Some(WithPipe(To(w, k, Wait), k, w.pipes[k].(parentOpen := false))) else None
    case Wait => if k + 1 < |w.procs| && w.procs[k + 1] == Exited then Some(To(w, k, Exited)) else None
    case Exited => None
  }

  // ---- what the numbers should be

  /** a, a + 1, ..., b */
  function Range(a: int, b: int): (s: seq<int>)
    ensures |s| == (if b < a then 0 else b - a + 1)
    ensures forall i :: 0 <= i < |s| ==> s[i] == a + i
    decreases b - a
  {
    if b < a then [] else Range(a, b - 1) + [b]
  }

  /** The elements of s that p does not divide. */
  function Strained(s: seq<int>, p: int): seq<int>
    requires p != 0
  {
    if s == [] then []
    else Strained(s[..|s| - 1], p) + if s[|s| - 1] % p != 0 then [s[|s| - 1]] else []
  }

  /** What a stage that reads s passes on. */
  function Filtered(s: seq<int>): seq<int> {
    if s == [] || s[0] == 0 then [] else Strained(s[1..], s[0])
  }

  /** What stage k should read: pipe k - 1 carries this. */
  function Stream(n: int, k: nat): seq<int> {
    if k == 0 then Range(2, n) else Filtered(Stream(n, k - 1))
  }

  predicate IsPrime(x: int) { x >= 2 && forall d :: 2 <= d < x ==> x % d != 0 }

  /** The primes up to n in increasing order. */
  function Primes(n: int): seq<int>
    decreases n
  {
    if n < 2 then [] else Primes(n - 1) + if IsPrime(n) then [n] else []
  }

  // ---- straining

  lemma {:induction false} StrainedPlus(s: seq<int>, t: seq<int>, p: int)
    requires p != 0
    ensures Strained(s + t, p) == Strained(s, p) + Strained(t, p)
  {
    if t == [] {
      assert s + t == s;
    } else {
      var n := |t| - 1;
      assert (s + t)[..|s + t| - 1] == s + t[..n];
      StrainedPlus(s, t[..n], p);
    }
  }

  lemma {:induction false} StrainedShorter(s: seq<int>, p: int)
    requires p != 0
    ensures |Strained(s, p)| <= |s|
  {
    if s != [] { StrainedShorter(s[..|s| - 1], p); }
  }

  lemma {:induction false} StrainedOf(s: seq<int>, p: int, x: int)
    requires p != 0
    ensures x in Strained(s, p) <==> x in s && x % p != 0
  {
    if s != [] {
      StrainedOf(s[..|s| - 1], p, x);
      assert s == s[..|s| - 1] + [s[|s| - 1]];
    }
  }

  /** A prefix in, a prefix out. */
  lemma FilteredPrefix(s: seq<int>, t: seq<int>)
    requires s <= t && s != [] && s[0] != 0
    ensures Strained(s[1..], s[0]) <= Filtered(t)
  {
    assert t[1..] == s[1..] + t[|s|..];
    StrainedPlus(s[1..], t[|s|..], s[0]);
  }

  // ---- the streams are those of the sieve of Eratosthenes

  /** No number from 2 up to but not including m divides x. */
  predicate Survives(x: int, m: int) { forall d :: 2 <= d < m ==> x % d != 0 }

  /** The numbers from m to n that no number below m divides. */
  function Survivors(m: int, n: int): seq<int>
    decreases n
  {
    if n < m || n < 2 then [] else Survivors(m, n - 1) + if Survives(n, m) then [n] else []
  }

  lemma {:induction false} SurvivorsRange(n: int)
    ensures Survivors(2, n) == Range(2, n)
    decreases n
  {
    if n >= 2 { SurvivorsRange(n - 1); }
  }

  /** Straining the survivors of m by a prime m leaves those of m + 1. */
  lemma {:induction false} StrainSurvivors(m: int, n: int)
    requires m >= 2
    ensures n >= m && Survives(m, m) ==>
              Survivors(m, n) != [] && Survivors(m, n)[0] == m && Filtered(Survivors(m, n)) == Survivors(m + 1, n)
    decreases n
  {
    if n >= m && Survives(m, m) {
      if n == m {
        assert Survivors(m, n) == [m];
        assert Survivors(m + 1, n) == [];
      } else {
        StrainSurvivors(m, n - 1);
        var s := Survivors(m, n - 1);
        var last := if Survives(n, m) then [n] else [];
        assert Survivors(m, n) == s + last;
        assert (s + last)[1..] == s[1..] + last;
        StrainedPlus(s[1..], last, m);
        assert Survives(n, m + 1) <==> Survives(n, m) && n % m != 0;
        assert Strained([n], m) == if n % m != 0 then [n] else [] by { assert [n][..0] == []; }
      }
    }
  }

  /** Nothing new falls through at a composite m: one of its factors was there before. */
  lemma {:induction false} SkipComposite(m: int, n: int)
    requires m >= 2 && !Survives(m, m)
    ensures Survivors(m, n) == Survivors(m + 1, n)
    decreases n
  {
    if n >= m {
      SkipComposite(m, n - 1);
      if n > m {
        var d :| 2 <= d < m && m % d == 0;
        if n % m == 0 { DividesTrans(d, m, n); }
        assert Survives(n, m + 1) <==> Survives(n, m) && n % m != 0;
      }
    }
  }

  lemma DividesTrans(d: int, m: int, n: int)
    requires d > 0 && m > 0 && m % d == 0 && n % m == 0
    ensures n % d == 0
  {
    var a, b := m / d, n / m;
    assert n == m * b && m == d * a;
    assert n == d * (a * b) by { assert (d * a) * b == d * (a * b); }
    ModMultiple(d, a * b);
  }

  lemma ModMultiple(d: int, a: int)
    requires d > 0
    ensures (d * a) % d == 0
  {
    var q, r := (d * a) / d, (d * a) % d;
    var k := a - q;
    assert d * k == d * a - d * q == r;
    assert k >= 1 ==> d * k >= d;
    assert k <= -1 ==> d * k <= -d;
  }

  /** What the stages announce when the first of them reads s: its first element, then
      what the rest of the chain announces. */
  function Heads(s: seq<int>): seq<int>
    decreases |s|
  {
    if s == [] || s[0] == 0 then [] else
    StrainedShorter(s[1..], s[0]);
    [s[0]] + Heads(Filtered(s))
  }

  /** The primes from m to n. */
  function PrimesFrom(m: int, n: int): seq<int>
    decreases n - m
  {
    if n < m then [] else (if IsPrime(m) then [m] else []) + PrimesFrom(m + 1, n)
  }

  lemma {:induction false} HeadsOfSurvivors(m: int, n: int)
    requires m >= 2
    ensures Heads(Survivors(m, n)) == PrimesFrom(m, n)
    decreases n - m
  {
    if n < m {
      assert Survivors(m, n) == [];
    } else {
      HeadsOfSurvivors(m + 1, n);
      if Survives(m, m) { StrainSurvivors(m, n); } else { SkipComposite(m, n); }
    }
  }

  lemma {:induction false} PrimesFromGrows(m: int, n: int)
    requires m <= n
    ensures PrimesFrom(m, n) == PrimesFrom(m, n - 1) + if IsPrime(n) then [n] else []
    decreases n - m
  {
    if m < n {
      PrimesFromGrows(m + 1, n);
    } else {
      assert PrimesFrom(n + 1, n) == [];
    }
  }

  lemma {:induction false} PrimesAreFrom(n: int)
    ensures Primes(n) == PrimesFrom(2, n)
    decreases n
  {
    if n >= 2 {
      PrimesAreFrom(n - 1);
      PrimesFromGrows(2, n);
    }
  }

  /** The chain's announcements, taken as a function of its input, are the primes. */
  lemma HeadsArePrimes(n: int)
    ensures Heads(Range(2, n)) == Primes(n)
  {
    SurvivorsRange(n);
    HeadsOfSurvivors(2, n);
    PrimesAreFrom(n);
  }
}
