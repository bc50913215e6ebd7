/** The results about primes.c: whatever the order of the steps, the network neither gets
    stuck nor runs forever, and its output is the primes in order. */
module SieveResult {
  import opened Types
  import opened Sieve
  import opened SieveRun

  ghost predicate Reachable(w: Net) {
    exists run :: run != [] && IsRun(run, w.n, w.cap) && run[|run| - 1] == w
  }

  lemma ReachableInv(w: Net)
    requires Reachable(w) && w.cap >= 1
    ensures Inv(w)
  {
    hide Inv, IsRun;
    var run :| run != [] && IsRun(run, w.n, w.cap) && run[|run| - 1] == w;
    RunInv(run, w.n, w.cap);
  }

  // ---- what has been written is a prefix of the stream, and all of it once the pipe is closed

  lemma {:induction false} SentPrefix(w: Net, k: nat)
    requires Inv(w) && k < |w.pipes|
    ensures w.pipes[k].sent <= Stream(w.n, k)
    ensures w.procs[k] == Close || w.procs[k] == Wait || w.procs[k] == Exited ==> w.pipes[k].sent == Stream(w.n, k)
  {
    if k == 0 {
      MainPrefix(w);
    } else {
      SentPrefix(w, k - 1);
      assert StageOk(w, k) && PipeOk(w, k - 1);
      StagePrefix(w, k, Stream(w.n, k - 1));
    }
  }

  lemma MainPrefix(w: Net)
    requires Inv(w) && |w.pipes| > 0
    ensures w.pipes[0].sent <= Range(2, w.n)
    ensures w.procs[0] == Close || w.procs[0] == Wait || w.procs[0] == Exited ==> w.pipes[0].sent == Range(2, w.n)
  {
  }

  lemma StagePrefix(w: Net, k: nat, s: seq<int>)
    requires 0 < k < |w.pipes| && |w.procs| == |w.pipes| + 1 && StageOk(w, k) && PipeOk(w, k - 1)
    requires w.pipes[k - 1].sent <= s
             && (w.procs[k - 1] == Wait || w.procs[k - 1] == Exited ==> w.pipes[k - 1].sent == s)
    ensures w.pipes[k].sent <= Filtered(s)
    ensures w.procs[k] == Close || w.procs[k] == Wait || w.procs[k] == Exited ==> w.pipes[k].sent == Filtered(s)
  {
    var p := w.pipes[k - 1];
    if w.procs[k].Read? || w.procs[k].Write? {
      assert p.sent[..p.got][1..] == p.sent[1..p.got];
      FilteredPrefix(p.sent[..p.got], s);
    }
  }

  // ---- the pipes

  ghost predicate Bounded(w: Net) { forall k :: 0 <= k < |w.pipes| ==> |w.pipes[k].sent| <= w.pipes[k].got + w.cap }

  /** No pipe ever holds more numbers than it has room for: a writer waits while its pipe is full. */
  lemma PipeBound(w: Net, k: nat)
    requires Reachable(w) && k < |w.pipes|
    ensures |w.pipes[k].sent| - w.pipes[k].got <= w.cap
  {
    var run :| run != [] && IsRun(run, w.n, w.cap) && run[|run| - 1] == w;
    RunBounded(run, w.n, w.cap);
  }

  lemma {:induction false} RunBounded(run: seq<Net>, n: nat, cap: nat)
    requires IsRun(run, n, cap)
    ensures Bounded(run[|run| - 1]) && run[|run| - 1].cap == cap
  {
    hide Step, Bounded;
    var last := |run| - 1;
    if last == 0 {
      NoPipes(n, cap);
    } else {
      RunBounded(run[..last], n, cap);
      assert Next(run[last - 1], run[last]);
      var k: nat :| k < |run[last - 1].procs| && Step(run[last - 1], k) == Some(run[last]);
      StepBounded(run[last - 1], k);
    }
  }

  lemma NoPipes(n: nat, cap: nat)
    ensures Bounded(Start(n, cap))
  {
  }

  lemma StepBounded(w: Net, k: nat)
    requires Bounded(w) && k < |w.procs| && Step(w, k).Some?
    ensures Bounded(Step(w, k).value) && Step(w, k).value.cap == w.cap
  {
  }

  // ---- the output

  lemma {:induction false} HeadsAt(n: int, i: nat)
    requires forall j :: 0 <= j < i ==> Stream(n, j) != [] && Stream(n, j)[0] != 0
    ensures i <= |Heads(Stream(n, 0))| && Heads(Stream(n, 0))[i..] == Heads(Stream(n, i))
  {
    if i > 0 {
      HeadsAt(n, i - 1);
      NextHead(n, i - 1);
      hide Heads, Stream;
      assert Heads(Stream(n, 0))[i..] == Heads(Stream(n, 0))[i - 1..][1..];
    }
  }

  lemma NextHead(n: int, i: nat)
    requires Stream(n, i) != [] && Stream(n, i)[0] != 0
    ensures Heads(Stream(n, i)) == [Stream(n, i)[0]] + Heads(Stream(n, i + 1))
  {
  }

  lemma OutStreams(w: Net, i: nat)
    requires Inv(w) && i < |w.out|
    ensures Stream(w.n, i) != [] && Stream(w.n, i)[0] == w.out[i] >= 2
  {
    SentPrefix(w, i);
    assert PipeOk(w, i);
  }

  /** The i-th prime announced is the i-th head. */
  lemma OutIsHeads(w: Net, i: nat)
    requires Inv(w) && i <= |w.out|
    ensures i <= |Heads(Range(2, w.n))| && Heads(Range(2, w.n))[i..] == Heads(Stream(w.n, i))
    ensures i < |w.out| ==> i < |Heads(Range(2, w.n))| && Heads(Range(2, w.n))[i] == w.out[i]
  {
    forall j | 0 <= j < i ensures Stream(w.n, j) != [] && Stream(w.n, j)[0] != 0 { OutStreams(w, j); }
    HeadsAt(w.n, i);
    if i < |w.out| {
      OutStreams(w, i);
      assert Heads(Stream(w.n, i))[0] == w.out[i];
      assert Heads(Range(2, w.n))[i..][0] == w.out[i];
    }
  }

  /** At any time, on any interleaving, what has been printed is an initial part of the
      primes up to n, in increasing order. */
  lemma OutputIsPrefix(w: Net)
    requires Reachable(w) && w.cap >= 1
    ensures w.out <= Primes(w.n)
  {
    ReachableInv(w);
    HeadsArePrimes(w.n);
    hide Inv, Heads, Primes;
    forall i: nat | i < |w.out| ensures i < |Primes(w.n)| && Primes(w.n)[i] == w.out[i] { OutIsHeads(w, i); }
    OutIsHeads(w, |w.out|);
  }

  // ---- no deadlock

  /** When the writer has not closed an empty pipe, it or a process before it can go on. */
  lemma {:induction false} Starving(w: Net, k: nat) returns (j: nat)
    requires Inv(w) && k < |w.pipes| && Empty(w.pipes[k]) && w.procs[k] != Wait && w.procs[k] != Exited
    ensures CanStep(w, j)
  {
    assert PipeOk(w, k);
    if k == 0 {
      j := 0;
    } else {
      assert StageOk(w, k) && PipeOk(w, k - 1);
      if w.procs[k].Read? && Empty(w.pipes[k - 1]) && !Eof(w.pipes[k - 1]) {
        j := Starving(w, k - 1);
      } else {
        j := k;
      }
    }
  }

  /** If every process from k on has exited and nobody can make a step, all have exited. */
  lemma {:induction false} ExitsCascade(w: Net, k: nat)
    requires Inv(w) && w != Start(w.n, w.cap) && k < |w.procs| && w.procs[k] == Exited
    requires forall j :: 0 <= j < |w.procs| ==> !CanStep(w, j)
    ensures forall j :: 0 <= j <= k ==> w.procs[j] == Exited
  {
    if k > 0 {
      assert StageOk(w, k) && PipeOk(w, k - 1);
      assert !CanStep(w, k - 1);
      ExitsCascade(w, k - 1);
    }
  }

  lemma {:induction false} AllExited(w: Net)
    requires Inv(w) && forall j :: 0 <= j < |w.procs| ==> !CanStep(w, j)
    ensures |w.pipes| > 0 && forall j :: 0 <= j < |w.procs| ==> w.procs[j] == Exited
  {
    if w == Start(w.n, w.cap) {
      var here := CanStep(w, 0);
      assert false;
    } else {
      var last := |w.procs| - 1;
      assert StageOk(w, last) && PipeOk(w, last - 1);
      assert !CanStep(w, last);
      if w.procs[last] == First {
        var j := Starving(w, last - 1);
        assert false;
      }
      ExitsCascade(w, last);
    }
  }

  /** There is no deadlock: as long as main has not exited, some process can make a step. */
  lemma NoDeadlock(w: Net)
    requires Reachable(w) && w.cap >= 1 && w.procs != [] && w.procs[0] != Exited
    ensures exists k :: 0 <= k && CanStep(w, k)
  {
    ReachableInv(w);
    if forall j :: 0 <= j < |w.procs| ==> !CanStep(w, j) {
      AllExited(w);
    }
  }

  /** main exits last, so the shell's prompt comes after the last prime. */
  lemma {:induction false} MainExitsLast(w: Net, k: nat)
    requires Reachable(w) && w.cap >= 1 && k < |w.procs| && w.procs[0] == Exited
    ensures w.procs[k] == Exited
  {
    ReachableInv(w);
    if k > 0 {
      MainExitsLast(w, k - 1);
      if k > 1 { assert StageOk(w, k - 1); }
    }
  }

  /** When nothing more can happen, exactly the primes up to n have been printed, in
      increasing order: the output does not depend on the schedule. */
  lemma FinalOutput(w: Net)
    requires Reachable(w) && w.cap >= 1
    requires forall j :: 0 <= j < |w.procs| ==> !CanStep(w, j)
    ensures w.out == Primes(w.n) && forall j :: 0 <= j < |w.procs| ==> w.procs[j] == Exited
  {
    ReachableInv(w);
    AllExited(w);
    HeadsArePrimes(w.n);
    OutputIsPrefix(w);
    var last := |w.procs| - 1;
    assert StageOk(w, last);
    SentPrefix(w, last - 1);
    assert Stream(w.n, last - 1) == [];
    OutIsHeads(w, last - 1);
    assert |w.out| == last - 1;
    assert Heads(Stream(w.n, last - 1)) == [];
  }

  // ---- termination

  /** How far process k has come. */
  function Progress(w: Net, k: nat): nat
    requires k < |w.procs|
  {
    match w.procs[k]
    case Begin => 0
    case Feed(num) => if num >= 1 then num - 1 else 0
    case Opening => 0
    case First => 1
    case Announce(_) => 2
    case Forking(_) => 3
    case Read(_) => 4 + 2 * Got(w, k)
    case Write(_, _) => 3 + 2 * Got(w, k)
    case Close => 2 * w.n + 5
    case Wait => 2 * w.n + 6
    case Exited => 2 * w.n + 7
  }

  function Got(w: Net, k: nat): nat { if 0 < k <= |w.pipes| then w.pipes[k - 1].got else 0 }

  function Total(w: Net, m: nat): nat
    requires m <= |w.procs|
  {
    if m == 0 then 0 else Total(w, m - 1) + Progress(w, m - 1)
  }

  /** A step moves its own process ahead and sets no other back. */
  lemma StepProgress(w: Net, k: nat, j: nat)
    requires Inv(w) && k < |w.procs| && Step(w, k).Some? && j < |w.procs|
    ensures |Step(w, k).value.procs| >= |w.procs|
    ensures Progress(Step(w, k).value, j) >= Progress(w, j)
    ensures j == k ==> Progress(Step(w, k).value, j) > Progress(w, j)
  {
    if w != Start(w.n, w.cap) {
      if k > 0 { GotBound(w, k); }
    }
    hide Inv;
    if j == k { OwnProgress(w, k); } else { OthersProgress(w, k, j); }
  }

  lemma OwnProgress(w: Net, k: nat)
    requires k < |w.procs| && Step(w, k).Some?
    requires w != Start(w.n, w.cap) ==>
               && 0 < |w.pipes| && |w.procs| == |w.pipes| + 1
               && if k == 0 then MainOk(w) else StageOk(w, k) && Got(w, k) <= w.n
    ensures |Step(w, k).value.procs| >= |w.procs|
    ensures Progress(Step(w, k).value, k) > Progress(w, k)
  {
  }

  lemma OthersProgress(w: Net, k: nat, j: nat)
    requires k < |w.procs| && Step(w, k).Some? && j < |w.procs| && j != k
    ensures |Step(w, k).value.procs| >= |w.procs|
    ensures Progress(Step(w, k).value, j) >= Progress(w, j)
  {
  }

  /** At most n - 1 numbers go through any pipe. */
  lemma {:induction false} StreamShrinks(n: nat, k: nat)
    ensures Stream(n, k) != [] ==> |Stream(n, k)| + k < n
  {
    if k > 0 {
      StreamShrinks(n, k - 1);
      var s := Stream(n, k - 1);
      if s != [] && s[0] != 0 { StrainedShorter(s[1..], s[0]); }
    }
  }

  lemma GotBound(w: Net, k: nat)
    requires Inv(w) && w != Start(w.n, w.cap) && 0 < k < |w.procs|
    ensures Got(w, k) <= w.n && StageOk(w, k)
  {
    assert StageOk(w, k) && PipeOk(w, k - 1);
    hide StageOk;
    SentPrefix(w, k - 1);
    StreamShrinks(w.n, k - 1);
  }

  lemma {:induction false} TotalGrows(w: Net, k: nat, m: nat)
    requires Inv(w) && k < |w.procs| && Step(w, k).Some? && m <= |w.procs|
    ensures |Step(w, k).value.procs| >= |w.procs|
    ensures Total(Step(w, k).value, m) >= Total(w, m) + if k < m then 1 else 0
  {
    hide Inv, Step, Progress;
    StepProgress(w, k, k);
    if m > 0 {
      TotalGrows(w, k, m - 1);
      StepProgress(w, k, m - 1);
    }
  }

  lemma {:induction false} TotalMonotone(w: Net, m: nat, l: nat)
    requires m <= l <= |w.procs|
    ensures Total(w, m) <= Total(w, l)
  {
    if m < l { TotalMonotone(w, m, l - 1); }
  }

  /** There is one process for main, one for each prime, and one that finds nothing. */
  lemma FewProcesses(w: Net)
    requires Inv(w)
    ensures |w.procs| <= w.n + 2
  {
    if w != Start(w.n, w.cap) && |w.procs| > 2 {
      var k := |w.procs| - 2;
      assert StageOk(w, k);
      SentPrefix(w, k - 1);
      StreamShrinks(w.n, k - 1);
    }
  }

  lemma {:induction false} TotalBound(w: Net, m: nat)
    requires Inv(w) && m <= |w.procs|
    ensures Total(w, m) <= m * (2 * w.n + 7)
  {
    if m > 0 {
      TotalBound(w, m - 1);
      ProgressBound(w, m - 1);
      assert m * (2 * w.n + 7) == (m - 1) * (2 * w.n + 7) + (2 * w.n + 7);
    }
  }

  lemma ProgressBound(w: Net, k: nat)
    requires Inv(w) && k < |w.procs|
    ensures Progress(w, k) <= 2 * w.n + 7
  {
    if w != Start(w.n, w.cap) && k > 0 { GotBound(w, k); }
  }

  lemma {:induction false} RunProgress(run: seq<Net>, n: nat, cap: nat)
    requires IsRun(run, n, cap) && cap >= 1
    ensures Total(run[|run| - 1], |run[|run| - 1].procs|) >= |run| - 1
  {
    hide Inv, Step, Total;
    var m := |run| - 1;
    if m > 0 {
      RunProgress(run[..m], n, cap);
      RunInv(run[..m], n, cap);
      var w := run[m - 1];
      assert Next(w, run[m]);
      var k: nat :| k < |w.procs| && Step(w, k) == Some(run[m]);
      TotalGrows(w, k, |w.procs|);
      TotalMonotone(run[m], |w.procs|, |run[m].procs|);
    }
  }

  /** Every run ends: none has more than (n + 2)(2n + 7) steps. */
  lemma RunsAreShort(run: seq<Net>, n: nat, cap: nat)
    requires IsRun(run, n, cap) && cap >= 1
    ensures |run| - 1 <= (n + 2) * (2 * n + 7)
  {
    var w := run[|run| - 1];
    RunInv(run, n, cap);
    RunProgress(run, n, cap);
    FewProcesses(w);
    TotalBound(w, |w.procs|);
    MulMono(|w.procs|, n + 2, 2 * n + 7);
  }

  lemma MulMono(a: nat, b: nat, c: nat)
    requires a <= b
    ensures a * c <= b * c
  {
    assert b * c == a * c + (b - a) * c;
  }
}
