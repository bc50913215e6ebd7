/** What every interleaving of the processes of primes.c has in common. */
module SieveRun {
  import opened Types
  import opened Sieve

  function Start(n: nat, cap: nat): Net { Net(n, cap, [Begin], [], []) }

  ghost predicate CanStep(w: Net, k: nat) { k < |w.procs| && Step(w, k).Some? }

  /** Any process that can make a step may make the next one. */
  ghost predicate Next(w: Net, w': Net) {
    exists k: nat :: k < |w.procs| && Step(w, k) == Some(w')
  }

  ghost predicate IsRun(run: seq<Net>, n: nat, cap: nat) {
    && run != [] && run[0] == Start(n, cap)
    && forall i :: 0 <= i < |run| - 1 ==> Next(run[i], run[i + 1])
  }

  // ---- the invariant

  ghost predicate PipeOk(w: Net, k: nat)
    requires k < |w.pipes| && |w.procs| == |w.pipes| + 1
  {
    var p := w.pipes[k];
    && p.got <= |p.sent|
    && (forall i :: 0 <= i < |p.sent| ==> p.sent[i] >= 2)
    && (p.parentOpen <==> w.procs[k] != Wait && w.procs[k] != Exited)
    && (p.childOpen <==> w.procs[k + 1] == Opening)
  }

  ghost predicate MainOk(w: Net)
    requires |w.pipes| > 0 && |w.procs| == |w.pipes| + 1
  {
    match w.procs[0]
    case Feed(num) => num >= 2 && (num == 2 || num <= w.n + 1) && w.pipes[0].sent == Range(2, num - 1)
    case Close => w.pipes[0].sent == Range(2, w.n)
    case Wait => w.pipes[0].sent == Range(2, w.n)
    case Exited => w.pipes[0].sent == Range(2, w.n) && w.procs[1] == Exited
    case _ => false
  }

  /** All of the input was read, and all that passes was written. */
  ghost predicate Finished(w: Net, k: nat)
    requires 0 < k < |w.pipes|
  {
    Eof(w.pipes[k - 1]) && w.pipes[k - 1].sent != [] && w.pipes[k].sent == Filtered(w.pipes[k - 1].sent)
  }

  ghost predicate StageOk(w: Net, k: nat)
    requires 0 < k < |w.procs| && |w.procs| == |w.pipes| + 1
  {
    var last := k == |w.procs| - 1;
    var p := w.pipes[k - 1];
    match w.procs[k]
    case Opening => last && p.got == 0
    case First => last && p.got == 0
    case Announce(prime) => last && p.got == 1 <= |p.sent| && p.sent[0] == prime
    case Forking(prime) => last && p.got == 1 <= |p.sent| && p.sent[0] == prime
    case Read(prime) =>
      !last && 1 <= p.got <= |p.sent| && p.sent[0] == prime && prime != 0
      && w.pipes[k].sent == Strained(p.sent[1..p.got], prime)
    case Write(prime, num) =>
      !last && 1 <= p.got <= |p.sent| && p.sent[0] == prime && prime != 0
      && w.pipes[k].sent + [num] == Strained(p.sent[1..p.got], prime) && num >= 2
    case Close => !last && Finished(w, k)
    case Wait => !last && Finished(w, k)
    case Exited => if last then Eof(p) && p.sent == [] else Finished(w, k) && w.procs[k + 1] == Exited
    case _ => false
  }

  /** Every process that has forked has announced its prime. */
  ghost predicate OutOk(w: Net)
    requires |w.pipes| > 0 && |w.procs| == |w.pipes| + 1
  {
    && |w.out| == |w.procs| - 2 + (if w.procs[|w.procs| - 1].Forking? then 1 else 0)
    && forall i :: 0 <= i < |w.out| ==> w.pipes[i].sent != [] && w.out[i] == w.pipes[i].sent[0]
  }

  ghost predicate AllPipes(w: Net)
    requires |w.procs| == |w.pipes| + 1
  {
    forall k :: 0 <= k < |w.pipes| ==> PipeOk(w, k)
  }

  ghost predicate AllStages(w: Net)
    requires |w.procs| == |w.pipes| + 1
  {
    forall k :: 0 < k < |w.procs| ==> StageOk(w, k)
  }

  ghost predicate Inv(w: Net) {
    && w.cap >= 1
    && (w == Start(w.n, w.cap) ||
        (&& |w.pipes| > 0 && |w.procs| == |w.pipes| + 1
         && MainOk(w) && AllPipes(w) && AllStages(w) && OutOk(w)))
  }

  lemma StepKeeps(w: Net, k: nat)
    requires Inv(w) && k < |w.procs| && Step(w, k).Some?
    ensures Inv(Step(w, k).value)
  {
    if w.procs[k] == Begin {
      BeginKeeps(w, k);
    } else if k == 0 {
      MainKeeps(w);
    } else {
      assert StageOk(w, k);
      match w.procs[k]
      case Opening => OpeningKeeps(w, k);
      case First => FirstKeeps(w, k);
      case Announce(_) => AnnounceKeeps(w, k);
      case Forking(_) => ForkingKeeps(w, k);
      case Read(_) => ReadKeeps(w, k);
      case Write(_, _) => WriteKeeps(w, k);
      case Close => CloseKeeps(w, k);
      case Wait => WaitKeeps(w, k);
    }
  }

  lemma BeginKeeps(w: Net, k: nat)
    requires Inv(w) && k < |w.procs| && w.procs[k] == Begin
    ensures Inv(Step(w, k).value)
  {
    BeginIsStart(w, k);
    var w' := Step(w, k).value;
    assert w'.procs == [Feed(2), Opening];
  }

  lemma BeginIsStart(w: Net, k: nat)
    requires Inv(w) && k < |w.procs| && w.procs[k] == Begin
    ensures w == Start(w.n, w.cap)
  {
    if w != Start(w.n, w.cap) {
      var here := k == 0 || StageOk(w, k);
      assert false;
    }
  }

  /** A stage that nobody disturbed. */
  lemma StageSame(w: Net, w': Net, j: nat)
    requires 0 < j < |w.procs| == |w.pipes| + 1 && |w'.procs| == |w.procs| && |w'.pipes| == |w.pipes| && StageOk(w, j)
    requires w'.procs[j] == w.procs[j] && w'.pipes[j - 1] == w.pipes[j - 1]
             && (j < |w.pipes| ==> w'.pipes[j].sent == w.pipes[j].sent)
    requires j + 1 < |w.procs| && w.procs[j + 1] == Exited ==> w'.procs[j + 1] == Exited
    ensures StageOk(w', j)
  {
  }

  /** The reader of a pipe has seen a prefix, which a write does not change. */
  lemma ReaderSame(w: Net, w': Net, j: nat, x: int)
    requires 0 < j < |w.procs| == |w.pipes| + 1 && |w'.procs| == |w.procs| && |w'.pipes| == |w.pipes| && StageOk(w, j)
             && PipeOk(w, j - 1)
    requires w'.procs[j] == w.procs[j] && w'.pipes[j - 1] == Put(w.pipes[j - 1], x)
             && (j < |w.pipes| ==> w'.pipes[j] == w.pipes[j])
    requires w.pipes[j - 1].parentOpen
    ensures StageOk(w', j)
  {
    var p := w.pipes[j - 1];
    assert p.got >= 1 ==> (p.sent + [x])[1..p.got] == p.sent[1..p.got];
  }

  lemma MainKeeps(w: Net)
    requires Inv(w) && 0 < |w.procs| && w.procs[0] != Begin && Step(w, 0).Some?
    ensures Inv(Step(w, 0).value)
  {
    var w' := Step(w, 0).value;
    MainPipes(w);
    assert AllStages(w') by {
      hide PipeOk, AllPipes, Range;
      forall j | 0 < j < |w'.procs| ensures StageOk(w', j) {
        assert StageOk(w, j);
        if j == 1 { MainReader(w); } else { hide StageOk; StageSame(w, w', j); }
      }
    }
    hide AllStages, AllPipes, StageOk, MainOk, OutOk;
  }

  lemma MainPipes(w: Net)
    requires Inv(w) && 0 < |w.procs| && w.procs[0] != Begin && Step(w, 0).Some?
    ensures var w' := Step(w, 0).value;
            0 < |w'.pipes| && |w'.procs| == |w.procs| == |w'.pipes| + 1 && AllPipes(w') && OutOk(w') && MainOk(w')
  {
    var w' := Step(w, 0).value;
    hide AllStages, StageOk;
    forall j | 0 <= j < |w'.pipes| ensures PipeOk(w', j) { assert PipeOk(w, j); }
  }

  lemma MainReader(w: Net)
    requires Inv(w) && 1 < |w.procs| && w.procs[0] != Begin && Step(w, 0).Some?
    ensures StageOk(Step(w, 0).value, 1)
  {
    var w' := Step(w, 0).value;
    assert StageOk(w, 1) && PipeOk(w, 0);
    if w'.pipes[0].sent != w.pipes[0].sent { ReaderSame(w, w', 1, w.procs[0].num); }
  }

  lemma OpeningKeeps(w: Net, k: nat)
    requires Inv(w) && 0 < k < |w.procs| && w.procs[k] == Opening && Step(w, k).Some?
    ensures Inv(Step(w, k).value)
  {
    var w' := Step(w, k).value;
    assert StageOk(w, k);
    forall j | 0 <= j < |w'.pipes| ensures PipeOk(w', j) { assert PipeOk(w, j); }
    forall j | 0 < j < |w'.procs| ensures StageOk(w', j) { assert StageOk(w, j); }
  }

  lemma FirstKeeps(w: Net, k: nat)
    requires Inv(w) && 0 < k < |w.procs| && w.procs[k] == First && Step(w, k).Some?
    ensures Inv(Step(w, k).value)
  {
    var w' := Step(w, k).value;
    assert StageOk(w, k);
    forall j | 0 <= j < |w'.pipes| ensures PipeOk(w', j) { assert PipeOk(w, j); }
    forall j | 0 < j < |w'.procs| ensures StageOk(w', j) { assert StageOk(w, j); }
  }

  lemma AnnounceKeeps(w: Net, k: nat)
    requires Inv(w) && 0 < k < |w.procs| && w.procs[k].Announce?
    ensures Inv(Step(w, k).value)
  {
    var w' := Step(w, k).value;
    assert StageOk(w, k);
    forall j | 0 <= j < |w'.pipes| ensures PipeOk(w', j) { assert PipeOk(w, j); }
    forall j | 0 < j < |w'.procs| ensures StageOk(w', j) { assert StageOk(w, j); }
  }

  lemma ForkingKeeps(w: Net, k: nat)
    requires Inv(w) && 0 < k < |w.procs| && w.procs[k].Forking?
    ensures Inv(Step(w, k).value)
  {
    var w' := Step(w, k).value;
    assert StageOk(w, k) && PipeOk(w, k - 1);
    forall j | 0 <= j < |w'.pipes| ensures PipeOk(w', j) { if j < |w.pipes| { assert PipeOk(w, j); } }
    forall j | 0 < j < |w'.procs| ensures StageOk(w', j) { if j < |w.procs| { assert StageOk(w, j); } }
  }

  lemma ReadKeeps(w: Net, k: nat)
    requires Inv(w) && 0 < k < |w.procs| && w.procs[k].Read? && Step(w, k).Some?
    ensures Inv(Step(w, k).value)
  {
    var w' := Step(w, k).value;
    assert StageOk(w, k) && PipeOk(w, k - 1);
    ReadStage(w, k);
    ReadPipes(w, k);
    hide AllPipes, PipeOk, Strained;
    assert AllStages(w') by {
      forall j | 0 < j < |w'.procs| ensures StageOk(w', j) {
        assert StageOk(w, j);
        hide StageOk, Inv;
        if j != k { StageSame(w, w', j); }
      }
    }
    hide AllStages, StageOk, OutOk, MainOk;
  }

  lemma ReadPipes(w: Net, k: nat)
    requires Inv(w) && 0 < k < |w.procs| && w.procs[k].Read? && Step(w, k).Some?
    ensures var w' := Step(w, k).value;
            |w'.procs| == |w.procs| == |w'.pipes| + 1 && AllPipes(w') && OutOk(w') && MainOk(w')
  {
    var w' := Step(w, k).value;
    assert StageOk(w, k) && PipeOk(w, k - 1);
    hide AllStages, StageOk, Strained, Range;
    forall j | 0 <= j < |w'.pipes| ensures PipeOk(w', j) { assert PipeOk(w, j); }
  }

  /** What was read, and passed on or not, is one more number strained. */
  lemma ReadStage(w: Net, k: nat)
    requires Inv(w) && 0 < k < |w.procs| && w.procs[k].Read? && Step(w, k).Some?
    ensures StageOk(Step(w, k).value, k)
  {
    assert StageOk(w, k) && PipeOk(w, k - 1);
    var p, prime := w.pipes[k - 1], w.procs[k].prime;
    if !Empty(p) {
      var s := p.sent[1..p.got + 1];
      assert s[..|s| - 1] == p.sent[1..p.got] && s[|s| - 1] == p.sent[p.got];
    } else {
      assert p.sent[1..p.got] == p.sent[1..];
    }
  }

  lemma WriteKeeps(w: Net, k: nat)
    requires Inv(w) && 0 < k < |w.procs| && w.procs[k].Write? && Step(w, k).Some?
    ensures Inv(Step(w, k).value)
  {
    var w' := Step(w, k).value;
    assert StageOk(w, k);
    forall j | 0 <= j < |w'.pipes| ensures PipeOk(w', j) { assert PipeOk(w, j); }
    assert AllStages(w') by {
      forall j | 0 < j < |w'.procs| ensures StageOk(w', j) {
        assert StageOk(w, j) && PipeOk(w, j - 1);
        if j == k + 1 { ReaderSame(w, w', j, w.procs[k].num); }
        else if j != k { hide StageOk; StageSame(w, w', j); }
      }
    }
    hide AllStages;
  }

  lemma CloseKeeps(w: Net, k: nat)
    requires Inv(w) && 0 < k < |w.procs| && w.procs[k] == Close && Step(w, k).Some?
    ensures Inv(Step(w, k).value)
  {
    var w' := Step(w, k).value;
    assert StageOk(w, k);
    forall j | 0 <= j < |w'.pipes| ensures PipeOk(w', j) { assert PipeOk(w, j); }
    forall j | 0 < j < |w'.procs| ensures StageOk(w', j) { assert StageOk(w, j); }
  }

  lemma WaitKeeps(w: Net, k: nat)
    requires Inv(w) && 0 < k < |w.procs| && w.procs[k] == Wait && Step(w, k).Some?
    ensures Inv(Step(w, k).value)
  {
    var w' := Step(w, k).value;
    assert StageOk(w, k);
    forall j | 0 <= j < |w'.pipes| ensures PipeOk(w', j) { assert PipeOk(w, j); }
    forall j | 0 < j < |w'.procs| ensures StageOk(w', j) { assert StageOk(w, j); }
  }

  lemma {:induction false} RunInv(run: seq<Net>, n: nat, cap: nat)
    requires IsRun(run, n, cap) && cap >= 1
    ensures var w := run[|run| - 1]; Inv(w) && w.n == n && w.cap == cap
  {
    hide Inv, Step;
    var m := |run| - 1;
    if m == 0 {
      StartInv(n, cap);
    } else {
      RunInv(run[..m], n, cap);
      assert Next(run[m - 1], run[m]);
      var k: nat :| k < |run[m - 1].procs| && Step(run[m - 1], k) == Some(run[m]);
      StepKeeps(run[m - 1], k);
      SameNet(run[m - 1], k);
    }
  }

  lemma StartInv(n: nat, cap: nat)
    requires cap >= 1
    ensures Inv(Start(n, cap))
  {
  }

  lemma SameNet(w: Net, k: nat)
    requires k < |w.procs| && Step(w, k).Some?
    ensures Step(w, k).value.n == w.n && Step(w, k).value.cap == w.cap
  {
  }
}
