/** The system as the program schedules it: `m` messages for each process, and a quota of receptions
    between two broadcasts. Once a process has broadcast everything it only receives. */
module Program {
  import opened Messages
  import opened Protocol
  import Link
  import LossySystem
  import Transmission

  /** `quota[p]` is the number of receptions that `p` may still handle before its next broadcast. */
  datatype State = State(sys: LossySystem.State, quota: seq<nat>)

  /** The number of messages is a 32-bit number. */
  ghost predicate Valid(cfg: Config, m: nat) {
    cfg.Valid() && m < 0x1_0000_0000
  }

  ghost predicate Shape(cfg: Config, x: State) {
    LossySystem.Shape(cfg, x.sys) && |x.quota| == cfg.n
  }

  ghost predicate Start(cfg: Config, m: nat, x: State) {
    LossySystem.Start(cfg, x.sys) && x.quota == seq(cfg.n, _ => m)
  }

  /** The loop looks at the queue of arrivals: there is quota left, or nothing left to broadcast. */
  ghost predicate MayReceive(cfg: Config, m: nat, x: State, p: nat)
    requires Shape(cfg, x) && p < cfg.n
  {
    x.sys.procs[p].next >= m || x.quota[p] > 0
  }

  ghost function Used(cfg: Config, m: nat, x: State, p: nat): seq<nat>
    requires Shape(cfg, x) && p < cfg.n && MayReceive(cfg, m, x, p)
  {
    if x.sys.procs[p].next >= m then x.quota else x.quota[p := x.quota[p] - 1]
  }

  ghost predicate Broadcasts(cfg: Config, m: nat, x: State, x': State, p: nat)
    requires Shape(cfg, x) && Shape(cfg, x')
  {
    && p < cfg.n && x.sys.procs[p].next < m
    && LossySystem.BroadcastStep(cfg, x.sys, x'.sys, p)
    && x'.quota == x.quota[p := m]
  }

  ghost predicate Arrives(cfg: Config, m: nat, x: State, x': State, p: nat, q: nat, f: Link.Frame)
    requires Shape(cfg, x) && Shape(cfg, x')
  {
    && q < cfg.n && MayReceive(cfg, m, x, q)
    && LossySystem.ArrivalStep(cfg, x.sys, x'.sys, p, q, f)
    && x'.quota == Used(cfg, m, x, q)
  }

  /** An acknowledgement also comes through the queue of arrivals. */
  ghost predicate Acknowledged(cfg: Config, m: nat, x: State, x': State, p: nat, q: nat)
    requires Shape(cfg, x) && Shape(cfg, x')
  {
    && p < cfg.n && q < cfg.n && MayReceive(cfg, m, x, p)
    && LossySystem.LinkStep(cfg, x.sys, x'.sys, p, q)
    && Link.IsAcknowledged(x.sys.links[p][q], x'.sys.links[p][q])
    && x'.quota == Used(cfg, m, x, p)
  }

  /** The workers are threads of their own. */
  ghost predicate Works(cfg: Config, x: State, x': State, p: nat, q: nat)
    requires Shape(cfg, x) && Shape(cfg, x')
  {
    && p < cfg.n && q < cfg.n
    && LossySystem.LinkStep(cfg, x.sys, x'.sys, p, q)
    && Link.IsWork(x.sys.links[p][q], x'.sys.links[p][q])
    && x'.quota == x.quota
  }

  ghost predicate Crashes(x: State, x': State, p: nat) {
    LossySystem.CrashStep(x.sys, x'.sys, p) && x'.quota == x.quota
  }

  ghost predicate Next(cfg: Config, m: nat, x: State, x': State) {
    && Shape(cfg, x) && Shape(cfg, x')
    && (|| (exists p :: Broadcasts(cfg, m, x, x', p))
        || (exists p, q, f :: Arrives(cfg, m, x, x', p, q, f))
        || (exists p, q :: Acknowledged(cfg, m, x, x', p, q))
        || (exists p, q :: Works(cfg, x, x', p, q))
        || (exists p :: Crashes(x, x', p)))
  }

  /** Forgetting the quotas gives a step of the system. */
  lemma NextIsStep(cfg: Config, m: nat, x: State, x': State)
    requires Next(cfg, m, x, x')
    ensures LossySystem.Next(cfg, x.sys, x'.sys)
  {
    if p: nat :| Broadcasts(cfg, m, x, x', p) {
      assert LossySystem.BroadcastStep(cfg, x.sys, x'.sys, p);
    } else if p: nat, q: nat, f :| Arrives(cfg, m, x, x', p, q, f) {
      assert LossySystem.ArrivalStep(cfg, x.sys, x'.sys, p, q, f);
    } else if p: nat, q: nat :| Acknowledged(cfg, m, x, x', p, q) {
      assert LossySystem.LinkStep(cfg, x.sys, x'.sys, p, q);
    } else if p: nat, q: nat :| Works(cfg, x, x', p, q) {
      assert LossySystem.LinkStep(cfg, x.sys, x'.sys, p, q);
    } else {
      var p: nat :| Crashes(x, x', p);
      assert LossySystem.CrashStep(x.sys, x'.sys, p);
    }
  }

  // ------------------------------------------------------------------------------------------
  // Runs
  // ------------------------------------------------------------------------------------------

  ghost predicate StepAt(cfg: Config, m: nat, run: seq<State>, i: nat)
    requires 0 < i < |run|
  {
    Next(cfg, m, run[i - 1], run[i])
  }

  ghost predicate IsRun(cfg: Config, m: nat, run: seq<State>) {
    && run != []
    && (forall i :: 0 <= i < |run| ==> Shape(cfg, run[i]))
    && forall i :: 0 < i < |run| ==> StepAt(cfg, m, run, i)
  }

  ghost predicate Joins(cfg: Config, m: nat, run: seq<State>, x: State, x': State) {
    IsRun(cfg, m, run) && run[0] == x && run[|run| - 1] == x'
  }

  /** Some run goes from `x` to `x'`. */
  ghost predicate Leads(cfg: Config, m: nat, x: State, x': State)
    ensures Leads(cfg, m, x, x') ==> Shape(cfg, x) && Shape(cfg, x')
  {
    exists run :: Joins(cfg, m, run, x, x')
  }

  ghost predicate Reachable(cfg: Config, m: nat, x: State)
    ensures Reachable(cfg, m, x) ==> Shape(cfg, x)
  {
    exists start :: Start(cfg, m, start) && Leads(cfg, m, start, x)
  }

  lemma LeadsToItself(cfg: Config, m: nat, x: State)
    requires Shape(cfg, x)
    ensures Leads(cfg, m, x, x)
  {
    assert Joins(cfg, m, [x], x, x);
  }

  lemma JoinRuns(cfg: Config, m: nat, before: seq<State>, after: seq<State>)
    requires IsRun(cfg, m, before) && IsRun(cfg, m, after) && before[|before| - 1] == after[0]
    ensures IsRun(cfg, m, before + after[1..])
  {
    var whole := before + after[1..];
    forall i | 0 < i < |whole|
      ensures StepAt(cfg, m, whole, i)
    {
      if i < |before| {
        assert StepAt(cfg, m, before, i);
        assert whole[i - 1] == before[i - 1] && whole[i] == before[i];
      } else {
        var j := i - |before| + 1;
        assert StepAt(cfg, m, after, j);
        assert whole[i - 1] == after[j - 1] && whole[i] == after[j];
      }
    }
  }

  lemma LeadsOn(cfg: Config, m: nat, x: State, x': State, x'': State)
    requires Leads(cfg, m, x, x') && Leads(cfg, m, x', x'')
    ensures Leads(cfg, m, x, x'')
  {
    var before :| Joins(cfg, m, before, x, x');
    var after :| Joins(cfg, m, after, x', x'');
    OneAfterTheOther(cfg, m, before, after, x, x', x'');
  }

  lemma OneAfterTheOther(cfg: Config, m: nat, before: seq<State>, after: seq<State>, x: State, x': State, x'': State)
    requires Joins(cfg, m, before, x, x') && Joins(cfg, m, after, x', x'')
    ensures Joins(cfg, m, before + after[1..], x, x'')
  {
    JoinRuns(cfg, m, before, after);
  }

  lemma StepLeads(cfg: Config, m: nat, x: State, x': State)
    requires Next(cfg, m, x, x')
    ensures Leads(cfg, m, x, x')
  {
    var run := [x, x'];
    assert StepAt(cfg, m, run, 1);
    assert Joins(cfg, m, run, x, x');
  }

  lemma ReachableOn(cfg: Config, m: nat, x: State, x': State)
    requires Reachable(cfg, m, x) && Leads(cfg, m, x, x')
    ensures Reachable(cfg, m, x')
  {
    var start: State :| Start(cfg, m, start) && Leads(cfg, m, start, x);
    LeadsOn(cfg, m, start, x, x');
  }

  // ------------------------------------------------------------------------------------------
  // What holds in every run
  // ------------------------------------------------------------------------------------------

  /** No process broadcasts more than `m` messages. */
  ghost predicate Bounded(cfg: Config, m: nat, s: LossySystem.State)
    requires LossySystem.Shape(cfg, s)
  {
    forall p :: 0 <= p < cfg.n ==> s.procs[p].next <= m
  }

  ghost predicate Good(cfg: Config, m: nat, x: State) {
    Shape(cfg, x) && Transmission.Good(cfg, x.sys) && Bounded(cfg, m, x.sys)
  }

  lemma StartGood(cfg: Config, m: nat, x: State)
    requires Start(cfg, m, x)
    ensures Good(cfg, m, x)
  {
    Transmission.StartGood(cfg, x.sys);
  }

  lemma NextBounded(cfg: Config, m: nat, x: State, x': State)
    requires Next(cfg, m, x, x') && Bounded(cfg, m, x.sys)
    ensures Bounded(cfg, m, x'.sys)
  {}

  lemma NextGood(cfg: Config, m: nat, x: State, x': State)
    requires Good(cfg, m, x) && Next(cfg, m, x, x')
    ensures Good(cfg, m, x')
  {
    NextIsStep(cfg, m, x, x');
    Transmission.NextGood(cfg, x.sys, x'.sys);
    NextBounded(cfg, m, x, x');
  }

  lemma {:induction false} RunGood(cfg: Config, m: nat, run: seq<State>)
    requires IsRun(cfg, m, run) && Good(cfg, m, run[0])
    ensures Good(cfg, m, run[|run| - 1])
  {
    if |run| > 1 {
      RunFront(cfg, m, run);
      RunGood(cfg, m, run[..|run| - 1]);
      NextGood(cfg, m, run[|run| - 2], run[|run| - 1]);
    }
  }

  lemma RunFront(cfg: Config, m: nat, run: seq<State>)
    requires IsRun(cfg, m, run) && |run| > 1
    ensures IsRun(cfg, m, run[..|run| - 1]) && Next(cfg, m, run[|run| - 2], run[|run| - 1])
    ensures run[..|run| - 1][0] == run[0] && run[..|run| - 1][|run| - 2] == run[|run| - 2]
  {
    var front := run[..|run| - 1];
    forall i | 0 < i < |front|
      ensures StepAt(cfg, m, front, i)
    {
      assert StepAt(cfg, m, run, i);
    }
    assert StepAt(cfg, m, run, |run| - 1);
  }

  lemma ReachableGood(cfg: Config, m: nat, x: State)
    requires Reachable(cfg, m, x)
    ensures Good(cfg, m, x)
  {
    var start: State :| Start(cfg, m, start) && Leads(cfg, m, start, x);
    var run :| Joins(cfg, m, run, start, x);
    StartGood(cfg, m, start);
    RunGood(cfg, m, run);
  }

  ghost function Hidden(run: seq<State>): seq<LossySystem.State> {
    seq(|run|, i requires 0 <= i < |run| => run[i].sys)
  }

  lemma HiddenRun(cfg: Config, m: nat, run: seq<State>)
    requires IsRun(cfg, m, run)
    ensures LossySystem.IsRun(cfg, Hidden(run))
  {
    forall i | 0 < i < |run|
      ensures LossySystem.StepAt(cfg, Hidden(run), i)
    {
      HiddenStep(cfg, m, run, i);
    }
  }

  lemma HiddenStep(cfg: Config, m: nat, run: seq<State>, i: nat)
    requires 0 < i < |run| && StepAt(cfg, m, run, i)
    ensures LossySystem.StepAt(cfg, Hidden(run), i)
  {
    NextIsStep(cfg, m, run[i - 1], run[i]);
  }

  lemma HiddenEnds(run: seq<State>)
    requires run != []
    ensures |Hidden(run)| == |run| && Hidden(run)[0] == run[0].sys && Hidden(run)[|run| - 1] == run[|run| - 1].sys
  {}

  lemma RunIsReachable(cfg: Config, run: seq<LossySystem.State>)
    requires LossySystem.IsRun(cfg, run) && LossySystem.Start(cfg, run[0])
    ensures LossySystem.Reachable(cfg, run[|run| - 1])
  {
    assert LossySystem.Execution(cfg, run);
  }

  /** Whatever holds of every reachable state of the system holds of every reachable state of the program. */
  lemma ReachableInSystem(cfg: Config, m: nat, x: State)
    requires Reachable(cfg, m, x)
    ensures LossySystem.Reachable(cfg, x.sys)
  {
    var start: State :| Start(cfg, m, start) && Leads(cfg, m, start, x);
    var run :| Joins(cfg, m, run, start, x);
    HiddenRun(cfg, m, run);
    HiddenEnds(run);
    RunIsReachable(cfg, Hidden(run));
  }

  /** A link uses at most one number for each message of each process. */
  lemma NumbersSuffice(cfg: Config, m: nat, s: LossySystem.State)
    requires Valid(cfg, m) && Transmission.Good(cfg, s) && Bounded(cfg, m, s)
    ensures |s.history| <= cfg.n * m < Link.TOP_BIT
    ensures forall p, q :: 0 <= p < cfg.n && 0 <= q < cfg.n ==> s.links[p][q].sender.next <= cfg.n * m
  {
    Transmission.HistoryBound(cfg, s, m);
    ProductBelowTop(cfg.n, m);
    forall p, q | 0 <= p < cfg.n && 0 <= q < cfg.n
      ensures s.links[p][q].sender.next <= cfg.n * m
    {
      Transmission.IssuedBound(cfg, s, p, q);
    }
  }

  /** Main result: whatever the program does, link sequence numbers stay far from the bit that marks
      acknowledgements. */
  lemma NumbersNeverRunOut(cfg: Config, m: nat, x: State)
    requires Valid(cfg, m) && Reachable(cfg, m, x)
    ensures |x.sys.history| <= cfg.n * m < Link.TOP_BIT
    ensures forall p, q :: 0 <= p < cfg.n && 0 <= q < cfg.n ==> x.sys.links[p][q].sender.next <= cfg.n * m
  {
    ReachableGood(cfg, m, x);
    NumbersSuffice(cfg, m, x.sys);
  }

  lemma ProductBelowTop(n: nat, m: nat)
    requires n <= 128 && m < 0x1_0000_0000
    ensures n * m < Link.TOP_BIT
  {
    assert n * m <= 128 * m;
  }
}
