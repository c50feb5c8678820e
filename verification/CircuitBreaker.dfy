/** The circuit breaker of `crates/justapi-core/src/resilience.rs`, with any number
    of requests in flight: admissions, completions that may come late, and
    requests that are dropped without reporting back, in any interleaving. */
module CircuitBreaker {

  datatype Config = Config(failureThreshold: nat, successThreshold: nat, openTimeout: nat, halfOpenMax: nat)

  datatype Mode = Closed | Open(since: nat) | HalfOpen

  datatype Breaker = Breaker(mode: Mode, failures: nat, successes: nat, used: nat)

  function AtLeastOne(n: nat): nat { if n == 0 then 1 else n }

  function Elapsed(since: nat, now: nat): nat { if since <= now then now - since else 0 }

  predicate Admits(cfg: Config, b: Breaker, now: nat) {
    match b.mode
    case Closed => true
    case Open(since) => Elapsed(since, now) >= cfg.openTimeout
    case HalfOpen => b.used < cfg.halfOpenMax
  }

  /** `try_acquire`. The request that ends the open period is not counted as used. */
  function Acquire(cfg: Config, b: Breaker, now: nat): Breaker {
    if !Admits(cfg, b, now) then b
    else
      match b.mode
      case Closed => b
      case Open(_) => b.(mode := HalfOpen, used := 0, successes := 0)
      case HalfOpen => b.(used := b.used + 1)
  }

  /** `record_success`. */
  function Success(cfg: Config, b: Breaker): Breaker {
    match b.mode
    case HalfOpen =>
      if b.successes + 1 >= cfg.successThreshold then b.(mode := Closed, failures := 0, successes := 0)
      else b.(successes := b.successes + 1)
    case Closed => b.(failures := 0)
    case Open(_) => b
  }

  /** `record_failure`. */
  function Failure(cfg: Config, b: Breaker, now: nat): Breaker {
    match b.mode
    case Closed =>
      if b.failures + 1 >= cfg.failureThreshold then b.(mode := Open(now), failures := 0)
      else b.(failures := b.failures + 1)
    case HalfOpen => b.(mode := Open(now), failures := 0)
    case Open(_) => b
  }

  // ------------------------------------------------------------------
  // Runs
  // ------------------------------------------------------------------

  datatype Event = TryAcquire(now: nat) | Succeed | Fail(now: nat) | Vanish

  /** The breaker, the number of admitted requests that have not reported yet, and
      (as history) the outcomes recorded since it last became closed. */
  datatype System = System(b: Breaker, inFlight: nat, recorded: seq<bool>)

  const INIT := System(Breaker(Closed, 0, 0, 0), 0, [])

  predicate Possible(s: System, e: Event) { e.TryAcquire? || s.inFlight > 0 }

  predicate Admitted(cfg: Config, s: System, e: Event) { e.TryAcquire? && Admits(cfg, s.b, e.now) }

  function Step(cfg: Config, s: System, e: Event): System
    requires Possible(s, e)
  {
    match e
    case TryAcquire(now) =>
      s.(b := Acquire(cfg, s.b, now), inFlight := s.inFlight + if Admits(cfg, s.b, now) then 1 else 0)
    case Vanish => s.(inFlight := s.inFlight - 1)
    case Succeed => Record(s, Success(cfg, s.b), true)
    case Fail(now) => Record(s, Failure(cfg, s.b, now), false)
  }

  function Record(s: System, b: Breaker, ok: bool): System
    requires s.inFlight > 0
  {
    System(b, s.inFlight - 1,
           if s.b.mode.Closed? then s.recorded + [ok] else if b.mode.Closed? then [] else s.recorded)
  }

  predicate Valid(cfg: Config, s: System, es: seq<Event>)
    decreases |es|
  {
    es == [] || (Possible(s, es[0]) && Valid(cfg, Step(cfg, s, es[0]), es[1..]))
  }

  function Run(cfg: Config, s: System, es: seq<Event>): System
    requires Valid(cfg, s, es)
    decreases |es|
  {
    if es == [] then s else Run(cfg, Step(cfg, s, es[0]), es[1..])
  }

  // ------------------------------------------------------------------
  // Invariant
  // ------------------------------------------------------------------

  /** Length of the run of failures that ends the history. */
  function TrailingFailures(h: seq<bool>): nat {
    if h == [] || h[|h| - 1] then 0 else TrailingFailures(h[..|h| - 1]) + 1
  }

  predicate Inv(cfg: Config, s: System) {
    && (s.b.mode.Closed? ==>
          s.b.failures == TrailingFailures(s.recorded) < AtLeastOne(cfg.failureThreshold))
    && (s.b.mode.HalfOpen? ==>
          s.b.used <= cfg.halfOpenMax && s.b.successes < AtLeastOne(cfg.successThreshold))
  }

  lemma {:induction false} InvStep(cfg: Config, s: System, e: Event)
    requires Inv(cfg, s) && Possible(s, e)
    ensures Inv(cfg, Step(cfg, s, e))
  {
    if s.b.mode.Closed? && (e.Succeed? || e.Fail?) {
      var h := s.recorded + [e.Succeed?];
      assert h[..|h| - 1] == s.recorded;
    }
  }

  /** In every reachable state every counter is below its configured limit, so no
      32-bit counter can overflow. */
  lemma {:induction false} InvRun(cfg: Config, s: System, es: seq<Event>)
    requires Inv(cfg, s) && Valid(cfg, s, es)
    ensures Inv(cfg, Run(cfg, s, es))
    decreases |es|
  {
    if es != [] {
      InvStep(cfg, s, es[0]);
      InvRun(cfg, Step(cfg, s, es[0]), es[1..]);
    }
  }

  // ------------------------------------------------------------------
  // Opening
  // ------------------------------------------------------------------

  predicate LastAllFailures(h: seq<bool>, n: nat) {
    n <= |h| && forall i :: |h| - n <= i < |h| ==> !h[i]
  }

  lemma {:induction false} TrailingMeansLast(h: seq<bool>, n: nat)
    ensures TrailingFailures(h) >= n <==> LastAllFailures(h, n)
  {
    if h != [] && n > 0 {
      var init := h[..|h| - 1];
      TrailingMeansLast(init, n - 1);
      if !h[|h| - 1] {
        if LastAllFailures(init, n - 1) {
          assert forall i :: |h| - n <= i < |init| ==> h[i] == init[i];
        }
        if LastAllFailures(h, n) {
          forall i | |init| - (n - 1) <= i < |init|
            ensures !init[i]
          {
            assert init[i] == h[i];
          }
        }
      }
    }
  }

  /** In every run the breaker goes from closed to open exactly when a failure is
      reported and the last `failure_threshold` (at least one) outcomes recorded
      since it became closed are then all failures. */
  lemma {:induction false} OpensExactly(cfg: Config, es: seq<Event>, e: Event)
    requires Valid(cfg, INIT, es)
    requires Run(cfg, INIT, es).b.mode.Closed? && Possible(Run(cfg, INIT, es), e)
    ensures var s := Run(cfg, INIT, es);
            var s' := Step(cfg, s, e);
            && (!s'.b.mode.Closed? <==>
                e.Fail? && LastAllFailures(s.recorded + [false], AtLeastOne(cfg.failureThreshold)))
            && (!s'.b.mode.Closed? ==> s'.b.mode == Open(e.now))
  {
    var s := Run(cfg, INIT, es);
    InvRun(cfg, INIT, es);
    var h := s.recorded + [false];
    assert h[..|h| - 1] == s.recorded;
    TrailingMeansLast(h, AtLeastOne(cfg.failureThreshold));
  }

  /** From any opening on, nothing is admitted and the opening time does not move
      until some attempt comes `open_timeout` later, whatever else completes. */
  lemma {:induction false} OpenAdmitsNothing(cfg: Config, s: System, es: seq<Event>)
    requires Valid(cfg, s, es) && s.b.mode.Open?
    requires forall i :: 0 <= i < |es| && es[i].TryAcquire? ==>
               Elapsed(s.b.mode.since, es[i].now) < cfg.openTimeout
    ensures Run(cfg, s, es).b == s.b && Admissions(cfg, s, es) == 0
    decreases |es|
  {
    if es != [] {
      assert forall i :: 0 <= i < |es[1..]| ==> es[1..][i] == es[i + 1];
      OpenAdmitsNothing(cfg, Step(cfg, s, es[0]), es[1..]);
    }
  }

  /** In every run only a failure opens the breaker, at the time it is reported; and while
      half-open every failure does. */
  lemma {:induction false} OpensNow(cfg: Config, es: seq<Event>, e: Event)
    requires Valid(cfg, INIT, es) && Possible(Run(cfg, INIT, es), e)
    ensures var s := Run(cfg, INIT, es);
            var s' := Step(cfg, s, e);
            && (!s.b.mode.Open? && s'.b.mode.Open? ==> e.Fail? && s'.b.mode == Open(e.now))
            && (s.b.mode.HalfOpen? && e.Fail? ==> s'.b.mode == Open(e.now))
            && (s.b.mode.Open? && s'.b.mode.Open? ==> s'.b.mode == s.b.mode)
  {
  }

  /** After a failure that opened the breaker nothing is admitted before the timeout has
      passed since that failure, and then the first attempt is. */
  lemma {:induction false} RejectsForTimeout(cfg: Config, before: seq<Event>, now: nat, es: seq<Event>, at: nat)
    requires Valid(cfg, INIT, before) && Possible(Run(cfg, INIT, before), Fail(now))
    requires !Run(cfg, INIT, before).b.mode.Open?
    requires Step(cfg, Run(cfg, INIT, before), Fail(now)).b.mode.Open?
    requires Valid(cfg, Step(cfg, Run(cfg, INIT, before), Fail(now)), es)
    requires cfg.openTimeout > 0
    requires forall i :: 0 <= i < |es| && es[i].TryAcquire? ==> es[i].now < now + cfg.openTimeout
    ensures var s := Step(cfg, Run(cfg, INIT, before), Fail(now));
            && Admissions(cfg, s, es) == 0
            && (Admits(cfg, Run(cfg, s, es).b, at) <==> at >= now + cfg.openTimeout)
  {
    OpensNow(cfg, before, Fail(now));
    OpenAdmitsNothing(cfg, Step(cfg, Run(cfg, INIT, before), Fail(now)), es);
  }

  function Admissions(cfg: Config, s: System, es: seq<Event>): nat
    requires Valid(cfg, s, es)
    decreases |es|
  {
    if es == [] then 0
    else (if Admitted(cfg, s, es[0]) then 1 else 0) + Admissions(cfg, Step(cfg, s, es[0]), es[1..])
  }

  // ------------------------------------------------------------------
  // The half-open episode
  // ------------------------------------------------------------------

  /** Every state of the run, first and last included, is half-open. */
  predicate StaysHalfOpen(cfg: Config, s: System, es: seq<Event>)
    requires Valid(cfg, s, es)
    decreases |es|
  {
    s.b.mode.HalfOpen? && (es == [] || StaysHalfOpen(cfg, Step(cfg, s, es[0]), es[1..]))
  }

  function Count(es: seq<Event>, e: Event): nat {
    if es == [] then 0 else (if es[0] == e then 1 else 0) + Count(es[1..], e)
  }

  /** During an episode the counters are exact: slots used, successes recorded and
      requests in flight follow from the events alone. */
  lemma {:induction false} EpisodeCounts(cfg: Config, s: System, es: seq<Event>)
    requires Valid(cfg, s, es) && StaysHalfOpen(cfg, s, es)
    ensures var s' := Run(cfg, s, es);
            && s'.b.mode.HalfOpen?
            && s'.b.used == s.b.used + Admissions(cfg, s, es)
            && s'.b.successes == s.b.successes + Count(es, Succeed)
            && s'.inFlight + Count(es, Succeed) + Count(es, Vanish) == s.inFlight + Admissions(cfg, s, es)
    decreases |es|
  {
    if es != [] {
      EpisodeCounts(cfg, Step(cfg, s, es[0]), es[1..]);
    }
  }

  /** The state in which an episode begins: an attempt found the open period over. */
  predicate Begins(cfg: Config, s: System, now: nat) {
    s.b.mode.Open? && Admits(cfg, s.b, now)
  }

  /** An episode admits at most `half_open_max_requests + 1` requests. */
  lemma {:induction false} EpisodeAdmissions(cfg: Config, before: seq<Event>, now: nat, es: seq<Event>)
    requires Valid(cfg, INIT, before) && Begins(cfg, Run(cfg, INIT, before), now)
    requires var s := Step(cfg, Run(cfg, INIT, before), TryAcquire(now));
             Valid(cfg, s, es) && StaysHalfOpen(cfg, s, es)
    ensures 1 + Admissions(cfg, Step(cfg, Run(cfg, INIT, before), TryAcquire(now)), es) <= cfg.halfOpenMax + 1
  {
    var s0 := Run(cfg, INIT, before);
    var s := Step(cfg, s0, TryAcquire(now));
    InvRun(cfg, INIT, before);
    InvStep(cfg, s0, TryAcquire(now));
    InvRun(cfg, s, es);
    EpisodeCounts(cfg, s, es);
  }

  /** Without a failure the episode closes the breaker by its
      `success_threshold`-th success (its first, if the threshold is zero). */
  lemma {:induction false} ClosesOnThreshold(cfg: Config, s: System, es: seq<Event>)
    requires Valid(cfg, s, es) && s.b.mode.HalfOpen? && s.b.successes < AtLeastOne(cfg.successThreshold)
    requires forall i :: 0 <= i < |es| ==> !es[i].Fail?
    requires s.b.successes + Count(es, Succeed) >= AtLeastOne(cfg.successThreshold)
    ensures exists k :: 0 <= k <= |es| && Valid(cfg, s, es[..k]) && Run(cfg, s, es[..k]).b.mode.Closed?
    decreases |es|
  {
    var s1 := Step(cfg, s, es[0]);
    if s1.b.mode.Closed? {
      var one := es[..1];
      assert one[1..] == [] && Valid(cfg, s1, one[1..]) && Run(cfg, s1, one[1..]) == s1;
      assert Run(cfg, s, one).b.mode.Closed?;
    } else {
      ClosesOnThreshold(cfg, s1, es[1..]);
      var k :| 0 <= k <= |es[1..]| && Valid(cfg, s1, es[1..][..k]) && Run(cfg, s1, es[1..][..k]).b.mode.Closed?;
      assert es[..k + 1][1..] == es[1..][..k];
      assert Valid(cfg, s, es[..k + 1]);
    }
  }

  /** Requests in flight: admitted, minus those that succeeded or vanished. */
  lemma {:induction false} FlightBalance(cfg: Config, s: System, es: seq<Event>)
    requires Valid(cfg, s, es) && forall i :: 0 <= i < |es| ==> !es[i].Fail?
    ensures Run(cfg, s, es).inFlight + Count(es, Succeed) + Count(es, Vanish) ==
            s.inFlight + Admissions(cfg, s, es)
    decreases |es|
  {
    if es != [] {
      FlightBalance(cfg, Step(cfg, s, es[0]), es[1..]);
    }
  }

  /** If the threshold is within reach of the probes and of the requests still in flight
      from before, a run that starts an episode, admits all its probes and sees every one
      report success, has closed the breaker on the way. */
  lemma {:induction false} AllProbesSucceed(cfg: Config, s0: System, now: nat, es: seq<Event>)
    requires Begins(cfg, s0, now)
    requires cfg.successThreshold <= cfg.halfOpenMax + 1 + s0.inFlight
    requires Valid(cfg, Step(cfg, s0, TryAcquire(now)), es)
    requires forall i :: 0 <= i < |es| ==> !es[i].Fail?
    requires Count(es, Vanish) == 0
    requires var s := Step(cfg, s0, TryAcquire(now));
             1 + Admissions(cfg, s, es) >= cfg.halfOpenMax + 1 && Run(cfg, s, es).inFlight == 0
    ensures var s := Step(cfg, s0, TryAcquire(now));
            exists k :: 0 <= k <= |es| && Valid(cfg, s, es[..k]) && Run(cfg, s, es[..k]).b.mode.Closed?
  {
    var s := Step(cfg, s0, TryAcquire(now));
    FlightBalance(cfg, s, es);
    ClosesOnThreshold(cfg, s, es);
  }

  /** If the threshold is out of reach of both together, no step of the episode closes the
      breaker. */
  lemma {:induction false} UnreachableThreshold(cfg: Config, s0: System, now: nat, es: seq<Event>, e: Event)
    requires Begins(cfg, s0, now)
    requires cfg.successThreshold > cfg.halfOpenMax + 1 + s0.inFlight
    requires var s := Step(cfg, s0, TryAcquire(now));
             Valid(cfg, s, es) && StaysHalfOpen(cfg, s, es) && Possible(Run(cfg, s, es), e)
    ensures !Step(cfg, Run(cfg, Step(cfg, s0, TryAcquire(now)), es), e).b.mode.Closed?
  {
    var s := Step(cfg, s0, TryAcquire(now));
    EpisodeCounts(cfg, s, es);
    InvRun(cfg, s, es);
  }

  /** After `es`, all of it half-open, the event `e` closes the breaker. */
  predicate ClosesBy(cfg: Config, s: System, es: seq<Event>, e: Event) {
    && Valid(cfg, s, es) && StaysHalfOpen(cfg, s, es)
    && Possible(Run(cfg, s, es), e) && Step(cfg, Run(cfg, s, es), e).b.mode.Closed?
  }

  lemma {:induction false} ClosesLater(cfg: Config, s: System, first: Event, es: seq<Event>, e: Event)
    requires s.b.mode.HalfOpen? && Possible(s, first) && ClosesBy(cfg, Step(cfg, s, first), es, e)
    ensures ClosesBy(cfg, s, [first] + es, e)
  {
    assert ([first] + es)[1..] == es;
  }

  /** Successes still missing can all come from the requests in flight and the probes
      still to be admitted. */
  lemma {:induction false} FindClosing(cfg: Config, s: System) returns (es: seq<Event>, e: Event)
    requires s.b.mode.HalfOpen? && s.b.successes < AtLeastOne(cfg.successThreshold) && s.b.used <= cfg.halfOpenMax
    requires AtLeastOne(cfg.successThreshold) - s.b.successes <= s.inFlight + (cfg.halfOpenMax - s.b.used)
    ensures ClosesBy(cfg, s, es, e)
    decreases AtLeastOne(cfg.successThreshold) - s.b.successes, cfg.halfOpenMax - s.b.used
  {
    var first := if s.inFlight == 0 then TryAcquire(0) else Succeed;
    var next := Step(cfg, s, first);
    if next.b.mode.Closed? {
      es, e := [], first;
    } else {
      es, e := FindClosing(cfg, next);
      ClosesLater(cfg, s, first, es, e);
      es := [first] + es;
    }
  }

  /** An episode can end in a closed breaker exactly when the success threshold is at
      most the probes it may admit plus the requests in flight when it begins. */
  lemma {:induction false} ClosableExactly(cfg: Config, s0: System, now: nat)
    requires Begins(cfg, s0, now)
    ensures (exists es, e :: ClosesBy(cfg, Step(cfg, s0, TryAcquire(now)), es, e)) <==>
            AtLeastOne(cfg.successThreshold) <= cfg.halfOpenMax + 1 + s0.inFlight
  {
    var s := Step(cfg, s0, TryAcquire(now));
    if AtLeastOne(cfg.successThreshold) <= cfg.halfOpenMax + 1 + s0.inFlight {
      var es, e := FindClosing(cfg, s);
    } else {
      forall es, e | ClosesBy(cfg, s, es, e)
        ensures false
      {
        UnreachableThreshold(cfg, s0, now, es, e);
      }
    }
  }

  lemma {:induction false} RunCons(cfg: Config, s: System, e: Event, es: seq<Event>)
    requires Possible(s, e) && Valid(cfg, Step(cfg, s, e), es)
    ensures Valid(cfg, s, [e] + es) && Run(cfg, s, [e] + es) == Run(cfg, Step(cfg, s, e), es)
  {
    assert ([e] + es)[1..] == es;
  }

  /** A request admitted before the opening may count: a threshold of two is met by one
      probe and one late completion. */
  lemma {:induction false} LateSuccessCounts()
    ensures var cfg := Config(1, 2, 0, 0);
            var s0 := System(Breaker(Open(0), 0, 0, 0), 1, [false]);
            && (exists before :: Valid(cfg, INIT, before) && Run(cfg, INIT, before) == s0)
            && Begins(cfg, s0, 0) && cfg.successThreshold > cfg.halfOpenMax + 1
            && ClosesBy(cfg, Step(cfg, s0, TryAcquire(0)), [Succeed], Succeed)
  {
    var cfg := Config(1, 2, 0, 0);
    var s0 := System(Breaker(Open(0), 0, 0, 0), 1, [false]);
    var admit, two := TryAcquire(0), System(Breaker(Closed, 0, 0, 0), 2, []);
    assert Step(cfg, Step(cfg, INIT, admit), admit) == two;
    assert Failure(cfg, two.b, 0) == s0.b;
    assert Step(cfg, two, Fail(0)).recorded == s0.recorded;
    assert Step(cfg, two, Fail(0)) == s0;
    RunCons(cfg, two, Fail(0), []);
    RunCons(cfg, Step(cfg, INIT, admit), admit, [Fail(0)]);
    RunCons(cfg, INIT, admit, [admit] + ([Fail(0)] + []));
    var s := Step(cfg, s0, admit);
    var one := Step(cfg, s, Succeed);
    assert [Succeed][1..] == [] && Valid(cfg, one, []) && Run(cfg, one, []) == one;
    assert StaysHalfOpen(cfg, one, []);
  }

  // ------------------------------------------------------------------
  // The absorbing state
  // ------------------------------------------------------------------

  /** All probes handed out and none still running. */
  predicate Stuck(cfg: Config, s: System) {
    s.b.mode.HalfOpen? && s.b.used >= cfg.halfOpenMax && s.inFlight == 0
  }

  lemma {:induction false} StuckForever(cfg: Config, s: System, es: seq<Event>)
    requires Stuck(cfg, s) && Valid(cfg, s, es)
    ensures Run(cfg, s, es) == s && Admissions(cfg, s, es) == 0
    decreases |es|
  {
    if es != [] {
      StuckForever(cfg, s, es[1..]);
    }
  }

  predicate CanLeave(cfg: Config, s: System, es: seq<Event>) {
    Valid(cfg, s, es) && !Run(cfg, s, es).b.mode.HalfOpen?
  }

  /** A half-open breaker rejects everything for ever exactly when its probes are
      used up and none is in flight; otherwise two events can still end the episode. */
  lemma {:induction false} StuckExactly(cfg: Config, s: System)
    requires s.b.mode.HalfOpen?
    ensures !Stuck(cfg, s) ==> exists es :: |es| <= 2 && CanLeave(cfg, s, es)
    ensures Stuck(cfg, s) ==> forall es :: Valid(cfg, s, es) ==> Run(cfg, s, es) == s
  {
    if Stuck(cfg, s) {
      forall es | Valid(cfg, s, es)
        ensures Run(cfg, s, es) == s
      {
        StuckForever(cfg, s, es);
      }
    } else if s.inFlight > 0 {
      var es := [Fail(0)];
      assert es[1..] == [];
      var s1 := Step(cfg, s, Fail(0));
      assert Valid(cfg, s1, es[1..]) && Run(cfg, s1, es[1..]) == s1;
      assert CanLeave(cfg, s, es);
    } else {
      var es, last := [TryAcquire(0), Fail(0)], [Fail(0)];
      var s1 := Step(cfg, s, TryAcquire(0));
      var s2 := Step(cfg, s1, Fail(0));
      assert es[1..] == last && last[1..] == [];
      assert Valid(cfg, s2, last[1..]) && Run(cfg, s2, last[1..]) == s2;
      assert Valid(cfg, s1, last) && Run(cfg, s1, last) == s2;
      assert CanLeave(cfg, s, es);
    }
  }

  // ------------------------------------------------------------------
  // Which configurations get stuck
  // ------------------------------------------------------------------

  predicate NoVanish(es: seq<Event>) { forall i :: 0 <= i < |es| ==> es[i] != Vanish }

  predicate GetsStuck(cfg: Config, s: System, es: seq<Event>) {
    Valid(cfg, s, es) && Stuck(cfg, Run(cfg, s, es))
  }

  /** Without a vanished request, every probe handed out is in flight or has succeeded. */
  predicate ProbesHeld(s: System) { s.b.mode.HalfOpen? ==> s.b.successes + s.inFlight >= s.b.used + 1 }

  lemma {:induction false} HeldRun(cfg: Config, s: System, es: seq<Event>)
    requires ProbesHeld(s) && Valid(cfg, s, es) && NoVanish(es)
    ensures ProbesHeld(Run(cfg, s, es))
    decreases |es|
  {
    if es != [] {
      assert es[0] != Vanish;
      assert forall i :: 0 <= i < |es[1..]| ==> es[1..][i] == es[i + 1];
      HeldRun(cfg, Step(cfg, s, es[0]), es[1..]);
    }
  }

  lemma {:induction false} StuckAfter(cfg: Config, s: System, e: Event, es: seq<Event>)
    requires Possible(s, e) && GetsStuck(cfg, Step(cfg, s, e), es)
    ensures GetsStuck(cfg, s, [e] + es)
    ensures e != Vanish && NoVanish(es) ==> NoVanish([e] + es)
  {
    RunCons(cfg, s, e, es);
  }

  lemma {:induction false} StuckAlready(cfg: Config, s: System)
    requires Stuck(cfg, s)
    ensures GetsStuck(cfg, s, []) && NoVanish([])
  {
  }

  /** Spend the probes one by one, each ended by `last`. */
  lemma {:induction false} SpendProbes(cfg: Config, s: System, last: Event) returns (es: seq<Event>)
    requires s.b.mode.HalfOpen? && s.inFlight == 1 && s.b.successes <= s.b.used <= cfg.halfOpenMax
    requires last == Vanish || (last == Succeed && cfg.successThreshold > cfg.halfOpenMax + 1)
    ensures GetsStuck(cfg, s, es) && (last == Succeed ==> NoVanish(es))
    decreases cfg.halfOpenMax - s.b.used
  {
    var idle := Step(cfg, s, last);
    if s.b.used == cfg.halfOpenMax {
      StuckAlready(cfg, idle);
      StuckAfter(cfg, s, last, []);
      es := [last] + [];
    } else {
      var rest := SpendProbes(cfg, Step(cfg, idle, TryAcquire(0)), last);
      StuckAfter(cfg, idle, TryAcquire(0), rest);
      StuckAfter(cfg, s, last, [TryAcquire(0)] + rest);
      es := [last] + ([TryAcquire(0)] + rest);
    }
  }

  /** Fail until the breaker opens, let the open period pass, and spend the probes. */
  lemma {:induction false} FailAndSpend(cfg: Config, s: System, last: Event) returns (es: seq<Event>)
    requires s.b.mode.Closed? && s.inFlight == 0 && s.b.failures < AtLeastOne(cfg.failureThreshold)
    requires last == Vanish || (last == Succeed && cfg.successThreshold > cfg.halfOpenMax + 1)
    ensures GetsStuck(cfg, s, es) && (last == Succeed ==> NoVanish(es))
    decreases AtLeastOne(cfg.failureThreshold) - s.b.failures
  {
    var busy := Step(cfg, s, TryAcquire(0));
    var failed := Step(cfg, busy, Fail(0));
    var rest;
    if failed.b.mode.Closed? {
      rest := FailAndSpend(cfg, failed, last);
    } else {
      var probe := TryAcquire(cfg.openTimeout);
      var spent := SpendProbes(cfg, Step(cfg, failed, probe), last);
      StuckAfter(cfg, failed, probe, spent);
      rest := [probe] + spent;
    }
    StuckAfter(cfg, busy, Fail(0), rest);
    StuckAfter(cfg, s, TryAcquire(0), [Fail(0)] + rest);
    es := [TryAcquire(0)] + ([Fail(0)] + rest);
  }

  /** As long as every admitted request reports back, a breaker can end up rejecting
      everything for ever exactly when its success threshold is above
      `half_open_max_requests + 1`. */
  lemma {:induction false} StuckReachableExactly(cfg: Config)
    ensures (exists es :: GetsStuck(cfg, INIT, es) && NoVanish(es)) <==>
            cfg.successThreshold > cfg.halfOpenMax + 1
  {
    if cfg.successThreshold > cfg.halfOpenMax + 1 {
      var es := FailAndSpend(cfg, INIT, Succeed);
    }
    if es :| GetsStuck(cfg, INIT, es) && NoVanish(es) {
      HeldRun(cfg, INIT, es);
      InvRun(cfg, INIT, es);
    }
  }

  /** If requests may vanish, every configuration can. */
  lemma {:induction false} VanishedProbesStick(cfg: Config)
    ensures exists es :: GetsStuck(cfg, INIT, es)
  {
    var es := FailAndSpend(cfg, INIT, Vanish);
  }

  /** The shortest way: one failure, then one probe that succeeds and is not enough. */
  lemma {:induction false} StuckExample()
    ensures GetsStuck(Config(1, 2, 0, 0), INIT, [TryAcquire(0), Fail(0), TryAcquire(0), Succeed])
  {
    var cfg, admit := Config(1, 2, 0, 0), TryAcquire(0);
    var busy := Step(cfg, INIT, admit);
    var open := Step(cfg, busy, Fail(0));
    var half := Step(cfg, open, admit);
    StuckAlready(cfg, Step(cfg, half, Succeed));
    StuckAfter(cfg, half, Succeed, []);
    StuckAfter(cfg, open, admit, [Succeed]);
    StuckAfter(cfg, busy, Fail(0), [admit, Succeed]);
    StuckAfter(cfg, INIT, admit, [Fail(0), admit, Succeed]);
    assert [admit] + [Fail(0), admit, Succeed] == [admit, Fail(0), admit, Succeed];
    assert [Fail(0)] + [admit, Succeed] == [Fail(0), admit, Succeed] && [admit] + [Succeed] == [admit, Succeed];
    assert [Succeed] + [] == [Succeed];
  }

  // ------------------------------------------------------------------
  // The object
  // ------------------------------------------------------------------

  class Guard {
    const cfg: Config
    var mode: Mode
    var failureCount: nat
    var successCount: nat
    var halfOpenUsed: nat

    function View(): Breaker
      reads this
    {
      Breaker(mode, failureCount, successCount, halfOpenUsed)
    }

    constructor (cfg: Config)
      ensures this.cfg == cfg && View() == INIT.b
    {
      this.cfg := cfg;
      mode, failureCount, successCount, halfOpenUsed := Closed, 0, 0, 0;
    }

    method TryAcquire(now: nat) returns (admitted: bool)
      modifies this
      ensures View() == Acquire(cfg, old(View()), now)
      ensures admitted == Admits(cfg, old(View()), now)
    {
      match mode
      case Closed => admitted := true;
      case Open(since) =>
        admitted := Elapsed(since, now) >= cfg.openTimeout;
        if admitted {
          mode, halfOpenUsed, successCount := HalfOpen, 0, 0;
        }
      case HalfOpen =>
        admitted := halfOpenUsed < cfg.halfOpenMax;
        if admitted {
          halfOpenUsed := halfOpenUsed + 1;
        }
    }

    method RecordSuccess()
      modifies this
      ensures View() == Success(cfg, old(View()))
    {
      match mode
      case HalfOpen =>
        successCount := successCount + 1;
        if successCount >= cfg.successThreshold {
          mode, failureCount, successCount := Closed, 0, 0;
        }
      case Closed => failureCount := 0;
      case Open(_) =>
    }

    method RecordFailure(now: nat)
      modifies this
      ensures View() == Failure(cfg, old(View()), now)
    {
      match mode
      case Closed =>
        failureCount := failureCount + 1;
        if failureCount >= cfg.failureThreshold {
          mode, failureCount := Open(now), 0;
        }
      case HalfOpen => mode, failureCount := Open(now), 0;
      case Open(_) =>
    }
  }
}

/** `RetryPolicy::delay`: exponential back-off in saturating machine arithmetic. */
module RetryDelay {
  import opened Prelude

  const U32_MAX: nat := 0xFFFF_FFFF
  const U64_MAX: nat := 0xFFFF_FFFF_FFFF_FFFF

  function Pow2(n: nat): nat { if n == 0 then 1 else 2 * Pow2(n - 1) }

  /** The delay before jitter; both arguments are whole milliseconds in 64 bits. */
  function Capped(base: nat, cap: nat, attempt: nat): nat {
    Min(Min(base * Min(Pow2(attempt), U32_MAX), U64_MAX), cap)
  }

  /** The delay with a random 64-bit draw for the jitter. */
  function Delay(base: nat, cap: nat, jitter: bool, attempt: nat, random: nat): nat {
    var capped := Capped(base, cap, attempt);
    var range := capped / 5;
    if jitter && range > 0 then capped + random % range else capped
  }

  lemma {:induction false} Pow2Monotone(a: nat, b: nat)
    requires a <= b
    ensures 1 <= Pow2(a) <= Pow2(b)
  {
    if a < b {
      Pow2Monotone(a, b - 1);
    } else if a > 0 {
      Pow2Monotone(a - 1, a - 1);
    }
  }

  lemma {:induction false} Pow2At32()
    ensures Pow2(31) == 0x8000_0000 && Pow2(32) == 0x1_0000_0000
  {
    assert Pow2(8) == 0x100;
    assert Pow2(16) == 0x1_0000;
    assert Pow2(24) == 0x100_0000;
  }

  lemma {:induction false} MulMonotone(x: nat, a: nat, b: nat)
    requires a <= b
    ensures x * a <= x * b
  {
  }

  /** Later attempts never wait less, and no attempt waits longer than the cap. */
  lemma {:induction false} DelaysGrow(base: nat, cap: nat, a: nat, b: nat)
    requires a <= b
    ensures Capped(base, cap, a) <= Capped(base, cap, b) <= cap
  {
    Pow2Monotone(a, b);
    MulMonotone(base, Min(Pow2(a), U32_MAX), Min(Pow2(b), U32_MAX));
  }

  /** Jitter adds less than a fifth and nothing is ever subtracted. */
  lemma {:induction false} JitterBounds(base: nat, cap: nat, jitter: bool, attempt: nat, random: nat)
    ensures var capped := Capped(base, cap, attempt);
            var d := Delay(base, cap, jitter, attempt, random);
            capped <= d && (d == capped || (jitter && 5 * (d - capped) < capped))
  {
  }

  /** The draws: up to one less than the range, which is drawn. */
  lemma {:induction false} Draws(m: nat, random: nat)
    requires m > 0
    ensures random % m < m && (m - 1) % m == m - 1
  {
  }

  lemma {:induction false} SmallDraw(m: nat, k: nat)
    requires k < m
    ensures k % m == k
  {
  }

  /** The delays a jittered attempt can take are exactly those from the capped delay up to,
      but not including, a fifth more. */
  lemma {:induction false} DrawsExactly(base: nat, cap: nat, attempt: nat, d: nat)
    ensures var c := Capped(base, cap, attempt);
            (exists random :: Delay(base, cap, true, attempt, random) == d) <==>
            d == c || c <= d < c + c / 5
  {
    var c := Capped(base, cap, attempt);
    var m := c / 5;
    if d == c || c <= d < c + m {
      if m > 0 {
        SmallDraw(m, d - c);
      }
      assert Delay(base, cap, true, attempt, d - c) == d;
    }
    forall random | Delay(base, cap, true, attempt, random) == d
      ensures d == c || c <= d < c + m
    {
      if m > 0 {
        Draws(m, random);
      }
    }
  }

  lemma {:induction false} NoJitter(base: nat, cap: nat, attempt: nat, random: nat)
    ensures Delay(base, cap, false, attempt, random) == Capped(base, cap, attempt)
  {
  }

  /** Jitter may push the delay past the cap: it stays within for every draw exactly when
      there is no jitter to draw or the largest draw still fits under the cap. */
  lemma {:induction false} JitterPassesCap(base: nat, cap: nat, attempt: nat)
    ensures var c := Capped(base, cap, attempt);
            (forall random :: Delay(base, cap, true, attempt, random) <= cap) <==>
            c / 5 <= 1 || c + c / 5 - 1 <= cap
  {
    var c := Capped(base, cap, attempt);
    if c / 5 > 1 && c + c / 5 - 1 > cap {
      Draws(c / 5, 0);
      assert Delay(base, cap, true, attempt, c / 5 - 1) > cap;
    } else {
      forall random
        ensures Delay(base, cap, true, attempt, random) <= cap
      {
        if c / 5 > 0 {
          Draws(c / 5, random);
        }
      }
    }
  }

  /** At the cap that is: exactly when the cap is below ten milliseconds. */
  lemma {:induction false} JitterAtCap(base: nat, cap: nat, attempt: nat)
    requires Capped(base, cap, attempt) == cap
    ensures (forall random :: Delay(base, cap, true, attempt, random) <= cap) <==> cap < 10
  {
    JitterPassesCap(base, cap, attempt);
  }

  /** The factor doubles up to attempt 31 and is 2^32 - 1 from then on; the product stays
      within 64 bits. */
  lemma {:induction false} SaturatesExactly(base: nat, cap: nat, attempt: nat)
    ensures Capped(base, cap, attempt) ==
            Min(Min(base * (if attempt < 32 then Pow2(attempt) else 4_294_967_295), 18_446_744_073_709_551_615), cap)
  {
    Pow2At32();
    if attempt < 32 {
      Pow2Monotone(attempt, 31);
    } else {
      Pow2Monotone(32, attempt);
    }
  }

  /** The saturation is invisible, i.e. every attempt waits `min(base * 2^n, cap)`,
      exactly when the base is zero or the cap is at most `base * (2^32 - 1)`. */
  lemma {:induction false} DoublingExactly(base: nat, cap: nat)
    requires cap <= U64_MAX
    ensures (forall n :: Capped(base, cap, n) == Min(base * Pow2(n), cap)) <==>
            base == 0 || cap <= base * U32_MAX
  {
    Pow2At32();
    if base == 0 || cap <= base * U32_MAX {
      forall n
        ensures Capped(base, cap, n) == Min(base * Pow2(n), cap)
      {
        if n <= 31 {
          Pow2Monotone(n, 31);
        } else {
          Pow2Monotone(32, n);
          MulMonotone(base, U32_MAX, Pow2(n));
        }
      }
    } else {
      MulMonotone(base, U32_MAX + 1, Pow2(32));
      assert Capped(base, cap, 32) == base * U32_MAX;
      assert Min(base * Pow2(32), cap) > base * U32_MAX;
    }
  }
}
