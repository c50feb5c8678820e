/** The rate limiter of `crates/justapi-core/src/rate_limit.rs`: the Generic Cell
    Rate Algorithm (Annex A of ITU-T Recommendation I.371) over a stored
    theoretical arrival time (TAT) and its expiry, in whole microseconds. */
module RateLimit {
  import opened Prelude

  const MICROS: nat := 1_000_000
  const U64: nat := 0x1_0000_0000_0000_0000

  /** Interval per token and burst capacity, both in microseconds. */
  datatype Config = Config(t: nat, tau: nat)

  datatype SetUp = Ready(config: Config) | ZeroRate

  /** The set-up in `check_limit`; the product is a 64-bit one. */
  function Configure(capacity: nat, rate: nat): SetUp {
    if rate == 0 then ZeroRate
    else
      var t := MICROS / rate;
      Ready(Config(t, (t * capacity) % U64))
  }

  /** A request and what it costs in microseconds: the interval times its tokens. */
  datatype Request = Request(now: nat, cost: nat)
  datatype Reply = Admitted | Rejected(retryAfterMs: nat)

  /** What the store holds for one key. A key past its expiry reads as absent. */
  datatype Store = Store(tat: Option<nat>, expiresAt: Option<nat>)

  const EMPTY := Store(None, None)

  function CeilDiv(a: nat, b: nat): nat
    requires b > 0
  {
    (a + b - 1) / b
  }

  function Read(s: Store, now: nat): Option<nat> {
    if s.expiresAt.Some? && s.expiresAt.value <= now then None else s.tat
  }

  datatype Decision = Decision(tat: Option<nat>, reply: Reply)

  /** The arithmetic of the script, given the TAT it read. */
  function Decide(tau: nat, tat: Option<nat>, q: Request): Decision {
    var newTat := Base(tat, q.now) + q.cost;
    if newTat - tau > q.now then Decision(tat, Rejected(CeilDiv(newTat - tau - q.now, 1000)))
    else Decision(Some(newTat), Admitted)
  }

  /** The whole script: an admitted request overwrites the TAT and its time to live. */
  function Script(tau: nat, s: Store, q: Request): (Store, Reply) {
    var d := Decide(tau, Read(s, q.now), q);
    if d.reply.Rejected? then (s, d.reply)
    else
      var ttl := CeilDiv(Max(0, d.tat.value - q.now), MICROS);
      (Store(d.tat, if ttl > 0 then Some(q.now + ttl * MICROS) else None), Admitted)
  }

  predicate Ordered(reqs: seq<Request>) {
    forall i, j :: 0 <= i < j < |reqs| ==> reqs[i].now <= reqs[j].now
  }

  function Replies(tau: nat, s: Store, reqs: seq<Request>): (r: seq<Reply>)
    ensures |r| == |reqs|
    decreases |reqs|
  {
    if reqs == [] then []
    else
      var (s', reply) := Script(tau, s, reqs[0]);
      [reply] + Replies(tau, s', reqs[1..])
  }

  /** A stored TAT is read until its expiry and not from then on. */
  lemma {:induction false} ReadUntilExpiry(tat: nat, expiresAt: nat, now: nat)
    ensures Read(Store(Some(tat), Some(expiresAt)), now) == if now < expiresAt then Some(tat) else None
    ensures Read(Store(Some(tat), None), now) == Some(tat)
  {
  }

  /** An admitted request leaves a key that expires once its TAT has passed and within a
      second of it, unless the TAT is the present, which is kept for good. */
  lemma {:induction false} KeysExpire(tau: nat, s: Store, q: Request)
    requires Script(tau, s, q).1.Admitted?
    ensures var u := Script(tau, s, q).0;
            && u.tat.Some? && u.tat.value >= q.now
            && (u.expiresAt.Some? <==> u.tat.value > q.now)
            && (u.expiresAt.Some? ==> u.tat.value <= u.expiresAt.value < u.tat.value + 1_000_000)
  {
    CeilDivCovers(Script(tau, s, q).0.tat.value - q.now, MICROS);
  }

  // ------------------------------------------------------------------
  // Expiry changes nothing
  // ------------------------------------------------------------------

  /** The same limiter over a store that never expires anything. */
  function Timeless(tau: nat, tat: Option<nat>, reqs: seq<Request>): (r: seq<Reply>)
    ensures |r| == |reqs|
    decreases |reqs|
  {
    if reqs == [] then []
    else
      var d := Decide(tau, tat, reqs[0]);
      [d.reply] + Timeless(tau, d.tat, reqs[1..])
  }

  function TatAfter(tau: nat, tat: Option<nat>, reqs: seq<Request>): Option<nat>
    decreases |reqs|
  {
    if reqs == [] then tat else TatAfter(tau, Decide(tau, tat, reqs[0]).tat, reqs[1..])
  }

  function StoreAfter(tau: nat, s: Store, reqs: seq<Request>): Store
    decreases |reqs|
  {
    if reqs == [] then s else StoreAfter(tau, Script(tau, s, reqs[0]).0, reqs[1..])
  }

  /** A key expires once its TAT has passed, and within a second of it. */
  predicate ExpiryAfterTat(s: Store) {
    s.expiresAt.Some? ==> s.tat.Some? && s.tat.value <= s.expiresAt.value < s.tat.value + MICROS
  }

  lemma {:induction false} CeilDivCovers(a: nat, b: nat)
    requires b > 0
    ensures a <= CeilDiv(a, b) * b < a + b
  {
  }

  lemma {:induction false} ScriptIgnoresExpiry(tau: nat, s: Store, q: Request)
    requires ExpiryAfterTat(s)
    ensures Script(tau, s, q).1 == Decide(tau, s.tat, q).reply
    ensures Script(tau, s, q).0.tat == Decide(tau, s.tat, q).tat
    ensures ExpiryAfterTat(Script(tau, s, q).0)
  {
    var d := Decide(tau, Read(s, q.now), q);
    if d.reply.Admitted? {
      CeilDivCovers(Max(0, d.tat.value - q.now), MICROS);
    }
  }

  /** Key expiry by the computed time to live changes neither any later reply nor
      any stored value, over every run. */
  lemma {:induction false} ExpiryIrrelevant(tau: nat, s: Store, reqs: seq<Request>)
    requires ExpiryAfterTat(s)
    ensures Replies(tau, s, reqs) == Timeless(tau, s.tat, reqs)
    ensures StoreAfter(tau, s, reqs).tat == TatAfter(tau, s.tat, reqs)
    ensures ExpiryAfterTat(StoreAfter(tau, s, reqs))
    decreases |reqs|
  {
    if reqs != [] {
      ScriptIgnoresExpiry(tau, s, reqs[0]);
      ExpiryIrrelevant(tau, Script(tau, s, reqs[0]).0, reqs[1..]);
    }
  }

  // ------------------------------------------------------------------
  // Refinement of a token bucket
  // ------------------------------------------------------------------

  datatype Bucket = Bucket(level: nat, last: nat)

  /** A plain bucket: capped at tau, refilled one per microsecond, cost t per token. */
  function Bucketed(tau: nat, b: Bucket, reqs: seq<Request>): seq<Reply>
    decreases |reqs|
  {
    if reqs == [] then []
    else
      var q := reqs[0];
      var level := Min(tau, b.level + Max(0, q.now - b.last));
      var cost := q.cost;
      if cost <= level then [Admitted] + Bucketed(tau, Bucket(level - cost, q.now), reqs[1..])
      else [Rejected(CeilDiv(cost - level, 1000))] + Bucketed(tau, Bucket(level, q.now), reqs[1..])
  }

  function Base(tat: Option<nat>, now: nat): nat {
    if tat.Some? then Max(tat.value, now) else now
  }

  function Debt(tat: Option<nat>, now: nat): nat {
    if tat.None? then 0 else Max(0, tat.value - now)
  }

  lemma {:induction false} OrderedTail(reqs: seq<Request>)
    requires Ordered(reqs) && reqs != []
    ensures Ordered(reqs[1..])
    ensures forall i :: 0 <= i < |reqs| ==> reqs[0].now <= reqs[i].now
  {
  }

  /** One decision, seen as a bucket whose level is tau minus the outstanding debt. */
  lemma {:induction false} DecideIsBucket(tau: nat, tat: Option<nat>, last: nat, level: nat, q: Request)
    requires last <= q.now && Debt(tat, last) + level == tau
    ensures var full := Min(tau, level + (q.now - last));
            var cost := q.cost;
            var d := Decide(tau, tat, q);
            if cost <= full then d.reply == Admitted && Debt(d.tat, q.now) + (full - cost) == tau
            else d.reply == Rejected(CeilDiv(cost - full, 1000)) && Debt(d.tat, q.now) + full == tau
  {
    var full := Min(tau, level + (q.now - last));
    assert Debt(tat, q.now) + full == tau;
    assert Base(tat, q.now) == q.now + Debt(tat, q.now);
  }

  lemma {:induction false} TimelessIsBucket(tau: nat, tat: Option<nat>, b: Bucket, reqs: seq<Request>)
    requires Ordered(reqs) && (reqs != [] ==> b.last <= reqs[0].now)
    requires Debt(tat, b.last) + b.level == tau
    ensures Timeless(tau, tat, reqs) == Bucketed(tau, b, reqs)
    decreases |reqs|
  {
    if reqs != [] {
      var q := reqs[0];
      OrderedTail(reqs);
      var level := Min(tau, b.level + (q.now - b.last));
      var cost := q.cost;
      var d := Decide(tau, tat, q);
      DecideIsBucket(tau, tat, b.last, b.level, q);
      var b' := Bucket(if cost <= level then level - cost else level, q.now);
      assert Bucketed(tau, b, reqs) == [d.reply] + Bucketed(tau, b', reqs[1..]);
      TimelessIsBucket(tau, d.tat, b', reqs[1..]);
    }
  }

  /** Over every run the limiter answers exactly as a token bucket that starts full. */
  lemma {:induction false} RefinesTokenBucket(tau: nat, reqs: seq<Request>)
    requires Ordered(reqs)
    ensures Replies(tau, EMPTY, reqs) == Bucketed(tau, Bucket(tau, 0), reqs)
  {
    ExpiryIrrelevant(tau, EMPTY, reqs);
    TimelessIsBucket(tau, None, Bucket(tau, 0), reqs);
  }

  // ------------------------------------------------------------------
  // How much any window admits
  // ------------------------------------------------------------------

  function AdmittedCost(reqs: seq<Request>, replies: seq<Reply>): nat
    requires |reqs| == |replies|
    decreases |reqs|
  {
    if reqs == [] then 0
    else (if replies[0].Admitted? then reqs[0].cost else 0) + AdmittedCost(reqs[1..], replies[1..])
  }

  /** Every admission pushes the TAT up by its cost, and leaves it within tau of now. */
  ghost predicate Climbs(tau: nat, tat: Option<nat>, reqs: seq<Request>)
    requires reqs != []
  {
    var spent := AdmittedCost(reqs, Timeless(tau, tat, reqs));
    var last := TatAfter(tau, tat, reqs);
    if Admitted in Timeless(tau, tat, reqs)
    then last.Some? && Base(tat, reqs[0].now) + spent <= last.value <= reqs[|reqs| - 1].now + tau
    else spent == 0 && last == tat
  }

  lemma {:induction false} AdmittedCons(tau: nat, tat: Option<nat>, reqs: seq<Request>)
    requires reqs != []
    ensures var d := Decide(tau, tat, reqs[0]);
            var replies, later := Timeless(tau, tat, reqs), Timeless(tau, d.tat, reqs[1..]);
            && (Admitted in replies <==> d.reply.Admitted? || Admitted in later)
            && AdmittedCost(reqs, replies) ==
               (if d.reply.Admitted? then reqs[0].cost else 0) + AdmittedCost(reqs[1..], later)
            && TatAfter(tau, tat, reqs) == TatAfter(tau, d.tat, reqs[1..])
  {
    var d := Decide(tau, tat, reqs[0]);
    var replies, later := Timeless(tau, tat, reqs), Timeless(tau, d.tat, reqs[1..]);
    assert replies == [d.reply] + later && replies[1..] == later;
  }

  lemma {:induction false} ClimbOne(tau: nat, tat: Option<nat>, q: Request)
    ensures Climbs(tau, tat, [q])
  {
    AdmittedCons(tau, tat, [q]);
    assert [q][1..] == [];
  }

  lemma {:induction false} ClimbCons(tau: nat, tat: Option<nat>, reqs: seq<Request>)
    requires |reqs| > 1 && Ordered(reqs) && Climbs(tau, Decide(tau, tat, reqs[0]).tat, reqs[1..])
    ensures Climbs(tau, tat, reqs)
  {
    var d, rest := Decide(tau, tat, reqs[0]), reqs[1..];
    AdmittedCons(tau, tat, reqs);
    var here := if d.reply.Admitted? then reqs[0].cost else 0;
    var later := AdmittedCost(rest, Timeless(tau, d.tat, rest));
    assert rest[0] == reqs[1] && rest[|rest| - 1] == reqs[|reqs| - 1];
    assert reqs[0].now <= reqs[1].now && reqs[0].now <= reqs[|reqs| - 1].now;
  }

  lemma {:induction false} TatClimbs(tau: nat, tat: Option<nat>, reqs: seq<Request>)
    requires reqs != [] && Ordered(reqs)
    ensures Climbs(tau, tat, reqs)
    decreases |reqs|
  {
    if |reqs| == 1 {
      assert reqs == [reqs[0]];
      ClimbOne(tau, tat, reqs[0]);
    } else {
      OrderedTail(reqs);
      TatClimbs(tau, Decide(tau, tat, reqs[0]).tat, reqs[1..]);
      ClimbCons(tau, tat, reqs);
    }
  }

  lemma {:induction false} TimelessSplit(tau: nat, tat: Option<nat>, a: seq<Request>, b: seq<Request>)
    ensures Timeless(tau, tat, a + b) == Timeless(tau, tat, a) + Timeless(tau, TatAfter(tau, tat, a), b)
    ensures TatAfter(tau, tat, a + b) == TatAfter(tau, TatAfter(tau, tat, a), b)
    decreases |a|
  {
    if a == [] {
      assert a + b == b;
    } else {
      assert (a + b)[0] == a[0] && (a + b)[1..] == a[1..] + b;
      TimelessSplit(tau, Decide(tau, tat, a[0]).tat, a[1..], b);
    }
  }

  lemma {:induction false} RunBound(tau: nat, tat: Option<nat>, w: seq<Request>)
    requires w != [] && Ordered(w)
    ensures AdmittedCost(w, Timeless(tau, tat, w)) <= tau + (w[|w| - 1].now - w[0].now)
  {
    TatClimbs(tau, tat, w);
    assert w[0].now <= w[|w| - 1].now && Base(tat, w[0].now) >= w[0].now;
  }

  lemma {:induction false} WindowIsRun(tau: nat, reqs: seq<Request>, i: nat, j: nat)
    requires i < j <= |reqs|
    ensures Replies(tau, EMPTY, reqs)[i..j] == Timeless(tau, TatAfter(tau, None, reqs[..i]), reqs[i..j])
  {
    ExpiryIrrelevant(tau, EMPTY, reqs);
    var a, w, z := reqs[..i], reqs[i..j], reqs[j..];
    assert reqs == a + (w + z);
    TimelessSplit(tau, None, a, w + z);
    TimelessSplit(tau, TatAfter(tau, None, a), w, z);
  }

  /** Over every window of every run: what is admitted costs at most the burst
      plus the time the window spans. */
  lemma {:induction false} WindowBound(tau: nat, reqs: seq<Request>, i: nat, j: nat)
    requires Ordered(reqs) && i < j <= |reqs|
    ensures AdmittedCost(reqs[i..j], Replies(tau, EMPTY, reqs)[i..j]) <=
            tau + (reqs[j - 1].now - reqs[i].now)
  {
    WindowIsRun(tau, reqs, i, j);
    var w := reqs[i..j];
    assert w[0] == reqs[i] && w[|w| - 1] == reqs[j - 1];
    RunBound(tau, TatAfter(tau, None, reqs[..i]), w);
  }

  // ------------------------------------------------------------------
  // What is always admitted, and what never is
  // ------------------------------------------------------------------

  function Cost(reqs: seq<Request>): nat {
    if reqs == [] then 0 else reqs[0].cost + Cost(reqs[1..])
  }

  /** Every window asks for no more than the burst and the time it spans allow. */
  predicate Fits(tau: nat, reqs: seq<Request>) {
    forall i, j :: 0 <= i < j <= |reqs| ==>
      Cost(reqs[i..j]) <= tau + (reqs[j - 1].now - reqs[i].now)
  }

  lemma {:induction false} CostSnoc(reqs: seq<Request>, q: Request)
    ensures Cost(reqs + [q]) == Cost(reqs) + q.cost
  {
    if reqs == [] {
      assert (reqs + [q])[1..] == [];
    } else {
      CostSnoc(reqs[1..], q);
      assert (reqs + [q])[1..] == reqs[1..] + [q];
    }
  }

  lemma {:induction false} WindowSnoc(reqs: seq<Request>, i: nat, n: nat)
    requires i <= n < |reqs|
    ensures Cost(reqs[i..n + 1]) == Cost(reqs[i..n]) + reqs[n].cost
  {
    assert reqs[i..n + 1] == reqs[i..n] + [reqs[n]];
    CostSnoc(reqs[i..n], reqs[n]);
  }

  predicate AllAdmitted(replies: seq<Reply>) { forall i :: 0 <= i < |replies| ==> replies[i].Admitted? }

  lemma {:induction false} DecideSnoc(tau: nat, reqs: seq<Request>, n: nat)
    requires n < |reqs|
    ensures var d := Decide(tau, TatAfter(tau, None, reqs[..n]), reqs[n]);
            && Timeless(tau, None, reqs[..n + 1]) == Timeless(tau, None, reqs[..n]) + [d.reply]
            && TatAfter(tau, None, reqs[..n + 1]) == d.tat
  {
    var q, tat := [reqs[n]], TatAfter(tau, None, reqs[..n]);
    assert reqs[..n + 1] == reqs[..n] + q;
    TimelessSplit(tau, None, reqs[..n], q);
    assert q[1..] == [] && Timeless(tau, Decide(tau, tat, q[0]).tat, q[1..]) == [];
  }

  /** The stored TAT is the time of some request plus the cost of everything from it on:
      the start of the busy period the limiter is in. */
  ghost predicate BusySince(tau: nat, reqs: seq<Request>, n: nat, i: nat)
    requires i < n <= |reqs|
  {
    TatAfter(tau, None, reqs[..n]) == Some(reqs[i].now + Cost(reqs[i..n]))
  }

  /** One decision in a busy period that began at `start` with the cost `w` so far. */
  lemma {:induction false} DecideBusy(tau: nat, tat: Option<nat>, q: Request, start: nat, w: nat)
    requires start <= q.now && Base(tat, q.now) == start + w
    requires w + q.cost <= tau + (q.now - start)
    ensures Decide(tau, tat, q) == Decision(Some(start + w + q.cost), Admitted)
  {
    assert w + q.cost == w + q.cost;
  }

  lemma {:induction false} BusyStep(tau: nat, reqs: seq<Request>, n: nat, i: nat) returns (k: nat)
    requires Ordered(reqs) && Fits(tau, reqs) && n < |reqs| && (n > 0 ==> i < n && BusySince(tau, reqs, n, i))
    ensures k <= n && BusySince(tau, reqs, n + 1, k)
    ensures Decide(tau, TatAfter(tau, None, reqs[..n]), reqs[n]).reply.Admitted?
  {
    DecideSnoc(tau, reqs, n);
    var tat := TatAfter(tau, None, reqs[..n]);
    if n == 0 {
      assert tat == None;
    }
    k := if n > 0 && tat.value >= reqs[n].now then i else n;
    WindowSnoc(reqs, k, n);
    WindowFits(tau, reqs, k, n + 1);
    DecideBusy(tau, tat, reqs[n], reqs[k].now, Cost(reqs[k..n]));
  }

  lemma {:induction false} WindowFits(tau: nat, reqs: seq<Request>, i: nat, j: nat)
    requires Ordered(reqs) && Fits(tau, reqs) && i < j <= |reqs|
    ensures reqs[i].now <= reqs[j - 1].now
    ensures Cost(reqs[i..j]) <= tau + (reqs[j - 1].now - reqs[i].now)
  {
  }

  lemma {:induction false} ServedUpTo(tau: nat, reqs: seq<Request>, n: nat) returns (i: nat)
    requires Ordered(reqs) && Fits(tau, reqs) && n <= |reqs|
    ensures AllAdmitted(Timeless(tau, None, reqs[..n]))
    ensures n > 0 ==> i < n && BusySince(tau, reqs, n, i)
    decreases n
  {
    i := 0;
    if n > 0 {
      var k := ServedUpTo(tau, reqs, n - 1);
      i := BusyStep(tau, reqs, n - 1, k);
      DecideSnoc(tau, reqs, n - 1);
    }
  }

  lemma {:induction false} AllAdmittedCost(reqs: seq<Request>, replies: seq<Reply>)
    requires |reqs| == |replies| && AllAdmitted(replies)
    ensures AdmittedCost(reqs, replies) == Cost(reqs)
    decreases |reqs|
  {
    if reqs != [] {
      AllAdmittedCost(reqs[1..], replies[1..]);
    }
  }

  /** The converse of the window bound, and with it the exact condition: over every run
      all requests are admitted if and only if every window fits. */
  lemma {:induction false} ServedExactly(tau: nat, reqs: seq<Request>)
    requires Ordered(reqs)
    ensures AllAdmitted(Replies(tau, EMPTY, reqs)) <==> Fits(tau, reqs)
  {
    ExpiryIrrelevant(tau, EMPTY, reqs);
    if Fits(tau, reqs) {
      var i := ServedUpTo(tau, reqs, |reqs|);
      assert reqs[..|reqs|] == reqs;
    }
    if AllAdmitted(Replies(tau, EMPTY, reqs)) {
      forall i, j | 0 <= i < j <= |reqs|
        ensures Cost(reqs[i..j]) <= tau + (reqs[j - 1].now - reqs[i].now)
      {
        WindowBound(tau, reqs, i, j);
        AllAdmittedCost(reqs[i..j], Replies(tau, EMPTY, reqs)[i..j]);
      }
    }
  }

  /** A request that costs more than the burst is refused in every run, whatever is stored. */
  lemma {:induction false} OversizedNeverAdmitted(tau: nat, tat: Option<nat>, reqs: seq<Request>, i: nat)
    requires i < |reqs| && tau < reqs[i].cost
    ensures Timeless(tau, tat, reqs)[i].Rejected?
    decreases |reqs|
  {
    if i > 0 {
      OversizedNeverAdmitted(tau, Decide(tau, tat, reqs[0]).tat, reqs[1..], i - 1);
    }
  }

  // ------------------------------------------------------------------
  // The retry hint
  // ------------------------------------------------------------------

  lemma {:induction false} RetryHint(tau: nat, tat: Option<nat>, now: nat, cost: nat, again: nat)
    requires Decide(tau, tat, Request(now, cost)).reply.Rejected? && now <= again
    ensures var hint := Decide(tau, tat, Request(now, cost)).reply.retryAfterMs;
            var reply := Decide(tau, tat, Request(again, cost)).reply;
            && hint > 0
            && (again >= now + 1000 * hint && cost <= tau ==> reply.Admitted?)
            && (again <= now + 1000 * (hint - 1) ==> reply.Rejected?)
  {
    var over := Base(tat, now) + cost - tau - now;
    CeilDivCovers(over, 1000);
  }

  lemma {:induction false} RejectionsKeepTat(tau: nat, tat: Option<nat>, reqs: seq<Request>)
    requires forall i :: 0 <= i < |reqs| ==> Timeless(tau, tat, reqs)[i].Rejected?
    ensures TatAfter(tau, tat, reqs) == tat
    decreases |reqs|
  {
    if reqs != [] {
      var rest := Timeless(tau, Decide(tau, tat, reqs[0]).tat, reqs[1..]);
      assert Timeless(tau, tat, reqs)[0].Rejected?;
      forall i | 0 <= i < |reqs[1..]|
        ensures rest[i].Rejected?
      {
        assert rest[i] == Timeless(tau, tat, reqs)[i + 1];
      }
      RejectionsKeepTat(tau, tat, reqs[1..]);
    }
  }

  /** A refused request repeated after its retry hint, with nothing admitted in
      between, is admitted if it fits the burst; repeated a millisecond early it is
      refused again. */
  lemma {:induction false} RetryHintIsExact(tau: nat, before: seq<Request>, q: Request, between: seq<Request>, again: nat)
    requires q.now <= again
    requires var reqs := before + [q] + between + [Request(again, q.cost)];
             forall i :: |before| <= i < |reqs| - 1 ==> Replies(tau, EMPTY, reqs)[i].Rejected?
    ensures var reqs := before + [q] + between + [Request(again, q.cost)];
            var replies := Replies(tau, EMPTY, reqs);
            var hint := replies[|before|].retryAfterMs;
            && hint > 0
            && (again >= q.now + 1000 * hint && q.cost <= tau ==> replies[|reqs| - 1].Admitted?)
            && (again <= q.now + 1000 * (hint - 1) ==> replies[|reqs| - 1].Rejected?)
  {
    var retry := Request(again, q.cost);
    var mid := [q] + between;
    var reqs := before + [q] + between + [retry];
    assert reqs == before + (mid + [retry]);
    ExpiryIrrelevant(tau, EMPTY, reqs);
    var tat := TatAfter(tau, None, before);
    TimelessSplit(tau, None, before, mid + [retry]);
    TimelessSplit(tau, tat, mid, [retry]);
    var replies := Timeless(tau, None, reqs);
    forall i | 0 <= i < |mid|
      ensures Timeless(tau, tat, mid)[i].Rejected?
    {
      assert Timeless(tau, tat, mid)[i] == replies[|before| + i];
    }
    RejectionsKeepTat(tau, tat, mid);
    assert mid[0] == q && replies[|before|] == Timeless(tau, tat, mid)[0] == Decide(tau, tat, q).reply;
    assert replies[|reqs| - 1] == Timeless(tau, tat, [retry])[0] == Decide(tau, tat, retry).reply;
    RetryHint(tau, tat, q.now, q.cost, again);
  }

  // ------------------------------------------------------------------
  // Tokens, capacity and rate
  // ------------------------------------------------------------------

  /** A call of `check_limit` on one key. */
  datatype Call = Call(now: nat, tokens: nat)

  function Costed(t: nat, call: Call): Request { Request(call.now, t * call.tokens) }

  function AllCosted(t: nat, calls: seq<Call>): (r: seq<Request>)
    ensures |r| == |calls| && forall i :: 0 <= i < |calls| ==> r[i] == Costed(t, calls[i])
  {
    seq(|calls|, i requires 0 <= i < |calls| => Costed(t, calls[i]))
  }

  /** The replies to a run of calls on a new key. */
  function Answers(cfg: Config, calls: seq<Call>): (r: seq<Reply>)
    ensures |r| == |calls|
  {
    Replies(cfg.tau, EMPTY, AllCosted(cfg.t, calls))
  }

  predicate InOrder(calls: seq<Call>) {
    forall i, j :: 0 <= i < j < |calls| ==> calls[i].now <= calls[j].now
  }

  function Tokens(calls: seq<Call>): nat {
    if calls == [] then 0 else calls[0].tokens + Tokens(calls[1..])
  }

  function AdmittedTokens(calls: seq<Call>, replies: seq<Reply>): nat
    requires |calls| == |replies|
    decreases |calls|
  {
    if calls == [] then 0
    else (if replies[0].Admitted? then calls[0].tokens else 0) + AdmittedTokens(calls[1..], replies[1..])
  }

  lemma {:induction false} MulAdds(t: nat, a: nat, b: nat)
    ensures t * (a + b) == t * a + t * b
  {
  }

  lemma {:induction false} MulGrows(t: nat, a: nat, b: nat)
    requires a <= b
    ensures t * a <= t * b
  {
  }

  lemma {:induction false} TokensCost(t: nat, calls: seq<Call>)
    ensures Cost(AllCosted(t, calls)) == t * Tokens(calls)
    decreases |calls|
  {
    if calls != [] {
      assert AllCosted(t, calls)[1..] == AllCosted(t, calls[1..]);
      TokensCost(t, calls[1..]);
      MulAdds(t, calls[0].tokens, Tokens(calls[1..]));
    }
  }

  lemma {:induction false} AdmittedTokensCost(t: nat, calls: seq<Call>, replies: seq<Reply>)
    requires |calls| == |replies|
    ensures AdmittedCost(AllCosted(t, calls), replies) == t * AdmittedTokens(calls, replies)
    decreases |calls|
  {
    if calls != [] {
      assert AllCosted(t, calls)[1..] == AllCosted(t, calls[1..]);
      AdmittedTokensCost(t, calls[1..], replies[1..]);
      MulAdds(t, if replies[0].Admitted? then calls[0].tokens else 0, AdmittedTokens(calls[1..], replies[1..]));
    }
  }

  lemma {:induction false} DivideBound(t: nat, n: nat, capacity: nat, elapsed: nat)
    requires t > 0 && t * n <= t * capacity + elapsed
    ensures n <= capacity + elapsed / t
  {
    var e := elapsed / t;
    assert elapsed < t * (e + 1);
    if n > capacity + e {
      MulGrows(t, capacity + e + 1, n);
      assert false;
    }
  }

  /** In tokens: no window admits more than the capacity plus one token per interval. */
  lemma {:induction false} WindowTokens(cfg: Config, capacity: nat, calls: seq<Call>, i: nat, j: nat)
    requires cfg.t > 0 && cfg.tau == cfg.t * capacity
    requires InOrder(calls) && i < j <= |calls|
    ensures AdmittedTokens(calls[i..j], Answers(cfg, calls)[i..j]) <=
            capacity + (calls[j - 1].now - calls[i].now) / cfg.t
  {
    var reqs, window, replies := AllCosted(cfg.t, calls), calls[i..j], Answers(cfg, calls)[i..j];
    WindowBound(cfg.tau, reqs, i, j);
    assert reqs[i..j] == AllCosted(cfg.t, window);
    AdmittedTokensCost(cfg.t, window, replies);
    DivideBound(cfg.t, AdmittedTokens(window, replies), capacity, calls[j - 1].now - calls[i].now);
  }

  /** The set-up: tau is the capacity in microseconds unless the product overflows;
      truncating the interval never slows the configured rate down and speeds it
      up by less than the factor (t + 1) / t; it is zero only above 10^6 per second. */
  lemma {:induction false} Configured(capacity: nat, rate: nat)
    ensures rate == 0 <==> Configure(capacity, rate) == ZeroRate
    ensures rate > 0 ==>
              var cfg := Configure(capacity, rate).config;
              && rate * cfg.t <= MICROS < rate * (cfg.t + 1)
              && (cfg.t > 0 <==> rate <= MICROS)
              && (cfg.tau == cfg.t * capacity <==> cfg.t * capacity < U64)
  {
    if rate > 0 {
      var t := MICROS / rate;
      assert rate * t <= MICROS < rate * (t + 1);
      if t > 0 {
        MulGrows(rate, 1, t);
      }
    }
  }

  /** Every window asks for no more than the capacity and what the configured rate brings
      in over the time it spans. */
  predicate WithinRate(capacity: nat, rate: nat, calls: seq<Call>) {
    forall i, j :: 0 <= i < j <= |calls| ==>
      Tokens(calls[i..j]) * MICROS <= capacity * MICROS + (calls[j - 1].now - calls[i].now) * rate
  }

  /** Truncating the interval only helps the caller. */
  lemma {:induction false} RateCovers(rate: nat, t: nat, capacity: nat, n: nat, elapsed: nat)
    requires rate > 0 && rate * t <= MICROS && n * MICROS <= capacity * MICROS + elapsed * rate
    ensures t * n <= t * capacity + elapsed
  {
    if n > capacity {
      var over := n - capacity;
      assert over * MICROS <= elapsed * rate;
      MulGrows(over, rate * t, MICROS);
      assert rate * (t * over) == over * (rate * t);
      if t * over > elapsed {
        MulGrows(rate, elapsed + 1, t * over);
        assert false;
      }
      assert t * n == t * capacity + t * over;
    } else {
      MulGrows(t, n, capacity);
    }
  }

  lemma {:induction false} WindowWithin(cfg: Config, capacity: nat, rate: nat, calls: seq<Call>, i: nat, j: nat)
    requires rate > 0 && rate * cfg.t <= MICROS && i < j <= |calls|
    requires InOrder(calls) && WithinRate(capacity, rate, calls)
    ensures cfg.t * Tokens(calls[i..j]) <= cfg.t * capacity + (calls[j - 1].now - calls[i].now)
  {
    assert calls[i].now <= calls[j - 1].now;
    RateCovers(rate, cfg.t, capacity, Tokens(calls[i..j]), calls[j - 1].now - calls[i].now);
  }

  lemma {:induction false} WithinRateFits(cfg: Config, capacity: nat, rate: nat, calls: seq<Call>)
    requires rate > 0 && rate * cfg.t <= MICROS && cfg.tau == cfg.t * capacity
    requires InOrder(calls) && WithinRate(capacity, rate, calls)
    ensures Fits(cfg.tau, AllCosted(cfg.t, calls))
  {
    var reqs := AllCosted(cfg.t, calls);
    forall i, j | 0 <= i < j <= |reqs|
      ensures Cost(reqs[i..j]) <= cfg.tau + (reqs[j - 1].now - reqs[i].now)
    {
      assert reqs[i..j] == AllCosted(cfg.t, calls[i..j]);
      TokensCost(cfg.t, calls[i..j]);
      WindowWithin(cfg, capacity, rate, calls, i, j);
    }
  }

  /** A caller whose every window stays within the capacity and the configured rate,
      bursts included, is never refused. */
  lemma {:induction false} ConfiguredRateIsServed(cfg: Config, capacity: nat, rate: nat, calls: seq<Call>)
    requires rate > 0 && Configure(capacity, rate) == Ready(cfg) && cfg.tau == cfg.t * capacity
    requires InOrder(calls) && WithinRate(capacity, rate, calls)
    ensures AllAdmitted(Answers(cfg, calls))
  {
    Configured(capacity, rate);
    WithinRateFits(cfg, capacity, rate, calls);
    ServedExactly(cfg.tau, AllCosted(cfg.t, calls));
  }

  /** With a positive interval a call for more than the capacity is never admitted, in any
      run. */
  lemma {:induction false} OverCapacityNeverAdmitted(cfg: Config, capacity: nat, calls: seq<Call>, i: nat)
    requires cfg.t > 0 && cfg.tau == cfg.t * capacity
    requires i < |calls| && calls[i].tokens > capacity
    ensures Answers(cfg, calls)[i].Rejected?
  {
    var reqs := AllCosted(cfg.t, calls);
    MulGrows(cfg.t, capacity + 1, calls[i].tokens);
    MulAdds(cfg.t, capacity, 1);
    ExpiryIrrelevant(cfg.tau, EMPTY, reqs);
    OversizedNeverAdmitted(cfg.tau, None, reqs, i);
  }

  /** At one token a second the burst leaves 64 bits from this capacity on. One below it is
      the largest there is; at it the wrapped burst is worth less than a token, so that
      nothing is ever admitted. */
  lemma {:induction false} WrappedBurstRefusesAll(calls: seq<Call>, i: nat)
    requires i < |calls| && calls[i].tokens > 0
    ensures Configure(18_446_744_073_709, 1) == Ready(Config(1_000_000, 18_446_744_073_709_000_000))
    ensures Configure(18_446_744_073_710, 1) == Ready(Config(1_000_000, 448_384))
    ensures Answers(Config(1_000_000, 448_384), calls)[i].Rejected?
  {
    var reqs := AllCosted(1_000_000, calls);
    ExpiryIrrelevant(448_384, EMPTY, reqs);
    OversizedNeverAdmitted(448_384, None, reqs, i);
  }

  /** What costs nothing passes. */
  lemma {:induction false} FreeAlwaysAdmitted(tau: nat, tat: Option<nat>, reqs: seq<Request>)
    requires Ordered(reqs) && forall i :: 0 <= i < |reqs| ==> reqs[i].cost == 0
    requires tat.Some? && reqs != [] ==> tat.value <= reqs[0].now
    ensures AllAdmitted(Timeless(tau, tat, reqs))
    decreases |reqs|
  {
    if reqs != [] {
      OrderedTail(reqs);
      assert reqs[1..] != [] ==> reqs[1..][0] == reqs[1];
      FreeAlwaysAdmitted(tau, Decide(tau, tat, reqs[0]).tat, reqs[1..]);
    }
  }

  /** A rate above one million truncates the interval to zero: everything passes. */
  lemma {:induction false} FastRatesAdmitAll(cfg: Config, capacity: nat, rate: nat, calls: seq<Call>)
    requires rate > MICROS && Configure(capacity, rate) == Ready(cfg) && InOrder(calls)
    ensures AllAdmitted(Answers(cfg, calls))
  {
    var reqs := AllCosted(cfg.t, calls);
    Configured(capacity, rate);
    ExpiryIrrelevant(cfg.tau, EMPTY, reqs);
    FreeAlwaysAdmitted(cfg.tau, None, reqs);
  }

  // ------------------------------------------------------------------
  // One key in the store
  // ------------------------------------------------------------------

  class RateLimitKey {
    var tat: Option<nat>
    var expiresAt: Option<nat>

    function View(): Store
      reads this
    {
      Store(tat, expiresAt)
    }

    constructor ()
      ensures View() == EMPTY
    {
      tat, expiresAt := None, None;
    }

    method Check(cfg: Config, call: Call) returns (reply: Reply)
      modifies this
      ensures (View(), reply) == Script(cfg.tau, old(View()), Costed(cfg.t, call))
    {
      var stored := Read(View(), call.now);
      var current := if stored.Some? then stored.value else call.now;
      var newTat: nat := Max(current, call.now) + cfg.t * call.tokens;
      var allowAt := newTat - cfg.tau;
      if allowAt > call.now {
        reply := Rejected(CeilDiv(allowAt - call.now, 1000));
      } else {
        var ttl := CeilDiv(newTat - call.now, MICROS);
        tat := Some(newTat);
        expiresAt := if ttl > 0 then Some(call.now + ttl * MICROS) else None;
        reply := Admitted;
      }
    }
  }
}
