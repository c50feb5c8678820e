/** The prefork supervisor of `crates/justapi-cli/src/workers.rs`: a slot table of
    worker processes, their outstanding waits, load-driven scaling and drain. One
    event is one branch taken by the select loop; a cancellation of the shutdown
    token by another task may fall between any two of them. */
module Supervisor {
  import opened Prelude

  datatype Policy = Policy(min: nat, max: nat, low: real, high: real, cooldown: nat, step: nat)

  /** `ScalingPolicy::default`, times in milliseconds. It stands in when no policy is given. */
  const DEFAULT_POLICY := Policy(1, 4, 0.3, 0.7, 15_000, 1)

  datatype Config = Config(count: nat, policy: Policy, drainTimeout: nat)

  predicate Scaling(cfg: Config) { cfg.policy.max > cfg.policy.min }

  /** `decide_scale`. Clamping demands an ordered range. */
  function DecideScale(current: nat, load: real, p: Policy): nat
    requires p.min <= p.max
  {
    var desired :=
      if load >= p.high then current + p.step
      else if load <= p.low then Max(0, current - p.step)
      else current;
    Max(p.min, Min(p.max, desired))
  }

  // ------------------------------------------------------------------
  // State
  // ------------------------------------------------------------------

  /** `Panicked` stands for a clamp to an empty range or an index out of the table. */
  datatype Status = Running | ReturnedOk | ReturnedErr | Panicked

  /** The slot table and the outstanding waits. Workers are numbered in spawn order,
      so `spawned` is both their count and the next identity. The rest is history: who
      exited, whose wait failed, who was sent SIGTERM, and who was sent SIGKILL and
      awaited. */
  datatype Table = Table(
    pids: seq<Option<nat>>, waits: multiset<nat>, stopping: set<nat>,
    spawned: nat, exited: set<nat>, waitFailed: set<nat>, termed: set<nat>, killed: set<nat>)

  /** `armed` is the guard of the scaling branch, evaluated when the loop entered
      its select. */
  datatype State = State(
    t: Table, lastScale: int, deadline: Option<nat>, shutdown: bool, armed: bool, status: Status)

  function Slots(n: nat): (r: set<nat>)
    ensures |r| == n && forall i :: i in r <==> 0 <= i < n
  {
    if n == 0 then {} else Slots(n - 1) + {n - 1}
  }

  function FirstTable(n: nat): Table {
    Table(seq(n, i => Some(i)), multiset(Slots(n)), {}, n, {}, {}, {}, {})
  }

  function Init(cfg: Config, start: nat): State {
    State(FirstTable(cfg.count),
          if start >= cfg.policy.cooldown then start - cfg.policy.cooldown else start,
          None, false, Scaling(cfg), Running)
  }

  predicate Live(pids: seq<Option<nat>>, slot: int) { 0 <= slot < |pids| && pids[slot].Some? }

  /** Slots below `k` with a worker that is not being scaled down. */
  function Active(pids: seq<Option<nat>>, stopping: set<nat>, k: nat): set<nat> {
    set i: nat | 0 <= i < k && Live(pids, i) && i !in stopping
  }

  function ActiveCount(t: Table): nat { |Active(t.pids, t.stopping, |t.pids|)| }

  function LiveIds(pids: seq<Option<nat>>): set<nat> {
    set i: nat | 0 <= i < |pids| && pids[i].Some? :: pids[i].value
  }

  // ------------------------------------------------------------------
  // Branches
  // ------------------------------------------------------------------

  /** First free slot, or the length of the table when it is full. */
  function FreeSlot(pids: seq<Option<nat>>): (slot: nat)
    ensures slot <= |pids| && !Live(pids, slot)
    ensures forall i :: 0 <= i < slot ==> Live(pids, i)
  {
    FreeSlotFrom(pids, 0)
  }

  function FreeSlotFrom(pids: seq<Option<nat>>, from: nat): (slot: nat)
    requires from <= |pids| && forall i :: 0 <= i < from ==> Live(pids, i)
    ensures slot <= |pids| && !Live(pids, slot)
    ensures forall i :: 0 <= i < slot ==> Live(pids, i)
    decreases |pids| - from
  {
    if from == |pids| || pids[from].None? then from else FreeSlotFrom(pids, from + 1)
  }

  function Spawn(t: Table, slot: nat): Table
    requires slot < |t.pids|
  {
    t.(pids := t.pids[slot := Some(t.spawned)], waits := t.waits + multiset{slot}, spawned := t.spawned + 1)
  }

  /** The table with its first free slot in place, grown by one if it was full. */
  function WithFreeSlot(t: Table): Table {
    if FreeSlot(t.pids) == |t.pids| then t.(pids := t.pids + [None]) else t
  }

  /** Spawn up to `n` workers; the first spawn that fails ends it. */
  function ScaleUp(t: Table, n: nat, spawns: seq<bool>): Table
    decreases n
  {
    if n == 0 then t
    else
      var slot, grown := FreeSlot(t.pids), WithFreeSlot(t);
      if spawns != [] && !spawns[0] then grown
      else ScaleUp(Spawn(grown, slot), n - 1, if spawns == [] then [] else spawns[1..])
  }

  function Stop(t: Table, slot: nat): Table
    requires Live(t.pids, slot)
  {
    t.(stopping := t.stopping + {slot}, termed := t.termed + {t.pids[slot].value})
  }

  /** Stop up to `n` active workers among the slots below `k`, highest first. */
  function ScaleDown(t: Table, k: nat, n: nat): Table
    requires k <= |t.pids|
    decreases k
  {
    if k == 0 || n == 0 then t
    else if t.pids[k - 1].Some? && k - 1 !in t.stopping then ScaleDown(Stop(t, k - 1), k - 1, n - 1)
    else ScaleDown(t, k - 1, n)
  }

  predicate Due(cfg: Config, s: State, now: nat) { Max(0, now - s.lastScale) >= cfg.policy.cooldown }

  /** The table after a scaling decision was acted on. */
  function Rescale(cfg: Config, t: Table, desired: nat, spawns: seq<bool>): Table {
    var active := ActiveCount(t);
    if desired > active then ScaleUp(t, Min(desired - active, cfg.policy.step), spawns)
    else ScaleDown(t, |t.pids|, Min(active - desired, cfg.policy.step))
  }

  function OnTick(cfg: Config, s: State, load: real, now: nat, spawns: seq<bool>): State {
    if cfg.policy.min > cfg.policy.max then s.(status := Panicked)
    else
      var desired := DecideScale(ActiveCount(s.t), load, cfg.policy);
      if desired == ActiveCount(s.t) || !Due(cfg, s, now) then s
      else s.(lastScale := now, t := Rescale(cfg, s.t, desired, spawns))
  }

  /** A wait completed, with the worker's exit status or with an error. */
  function Reap(t: Table, slot: nat, waitOk: bool): Table
    requires slot < |t.pids|
  {
    var who := if t.pids[slot].Some? then {t.pids[slot].value} else {};
    t.(pids := t.pids[slot := None], waits := t.waits - multiset{slot}, stopping := t.stopping - {slot},
       exited := if waitOk then t.exited + who else t.exited,
       waitFailed := if waitOk then t.waitFailed else t.waitFailed + who)
  }

  function OnExit(s: State, slot: nat, waitOk: bool, spawnOk: bool): State {
    if slot >= |s.t.pids| then s.(status := Panicked)
    else
      var t := Reap(s.t, slot, waitOk);
      if slot in s.t.stopping || !waitOk || s.shutdown then s.(t := t)
      else if spawnOk then s.(t := Spawn(t, slot))
      else s.(t := t, status := ReturnedErr)
  }

  function OnShutdown(cfg: Config, s: State, now: nat): State {
    if s.deadline.Some? then s
    else s.(deadline := Some(now + cfg.drainTimeout), t := s.t.(termed := s.t.termed + LiveIds(s.t.pids)))
  }

  predicate AllExited(t: Table) {
    forall slot :: 0 <= slot < |t.pids| ==> t.pids[slot].None? || slot in t.stopping
  }

  /** SIGKILL everyone and await every outstanding wait. */
  function KillAll(t: Table): Table {
    t.(killed := t.killed + LiveIds(t.pids), waits := multiset{})
  }

  /** The check after the select: done, or past the deadline, or keep looping. */
  function DrainCheck(s: State, now: nat): State {
    if s.deadline.None? then s
    else if AllExited(s.t) then s.(status := ReturnedOk)
    else if now >= s.deadline.value then s.(status := ReturnedOk, t := KillAll(s.t))
    else s
  }

  datatype Event =
    | Exited(slot: nat, waitOk: bool, spawnOk: bool, now: nat)
    | NoChildren(now: nat)
    | ShutdownSeen(now: nat)
    | Signal(now: nat)
    | Tick(load: real, spawns: seq<bool>, now: nat)
    | CancelToken

  predicate Enabled(s: State, e: Event) {
    && s.status.Running?
    && match e
       case Exited(slot, _, _, _) => slot in s.t.waits
       case NoChildren(_) => s.t.waits == multiset{}
       case ShutdownSeen(_) => s.shutdown
       case Tick(_, _, _) => s.armed
       case _ => true
  }

  /** The branch body alone. */
  function Branch(cfg: Config, s: State, e: Event): State
    requires Enabled(s, e)
  {
    match e
    case Exited(slot, waitOk, spawnOk, _) => OnExit(s, slot, waitOk, spawnOk)
    case NoChildren(_) => if s.shutdown then s.(status := ReturnedOk) else s
    case ShutdownSeen(now) => OnShutdown(cfg, s, now)
    case Signal(_) => s.(shutdown := true)
    case Tick(load, spawns, now) => OnTick(cfg, s, load, now, spawns)
    case CancelToken => s.(shutdown := true)
  }

  /** The exit of a scaled-down worker goes straight back to the select. */
  predicate SkipsDrainCheck(s: State, e: Event) { e.Exited? && e.slot in s.t.stopping }

  function Step(cfg: Config, s: State, e: Event): State
    requires Enabled(s, e)
  {
    var b := Branch(cfg, s, e);
    if e.CancelToken? || !b.status.Running? then b
    else
      var d := if SkipsDrainCheck(s, e) then b else DrainCheck(b, e.now);
      d.(armed := Scaling(cfg) && !d.shutdown)
  }

  // ------------------------------------------------------------------
  // Invariant
  // ------------------------------------------------------------------

  /** A slot has a worker exactly when it has one outstanding wait. */
  ghost predicate Mirrored(pids: seq<Option<nat>>, waits: multiset<nat>) {
    forall slot: nat :: waits[slot] == if Live(pids, slot) then 1 else 0
  }

  ghost predicate Distinct(pids: seq<Option<nat>>, spawned: nat) {
    && (forall i, j :: 0 <= i < j < |pids| && pids[i].Some? && pids[j].Some? ==> pids[i].value != pids[j].value)
    && (forall i :: 0 <= i < |pids| && pids[i].Some? ==> pids[i].value < spawned)
  }

  predicate WaitedFor(t: Table, id: nat) { id in t.exited || id in t.waitFailed }

  /** Every worker was waited for or is still in the table. */
  ghost predicate Tracked(t: Table) {
    forall id: nat :: id < t.spawned ==> WaitedFor(t, id) || id in LiveIds(t.pids)
  }

  ghost predicate StoppingOk(t: Table) {
    forall slot :: slot in t.stopping ==> Live(t.pids, slot) && t.pids[slot].value in t.termed
  }

  ghost predicate TableOk(t: Table) {
    Mirrored(t.pids, t.waits) && StoppingOk(t) && Distinct(t.pids, t.spawned) && Tracked(t)
  }

  ghost predicate RunningOk(cfg: Config, s: State) {
    && TableOk(s.t)
    && ActiveCount(s.t) <= Max(cfg.count, cfg.policy.max)
    && (s.deadline.Some? ==> s.shutdown && LiveIds(s.t.pids) <= s.t.termed)
  }

  /** Every worker ever spawned has exited, or its wait failed, or it was killed and every
      wait completed, or it sits in a slot that was already being scaled down and was sent
      SIGTERM. */
  ghost predicate AllAccounted(t: Table) {
    forall id: nat :: id < t.spawned ==>
      WaitedFor(t, id) || (id in t.killed && t.waits == multiset{}) || BeingStopped(t, id)
  }

  predicate BeingStopped(t: Table, id: nat) {
    exists slot :: 0 <= slot < |t.pids| && t.pids[slot] == Some(id) && slot in t.stopping && id in t.termed
  }

  ghost predicate Inv(cfg: Config, s: State) {
    && (s.status.Running? ==> RunningOk(cfg, s) && (s.armed ==> Scaling(cfg) && s.deadline.None?))
    && (s.status.ReturnedOk? ==> AllAccounted(s.t))
    && !s.status.Panicked?
  }

  lemma {:induction false} FirstTableOk(n: nat)
    ensures TableOk(FirstTable(n)) && ActiveCount(FirstTable(n)) == n
  {
    var t := FirstTable(n);
    assert forall slot: nat :: Live(t.pids, slot) <==> slot in Slots(n);
    forall id: nat | id < n
      ensures id in LiveIds(t.pids)
    {
      assert t.pids[id] == Some(id);
    }
    assert Active(t.pids, t.stopping, n) == Slots(n);
  }

  lemma {:induction false} InitOk(cfg: Config, start: nat)
    ensures Inv(cfg, Init(cfg, start)) && ActiveCount(Init(cfg, start).t) == cfg.count
  {
    FirstTableOk(cfg.count);
  }

  lemma {:induction false} TrackedAfter(t: Table, t': Table)
    requires Tracked(t) && t.spawned <= t'.spawned && t.exited <= t'.exited && t.waitFailed <= t'.waitFailed
    requires forall i :: 0 <= i < |t.pids| && t.pids[i].Some? ==>
               (i < |t'.pids| && t'.pids[i] == t.pids[i]) || WaitedFor(t', t.pids[i].value)
    requires forall id: nat :: t.spawned <= id < t'.spawned ==> id in LiveIds(t'.pids)
    ensures Tracked(t')
  {
    forall id: nat | id < t'.spawned
      ensures WaitedFor(t', id) || id in LiveIds(t'.pids)
    {
      if id < t.spawned && !WaitedFor(t, id) {
        var i: nat :| i < |t.pids| && t.pids[i].Some? && t.pids[i].value == id;
        if !WaitedFor(t', id) {
          assert t'.pids[i].value == id;
        }
      }
    }
  }

  lemma {:induction false} SpawnOk(t: Table, slot: nat)
    requires TableOk(t) && slot < |t.pids| && t.pids[slot].None?
    ensures TableOk(Spawn(t, slot)) && ActiveCount(Spawn(t, slot)) == ActiveCount(t) + 1
  {
    var t' := Spawn(t, slot);
    assert Active(t'.pids, t'.stopping, |t'.pids|) == Active(t.pids, t.stopping, |t.pids|) + {slot};
    assert t'.pids[slot].value == t.spawned;
    TrackedAfter(t, t');
  }

  lemma {:induction false} GrowOk(t: Table)
    requires TableOk(t)
    ensures TableOk(WithFreeSlot(t)) && ActiveCount(WithFreeSlot(t)) == ActiveCount(t)
    ensures FreeSlot(t.pids) < |WithFreeSlot(t).pids| && WithFreeSlot(t).pids[FreeSlot(t.pids)].None?
  {
    var g := WithFreeSlot(t);
    assert Active(g.pids, g.stopping, |g.pids|) == Active(t.pids, t.stopping, |t.pids|);
    TrackedAfter(t, g);
  }

  /** One more worker, in the first free slot. */
  function SpawnFree(t: Table): Table { Spawn(WithFreeSlot(t), FreeSlot(t.pids)) }

  lemma {:induction false} SpawnFreeOk(t: Table)
    requires TableOk(t)
    ensures TableOk(SpawnFree(t)) && ActiveCount(SpawnFree(t)) == ActiveCount(t) + 1
  {
    GrowOk(t);
    SpawnOk(WithFreeSlot(t), FreeSlot(t.pids));
  }

  /** The first spawn, and what is left to do after it. */
  lemma {:induction false} ScaleUpFirst(t: Table, n: nat, spawns: seq<bool>, later: seq<bool>)
    requires n > 0 && later == if spawns == [] then [] else spawns[1..]
    ensures ScaleUp(t, n, spawns) ==
            if spawns != [] && !spawns[0] then WithFreeSlot(t) else ScaleUp(SpawnFree(t), n - 1, later)
    ensures false !in spawns ==> false !in later && (spawns == [] || spawns[0])
  {
  }

  /** Scaling up adds at most `n` workers, and exactly `n` if every spawn succeeds. */
  lemma {:induction false} ScaleUpOk(t: Table, n: nat, spawns: seq<bool>)
    requires TableOk(t)
    ensures var t' := ScaleUp(t, n, spawns);
            && TableOk(t')
            && ActiveCount(t) <= ActiveCount(t') <= ActiveCount(t) + n
            && (false !in spawns ==> ActiveCount(t') == ActiveCount(t) + n)
    decreases n
  {
    if n > 0 {
      var later := if spawns == [] then [] else spawns[1..];
      ScaleUpFirst(t, n, spawns, later);
      if spawns != [] && !spawns[0] {
        GrowOk(t);
      } else {
        SpawnFreeOk(t);
        ScaleUpOk(SpawnFree(t), n - 1, later);
      }
    }
  }

  lemma {:induction false} ActiveBelow(pids: seq<Option<nat>>, stopping: set<nat>, k: nat)
    requires 0 < k <= |pids|
    ensures |Active(pids, stopping, k)| ==
            |Active(pids, stopping, k - 1)| + if Live(pids, k - 1) && k - 1 !in stopping then 1 else 0
  {
    if Live(pids, k - 1) && k - 1 !in stopping {
      assert Active(pids, stopping, k) == Active(pids, stopping, k - 1) + {k - 1};
    } else {
      assert Active(pids, stopping, k) == Active(pids, stopping, k - 1);
    }
  }

  lemma {:induction false} StopOk(t: Table, slot: nat)
    requires TableOk(t) && Live(t.pids, slot) && slot !in t.stopping
    ensures TableOk(Stop(t, slot)) && ActiveCount(Stop(t, slot)) == ActiveCount(t) - 1
    ensures Active(t.pids, Stop(t, slot).stopping, slot) == Active(t.pids, t.stopping, slot)
  {
    var t' := Stop(t, slot);
    assert Active(t.pids, t'.stopping, |t.pids|) == Active(t.pids, t.stopping, |t.pids|) - {slot};
  }

  /** Scaling down stops exactly `n` workers, or all active ones below `k`. */
  lemma {:induction false} ScaleDownCount(t: Table, k: nat, n: nat)
    requires TableOk(t) && k <= |t.pids|
    ensures ActiveCount(ScaleDown(t, k, n)) == ActiveCount(t) - Min(n, |Active(t.pids, t.stopping, k)|)
    decreases k
  {
    if k > 0 && n > 0 {
      ActiveBelow(t.pids, t.stopping, k);
      if t.pids[k - 1].Some? && k - 1 !in t.stopping {
        var t' := Stop(t, k - 1);
        StopOk(t, k - 1);
        ScaleDownCount(t', k - 1, n - 1);
        assert ScaleDown(t, k, n) == ScaleDown(t', k - 1, n - 1) && t'.pids == t.pids;
      } else {
        ScaleDownCount(t, k - 1, n);
      }
    }
  }

  lemma {:induction false} ScaleDownOk(t: Table, k: nat, n: nat)
    requires TableOk(t) && k <= |t.pids|
    ensures TableOk(ScaleDown(t, k, n))
    decreases k
  {
    if k > 0 && n > 0 {
      if t.pids[k - 1].Some? && k - 1 !in t.stopping {
        StopOk(t, k - 1);
        ScaleDownOk(Stop(t, k - 1), k - 1, n - 1);
      } else {
        ScaleDownOk(t, k - 1, n);
      }
    }
  }

  lemma {:induction false} StoppingGrows(t: Table, k: nat, n: nat)
    requires k <= |t.pids|
    ensures t.stopping <= ScaleDown(t, k, n).stopping
    decreases k
  {
    if k > 0 && n > 0 {
      if t.pids[k - 1].Some? && k - 1 !in t.stopping {
        StoppingGrows(Stop(t, k - 1), k - 1, n - 1);
      } else {
        StoppingGrows(t, k - 1, n);
      }
    }
  }

  /** The stopped workers occupy the highest active slots. */
  lemma {:induction false} ScaleDownHighest(t: Table, k: nat, n: nat, stopped: nat, kept: nat)
    requires k <= |t.pids|
    requires stopped in ScaleDown(t, k, n).stopping && stopped !in t.stopping
    requires kept in Active(t.pids, ScaleDown(t, k, n).stopping, k)
    ensures kept < stopped < k
    decreases k
  {
    if k > 0 && n > 0 {
      if t.pids[k - 1].Some? && k - 1 !in t.stopping {
        StoppingGrows(Stop(t, k - 1), k - 1, n - 1);
        if stopped != k - 1 {
          ScaleDownHighest(Stop(t, k - 1), k - 1, n - 1, stopped, kept);
        }
      } else {
        StoppingGrows(t, k - 1, n);
        ScaleDownHighest(t, k - 1, n, stopped, kept);
      }
    }
  }

  lemma {:induction false} ReapOk(t: Table, slot: nat, waitOk: bool)
    requires TableOk(t) && Live(t.pids, slot)
    ensures TableOk(Reap(t, slot, waitOk))
    ensures ActiveCount(Reap(t, slot, waitOk)) == ActiveCount(t) - if slot in t.stopping then 0 else 1
    ensures LiveIds(Reap(t, slot, waitOk).pids) <= LiveIds(t.pids)
  {
    var t' := Reap(t, slot, waitOk);
    assert Active(t'.pids, t'.stopping, |t'.pids|) == Active(t.pids, t.stopping, |t.pids|) - {slot};
    TrackedAfter(t, t');
  }

  lemma {:induction false} OnExitOk(s: State, slot: nat, waitOk: bool, spawnOk: bool)
    requires TableOk(s.t) && Live(s.t.pids, slot)
    ensures var s' := OnExit(s, slot, waitOk, spawnOk);
            && TableOk(s'.t) && ActiveCount(s'.t) <= ActiveCount(s.t)
            && (s.shutdown ==> s'.t.spawned == s.t.spawned && LiveIds(s'.t.pids) <= LiveIds(s.t.pids))
            && (slot in s.t.stopping || (waitOk && spawnOk && !s.shutdown) ==>
                  ActiveCount(s'.t) == ActiveCount(s.t))
  {
    ReapOk(s.t, slot, waitOk);
    if slot !in s.t.stopping && waitOk && !s.shutdown && spawnOk {
      SpawnOk(Reap(s.t, slot, waitOk), slot);
    }
  }

  lemma {:induction false} DecideBounds(current: nat, load: real, p: Policy)
    requires p.min <= p.max
    ensures p.min <= DecideScale(current, load, p) <= p.max
  {
  }

  lemma {:induction false} RescaleOk(cfg: Config, t: Table, desired: nat, spawns: seq<bool>)
    requires TableOk(t)
    ensures TableOk(Rescale(cfg, t, desired, spawns))
    ensures ActiveCount(Rescale(cfg, t, desired, spawns)) <= Max(ActiveCount(t), desired)
    ensures desired <= ActiveCount(t) ==>
              ActiveCount(Rescale(cfg, t, desired, spawns)) ==
              ActiveCount(t) - Min(ActiveCount(t) - desired, cfg.policy.step)
  {
    var active := ActiveCount(t);
    if desired > active {
      ScaleUpOk(t, Min(desired - active, cfg.policy.step), spawns);
    } else {
      ScaleDownOk(t, |t.pids|, Min(active - desired, cfg.policy.step));
      ScaleDownCount(t, |t.pids|, Min(active - desired, cfg.policy.step));
    }
  }

  lemma {:induction false} OnTickOk(cfg: Config, s: State, load: real, now: nat, spawns: seq<bool>)
    requires RunningOk(cfg, s) && cfg.policy.min <= cfg.policy.max && s.deadline.None?
    ensures RunningOk(cfg, OnTick(cfg, s, load, now, spawns))
  {
    var desired := DecideScale(ActiveCount(s.t), load, cfg.policy);
    DecideBounds(ActiveCount(s.t), load, cfg.policy);
    RescaleOk(cfg, s.t, desired, spawns);
  }

  lemma {:induction false} DrainedIsAccounted(t: Table)
    requires TableOk(t) && AllExited(t)
    ensures AllAccounted(t)
  {
    forall id: nat | id < t.spawned && !WaitedFor(t, id)
      ensures BeingStopped(t, id)
    {
      var slot: nat :| slot < |t.pids| && t.pids[slot].Some? && t.pids[slot].value == id;
      assert t.pids[slot] == Some(id);
    }
  }

  lemma {:induction false} DrainCheckOk(s: State, now: nat)
    requires TableOk(s.t) && s.status.Running?
    ensures DrainCheck(s, now).status.ReturnedOk? ==> AllAccounted(DrainCheck(s, now).t)
    ensures !DrainCheck(s, now).status.ReturnedErr? && DrainCheck(s, now).t.spawned == s.t.spawned
    ensures DrainCheck(s, now).status.Running? ==> DrainCheck(s, now) == s
  {
    if AllExited(s.t) {
      DrainedIsAccounted(s.t);
    }
  }

  lemma {:induction false} NoWaitsNoWorkers(t: Table)
    requires TableOk(t) && t.waits == multiset{}
    ensures AllAccounted(t)
  {
    forall slot: nat
      ensures !Live(t.pids, slot)
    {
      assert t.waits[slot] == 0;
    }
    assert AllExited(t) by {
      forall slot | 0 <= slot < |t.pids|
        ensures t.pids[slot].None?
      {
        assert !Live(t.pids, slot);
      }
    }
    DrainedIsAccounted(t);
  }

  lemma {:induction false} BranchOk(cfg: Config, s: State, e: Event)
    requires Inv(cfg, s) && Enabled(s, e)
    ensures var b := Branch(cfg, s, e);
            && !b.status.Panicked?
            && (b.status.Running? ==> RunningOk(cfg, b))
            && (b.status.ReturnedOk? ==> AllAccounted(b.t))
            && (s.deadline.Some? ==> b.t.spawned == s.t.spawned && b.deadline == s.deadline)
  {
    match e
    case Exited(slot, waitOk, spawnOk, _) =>
      assert s.t.waits[slot] > 0;
      OnExitOk(s, slot, waitOk, spawnOk);
    case Tick(load, spawns, now) => OnTickOk(cfg, s, load, now, spawns);
    case NoChildren(_) => NoWaitsNoWorkers(s.t);
    case _ =>
  }

  /** The rest of an iteration: the drain check, and the guard of the scaling branch. */
  lemma {:induction false} SettleOk(cfg: Config, b: State, d: State, now: nat)
    requires RunningOk(cfg, b) && b.status.Running? && (d == b || d == DrainCheck(b, now))
    ensures Inv(cfg, d.(armed := Scaling(cfg) && !d.shutdown))
    ensures d.t.spawned == b.t.spawned && d.deadline == b.deadline
  {
    DrainCheckOk(b, now);
  }

  lemma {:induction false} StepOk(cfg: Config, s: State, e: Event)
    requires Inv(cfg, s) && Enabled(s, e)
    ensures Inv(cfg, Step(cfg, s, e))
    ensures s.deadline.Some? ==> Step(cfg, s, e).t.spawned == s.t.spawned && Step(cfg, s, e).deadline == s.deadline
  {
    BranchOk(cfg, s, e);
    var b := Branch(cfg, s, e);
    if !e.CancelToken? && b.status.Running? {
      SettleOk(cfg, b, if SkipsDrainCheck(s, e) then b else DrainCheck(b, e.now), e.now);
    } else if e.CancelToken? {
      CancelOk(cfg, s);
    }
  }

  lemma {:induction false} CancelOk(cfg: Config, s: State)
    requires Inv(cfg, s) && s.status.Running?
    ensures Inv(cfg, s.(shutdown := true))
  {
  }

  // ------------------------------------------------------------------
  // Runs
  // ------------------------------------------------------------------

  predicate Valid(cfg: Config, s: State, es: seq<Event>)
    decreases |es|
  {
    es == [] || (Enabled(s, es[0]) && Valid(cfg, Step(cfg, s, es[0]), es[1..]))
  }

  function Run(cfg: Config, s: State, es: seq<Event>): State
    requires Valid(cfg, s, es)
    decreases |es|
  {
    if es == [] then s else Run(cfg, Step(cfg, s, es[0]), es[1..])
  }

  /** Every reachable state satisfies the invariant; in particular `decide_scale` is
      never reached with `min > max`. */
  lemma {:induction false} InvRun(cfg: Config, s: State, es: seq<Event>)
    requires Inv(cfg, s) && Valid(cfg, s, es)
    ensures Inv(cfg, Run(cfg, s, es))
    decreases |es|
  {
    if es != [] {
      StepOk(cfg, s, es[0]);
      InvRun(cfg, Step(cfg, s, es[0]), es[1..]);
    }
  }

  /** Nothing the supervisor can live through makes it panic. */
  lemma {:induction false} NeverPanics(cfg: Config, start: nat, es: seq<Event>)
    requires Valid(cfg, Init(cfg, start), es)
    ensures !Run(cfg, Init(cfg, start), es).status.Panicked?
  {
    InitOk(cfg, start);
    InvRun(cfg, Init(cfg, start), es);
  }

  /** In every running state: a slot has a worker exactly when it has one
      outstanding wait, the slot handed out next is neither in use nor being scaled
      down, and the active workers never exceed the larger of the initial count and
      the policy's maximum. */
  lemma {:induction false} SlotsAndWaits(cfg: Config, start: nat, es: seq<Event>)
    requires Valid(cfg, Init(cfg, start), es) && Run(cfg, Init(cfg, start), es).status.Running?
    ensures var s := Run(cfg, Init(cfg, start), es);
            && Mirrored(s.t.pids, s.t.waits)
            && (forall slot :: slot in s.t.stopping ==> Live(s.t.pids, slot))
            && FreeSlot(s.t.pids) !in s.t.stopping && FreeSlot(s.t.pids) !in s.t.waits
            && ActiveCount(s.t) <= Max(cfg.count, cfg.policy.max)
  {
    InitOk(cfg, start);
    InvRun(cfg, Init(cfg, start), es);
  }

  /** Once the drain has begun no worker is spawned, and whoever is alive was sent SIGTERM. */
  lemma {:induction false} DrainSpawnsNobody(cfg: Config, s: State, es: seq<Event>)
    requires Inv(cfg, s) && Valid(cfg, s, es) && s.deadline.Some?
    ensures var s' := Run(cfg, s, es);
            && s'.t.spawned == s.t.spawned && s'.deadline == s.deadline
            && (s'.status.Running? ==> LiveIds(s'.t.pids) <= s'.t.termed)
    decreases |es|
  {
    if es != [] {
      StepOk(cfg, s, es[0]);
      DrainSpawnsNobody(cfg, Step(cfg, s, es[0]), es[1..]);
    }
  }

  /** The supervisor returns Ok only when every worker ever spawned has exited, or its wait
      failed, or it was killed and awaited, or was already being scaled down and had been
      sent SIGTERM. */
  lemma {:induction false} ReturnsWhenDrained(cfg: Config, start: nat, es: seq<Event>)
    requires Valid(cfg, Init(cfg, start), es) && Run(cfg, Init(cfg, start), es).status.ReturnedOk?
    ensures AllAccounted(Run(cfg, Init(cfg, start), es).t)
  {
    InitOk(cfg, start);
    InvRun(cfg, Init(cfg, start), es);
  }

  // ------------------------------------------------------------------
  // The size of the fleet
  // ------------------------------------------------------------------

  /** Nothing goes wrong and nobody asks for a shutdown; load is always zero. */
  predicate Quiet(e: Event) {
    match e
    case Exited(_, waitOk, spawnOk, _) => waitOk && spawnOk
    case NoChildren(_) => true
    case Tick(load, spawns, _) => load == 0.0 && false !in spawns
    case _ => false
  }

  predicate AllQuiet(es: seq<Event>) { forall i :: 0 <= i < |es| ==> Quiet(es[i]) }

  /** How many ticks of the run fall outside the cooldown. */
  function DueTicks(cfg: Config, s: State, es: seq<Event>): nat
    requires Valid(cfg, s, es)
    decreases |es|
  {
    if es == [] then 0
    else DueHere(cfg, s, es[0]) + DueTicks(cfg, Step(cfg, s, es[0]), es[1..])
  }

  predicate Undisturbed(s: State) { s.status.Running? && !s.shutdown && s.deadline.None? }

  ghost predicate AtRest(cfg: Config, s: State) {
    Inv(cfg, s) && Undisturbed(s) && ActiveCount(s.t) >= 1 && cfg.policy == DEFAULT_POLICY
  }

  function DueHere(cfg: Config, s: State, e: Event): nat {
    if e.Tick? && Due(cfg, s, e.now) then 1 else 0
  }

  lemma {:induction false} QuietBranch(cfg: Config, s: State, e: Event)
    requires AtRest(cfg, s) && Enabled(s, e) && Quiet(e)
    ensures Undisturbed(Branch(cfg, s, e))
    ensures ActiveCount(Branch(cfg, s, e).t) == Max(1, ActiveCount(s.t) - DueHere(cfg, s, e))
  {
    match e
    case Exited(slot, waitOk, spawnOk, _) =>
      assert s.t.waits[slot] > 0;
      OnExitOk(s, slot, waitOk, spawnOk);
    case NoChildren(_) =>
    case Tick(load, spawns, now) =>
      RescaleOk(cfg, s.t, DecideScale(ActiveCount(s.t), load, cfg.policy), spawns);
  }

  lemma {:induction false} QuietStep(cfg: Config, s: State, e: Event)
    requires AtRest(cfg, s) && Enabled(s, e) && Quiet(e)
    ensures AtRest(cfg, Step(cfg, s, e))
    ensures ActiveCount(Step(cfg, s, e).t) == Max(1, ActiveCount(s.t) - DueHere(cfg, s, e))
  {
    StepOk(cfg, s, e);
    QuietBranch(cfg, s, e);
    assert Step(cfg, s, e).t == Branch(cfg, s, e).t;
  }

  lemma {:induction false} QuietTail(es: seq<Event>)
    requires AllQuiet(es) && es != []
    ensures Quiet(es[0]) && AllQuiet(es[1..])
  {
    assert forall i :: 0 <= i < |es[1..]| ==> es[1..][i] == es[i + 1];
  }

  /** One worker fewer for every due tick, but never fewer than one. */
  ghost predicate Shrunk(cfg: Config, s: State, es: seq<Event>)
    requires Valid(cfg, s, es)
  {
    ActiveCount(Run(cfg, s, es).t) == Max(1, ActiveCount(s.t) - DueTicks(cfg, s, es))
  }

  lemma {:induction false} ShrunkCons(cfg: Config, s: State, es: seq<Event>)
    requires es != [] && Valid(cfg, s, es) && Shrunk(cfg, Step(cfg, s, es[0]), es[1..])
    requires ActiveCount(Step(cfg, s, es[0]).t) == Max(1, ActiveCount(s.t) - DueHere(cfg, s, es[0]))
    ensures Shrunk(cfg, s, es)
  {
    var next := Step(cfg, s, es[0]);
    Combine(ActiveCount(s.t), DueHere(cfg, s, es[0]), DueTicks(cfg, next, es[1..]));
    assert Run(cfg, s, es) == Run(cfg, next, es[1..]);
  }

  /** Without a policy the default one applies and the load reads zero: the fleet
      loses one worker at every due tick until exactly one is left. */
  lemma {:induction false} NoPolicyShrinks(cfg: Config, s: State, es: seq<Event>)
    requires AtRest(cfg, s) && Valid(cfg, s, es) && AllQuiet(es)
    ensures Shrunk(cfg, s, es)
    decreases |es|
  {
    if es != [] {
      QuietTail(es);
      QuietStep(cfg, s, es[0]);
      NoPolicyShrinks(cfg, Step(cfg, s, es[0]), es[1..]);
      ShrunkCons(cfg, s, es);
    }
  }

  lemma {:induction false} Combine(n: nat, a: nat, b: nat)
    ensures Max(1, Max(1, n - a) - b) == Max(1, n - (a + b))
  {
  }

  lemma {:induction false} OneStep(cfg: Config, s: State, e: Event)
    requires Enabled(s, e)
    ensures Valid(cfg, s, [e]) && Run(cfg, s, [e]) == Step(cfg, s, e)
  {
    var es, next := [e], Step(cfg, s, e);
    assert es[1..] == [] && Valid(cfg, next, es[1..]) && Run(cfg, next, es[1..]) == next;
  }

  predicate KeepsSize(cfg: Config, start: nat, es: seq<Event>)
    requires Valid(cfg, Init(cfg, start), es)
  {
    ActiveCount(Run(cfg, Init(cfg, start), es).t) == cfg.count
  }

  /** Hence, with no policy given, the fleet keeps its size in every quiet run
      exactly when it was started with a single worker. */
  lemma {:induction false} NoPolicyFixedExactly(cfg: Config, start: nat)
    requires cfg.policy == DEFAULT_POLICY && cfg.count >= 1
    ensures (forall es :: Valid(cfg, Init(cfg, start), es) && AllQuiet(es) ==> KeepsSize(cfg, start, es)) <==>
            cfg.count == 1
  {
    var s := Init(cfg, start);
    InitOk(cfg, start);
    if cfg.count == 1 {
      forall es | Valid(cfg, s, es) && AllQuiet(es)
        ensures KeepsSize(cfg, start, es)
      {
        NoPolicyShrinks(cfg, s, es);
      }
    } else {
      FirstTickShrinks(cfg, start);
    }
  }

  lemma {:induction false} FirstTickShrinks(cfg: Config, start: nat)
    requires cfg.policy == DEFAULT_POLICY && cfg.count >= 2
    ensures var es := [Tick(0.0, [], start + cfg.policy.cooldown)];
            Valid(cfg, Init(cfg, start), es) && AllQuiet(es) && !KeepsSize(cfg, start, es)
  {
    var s, e := Init(cfg, start), Tick(0.0, [], start + cfg.policy.cooldown);
    InitOk(cfg, start);
    QuietStep(cfg, s, e);
    OneStep(cfg, s, e);
  }

  /** Restarts succeed and nobody shuts down; the load may be anything. */
  predicate Calm(e: Event) {
    match e
    case Exited(_, waitOk, spawnOk, _) => waitOk && spawnOk
    case NoChildren(_) => true
    case Tick(_, _, _) => true
    case _ => false
  }

  predicate AllCalm(es: seq<Event>) { forall i :: 0 <= i < |es| ==> Calm(es[i]) }

  /** Scaling is off when the maximum does not exceed the minimum, and does nothing when
      its step is zero. */
  predicate Inert(cfg: Config) { !Scaling(cfg) || cfg.policy.step == 0 }

  lemma {:induction false} InertStep(cfg: Config, s: State, e: Event)
    requires Inv(cfg, s) && Undisturbed(s) && Enabled(s, e) && Calm(e) && Inert(cfg)
    ensures Inv(cfg, Step(cfg, s, e)) && Undisturbed(Step(cfg, s, e))
    ensures ActiveCount(Step(cfg, s, e).t) == ActiveCount(s.t)
  {
    StepOk(cfg, s, e);
    if e.Exited? {
      assert s.t.waits[e.slot] > 0;
      OnExitOk(s, e.slot, e.waitOk, e.spawnOk);
    }
    assert e.Tick? ==> Branch(cfg, s, e).t == s.t;
    assert Step(cfg, s, e).t == Branch(cfg, s, e).t;
  }

  lemma {:induction false} FixedWithoutRange(cfg: Config, s: State, es: seq<Event>)
    requires Inv(cfg, s) && Undisturbed(s) && Valid(cfg, s, es) && Inert(cfg) && AllCalm(es)
    ensures ActiveCount(Run(cfg, s, es).t) == ActiveCount(s.t)
    decreases |es|
  {
    if es != [] {
      InertStep(cfg, s, es[0]);
      assert forall i :: 0 <= i < |es[1..]| ==> es[1..][i] == es[i + 1];
      FixedWithoutRange(cfg, Step(cfg, s, es[0]), es[1..]);
    }
  }

  /** A load under which a fleet of `n` workers is not left alone. */
  function Pressure(p: Policy, n: nat): real {
    if n < p.max then p.high else if p.low < p.high then p.low else p.high - 1.0
  }

  lemma {:induction false} PressureDecides(p: Policy, n: nat)
    requires p.max > p.min && p.step > 0
    ensures var desired := DecideScale(n, Pressure(p, n), p);
            if n < p.max then desired > n else desired < n
  {
  }

  lemma {:induction false} PressureMoves(cfg: Config, s: State, now: nat)
    requires Inv(cfg, s) && Undisturbed(s) && Scaling(cfg) && cfg.policy.step > 0 && Due(cfg, s, now)
    ensures ActiveCount(OnTick(cfg, s, Pressure(cfg.policy, ActiveCount(s.t)), now, []).t) != ActiveCount(s.t)
  {
    var n := ActiveCount(s.t);
    var desired := DecideScale(n, Pressure(cfg.policy, n), cfg.policy);
    PressureDecides(cfg.policy, n);
    if n < cfg.policy.max {
      ScaleUpOk(s.t, Min(desired - n, cfg.policy.step), []);
    } else {
      RescaleOk(cfg, s.t, desired, []);
    }
  }

  lemma {:induction false} PressureRun(cfg: Config, start: nat)
    requires !Inert(cfg)
    ensures exists es :: Valid(cfg, Init(cfg, start), es) && AllCalm(es) && !KeepsSize(cfg, start, es)
  {
    var s, now := Init(cfg, start), start + cfg.policy.cooldown;
    InitOk(cfg, start);
    PressureMoves(cfg, s, now);
    var e := Tick(Pressure(cfg.policy, ActiveCount(s.t)), [], now);
    OneStep(cfg, s, e);
    assert Step(cfg, s, e).t == OnTick(cfg, s, e.load, now, []).t;
    assert AllCalm([e]) && !KeepsSize(cfg, start, [e]);
  }

  /** Whatever the policy, the fleet keeps its size in every run without failures exactly
      when scaling is off or its step is zero. */
  lemma {:induction false} FixedExactly(cfg: Config, start: nat)
    ensures (forall es :: Valid(cfg, Init(cfg, start), es) && AllCalm(es) ==> KeepsSize(cfg, start, es)) <==>
            Inert(cfg)
  {
    InitOk(cfg, start);
    if Inert(cfg) {
      forall es | Valid(cfg, Init(cfg, start), es) && AllCalm(es)
        ensures KeepsSize(cfg, start, es)
      {
        FixedWithoutRange(cfg, Init(cfg, start), es);
      }
    } else {
      PressureRun(cfg, start);
    }
  }

  // ------------------------------------------------------------------
  // What a load does
  // ------------------------------------------------------------------

  predicate Within(cfg: Config, n: nat) { cfg.policy.min <= n <= cfg.policy.max }

  /** At a due tick with the load at or above `high` the fleet grows by the step, up to the
      maximum. */
  lemma {:induction false} HighLoadGrows(cfg: Config, s: State, load: real, now: nat, spawns: seq<bool>)
    requires RunningOk(cfg, s) && Within(cfg, ActiveCount(s.t)) && Due(cfg, s, now) && false !in spawns
    requires load >= cfg.policy.high
    ensures ActiveCount(OnTick(cfg, s, load, now, spawns).t) ==
            Min(cfg.policy.max, ActiveCount(s.t) + cfg.policy.step)
  {
    var n := ActiveCount(s.t);
    var desired := DecideScale(n, load, cfg.policy);
    assert desired == Min(cfg.policy.max, n + cfg.policy.step);
    if desired > n {
      ScaleUpOk(s.t, Min(desired - n, cfg.policy.step), spawns);
    }
  }

  /** With the load at or below `low`, and below `high`, it shrinks by the step, down to the
      minimum. */
  lemma {:induction false} LowLoadShrinks(cfg: Config, s: State, load: real, now: nat, spawns: seq<bool>)
    requires RunningOk(cfg, s) && Within(cfg, ActiveCount(s.t)) && Due(cfg, s, now)
    requires load <= cfg.policy.low && load < cfg.policy.high
    ensures ActiveCount(OnTick(cfg, s, load, now, spawns).t) ==
            Max(cfg.policy.min, ActiveCount(s.t) - cfg.policy.step)
  {
    var n := ActiveCount(s.t);
    var desired := DecideScale(n, load, cfg.policy);
    assert desired == Max(cfg.policy.min, n - cfg.policy.step);
    RescaleOk(cfg, s.t, desired, spawns);
  }

  function Distance(a: int, b: int): int { if a < b then b - a else a - b }

  /** `d` is the size within the policy's range that is nearest to `wanted`. */
  ghost predicate Nearest(p: Policy, wanted: int, d: int) {
    p.min <= d <= p.max && forall n :: p.min <= n <= p.max ==> Distance(d, wanted) <= Distance(n, wanted)
  }

  /** The decision at any size and load: one step more, one step less or the same, brought
      into the range. */
  lemma {:induction false} DecidesNearest(current: nat, load: real, p: Policy)
    requires p.min <= p.max
    ensures var d := DecideScale(current, load, p);
            && (load >= p.high ==> Nearest(p, current + p.step, d))
            && (load < p.high && load <= p.low ==> Nearest(p, Max(0, current - p.step), d))
            && (p.low < load < p.high ==> Nearest(p, current, d))
  {
  }

  /** A tick that is not due changes nothing. */
  lemma {:induction false} CooldownHolds(cfg: Config, s: State, load: real, now: nat, spawns: seq<bool>)
    requires cfg.policy.min <= cfg.policy.max && cfg.policy.cooldown > 0 && now < s.lastScale + cfg.policy.cooldown
    ensures OnTick(cfg, s, load, now, spawns) == s
  {
  }

  /** Nothing goes wrong, and every load lies strictly between `low` and `high`. */
  predicate Steady(p: Policy, e: Event) { Calm(e) && (e.Tick? ==> p.low < e.load < p.high) }

  lemma {:induction false} SteadyStep(cfg: Config, s: State, e: Event)
    requires Inv(cfg, s) && Undisturbed(s) && Within(cfg, ActiveCount(s.t)) && Enabled(s, e) && Steady(cfg.policy, e)
    ensures Inv(cfg, Step(cfg, s, e)) && Undisturbed(Step(cfg, s, e))
    ensures ActiveCount(Step(cfg, s, e).t) == ActiveCount(s.t)
  {
    StepOk(cfg, s, e);
    if e.Exited? {
      assert s.t.waits[e.slot] > 0;
      OnExitOk(s, e.slot, e.waitOk, e.spawnOk);
    }
    assert e.Tick? ==> Branch(cfg, s, e) == s;
    assert Step(cfg, s, e).t == Branch(cfg, s, e).t;
  }

  /** Between the thresholds a fleet within its range keeps its size, in every run without
      failures. */
  lemma {:induction false} BandHolds(cfg: Config, s: State, es: seq<Event>)
    requires Inv(cfg, s) && Undisturbed(s) && Within(cfg, ActiveCount(s.t)) && Valid(cfg, s, es)
    requires forall i :: 0 <= i < |es| ==> Steady(cfg.policy, es[i])
    ensures ActiveCount(Run(cfg, s, es).t) == ActiveCount(s.t)
    decreases |es|
  {
    if es != [] {
      SteadyStep(cfg, s, es[0]);
      assert forall i :: 0 <= i < |es[1..]| ==> es[1..][i] == es[i + 1];
      BandHolds(cfg, Step(cfg, s, es[0]), es[1..]);
    }
  }

  // ------------------------------------------------------------------
  // Exits, signals and the default policy
  // ------------------------------------------------------------------

  /** A worker that exits is replaced in its slot exactly if it was not being scaled down,
      its wait succeeded and nobody has asked for a shutdown; if the replacement cannot be
      spawned the supervisor gives up. */
  lemma {:induction false} RestartsExactly(cfg: Config, s: State, slot: nat, waitOk: bool, spawnOk: bool, now: nat)
    requires Inv(cfg, s) && Enabled(s, Exited(slot, waitOk, spawnOk, now))
    ensures slot < |s.t.pids| && s.t.pids[slot].Some?
    ensures var b := Branch(cfg, s, Exited(slot, waitOk, spawnOk, now));
            var replaced := slot !in s.t.stopping && waitOk && !s.shutdown;
            && slot < |b.t.pids| && slot !in b.t.stopping
            && b.t.pids[slot] == (if replaced && spawnOk then Some(s.t.spawned) else None)
            && (b.status.ReturnedErr? <==> replaced && !spawnOk)
            && (b.status.Running? <==> !(replaced && !spawnOk))
            && b.t.exited == s.t.exited + (if waitOk then {s.t.pids[slot].value} else {})
            && b.t.waitFailed == s.t.waitFailed + (if waitOk then {} else {s.t.pids[slot].value})
            && forall other :: 0 <= other < |s.t.pids| && other != slot ==>
                 other < |b.t.pids| && b.t.pids[other] == s.t.pids[other]
  {
    assert s.t.waits[slot] > 0;
  }

  /** A scaled-down worker's exit goes back to the select: even past the deadline the
      supervisor keeps running. */
  lemma {:induction false} StoppingExitContinues(cfg: Config, s: State, slot: nat, waitOk: bool, spawnOk: bool, now: nat)
    requires Inv(cfg, s) && Enabled(s, Exited(slot, waitOk, spawnOk, now)) && slot in s.t.stopping
    ensures Step(cfg, s, Exited(slot, waitOk, spawnOk, now)).status.Running?
  {
    RestartsExactly(cfg, s, slot, waitOk, spawnOk, now);
  }

  /** A signal or a cancelled token asks for a shutdown; seeing it sends SIGTERM to everyone alive and to nobody
      else, and sets the deadline. */
  lemma {:induction false} SignalDrains(cfg: Config, s: State, at: nat, now: nat)
    requires Inv(cfg, s) && s.status.Running? && s.deadline.None?
    ensures Enabled(s, Signal(at)) && Branch(cfg, s, Signal(at)) == s.(shutdown := true)
    ensures Enabled(s, CancelToken) && Step(cfg, s, CancelToken) == s.(shutdown := true)
    ensures var t := s.(shutdown := true);
            var d := Branch(cfg, t, ShutdownSeen(now));
            && Enabled(t, ShutdownSeen(now))
            && d.deadline == Some(now + cfg.drainTimeout) && d.t.termed == s.t.termed + LiveIds(s.t.pids)
            && d.t.pids == s.t.pids && d.t.spawned == s.t.spawned
  {
  }

  /** Once everyone has exited or is being scaled down, the next check returns and kills
      nobody. */
  lemma {:induction false} DrainedReturns(cfg: Config, s: State, e: Event)
    requires Enabled(s, e) && !e.CancelToken? && !SkipsDrainCheck(s, e)
    requires var b := Branch(cfg, s, e);
             && b.status.Running? && b.deadline.Some?
             && (forall slot :: Live(b.t.pids, slot) ==> slot in b.t.stopping)
    ensures Step(cfg, s, e).status.ReturnedOk? && Step(cfg, s, e).t == Branch(cfg, s, e).t
  {
  }

  /** With nobody left to wait for, it returns at once if a shutdown was asked for and goes
      on looping otherwise. */
  lemma {:induction false} NoChildrenReturns(cfg: Config, s: State, now: nat)
    requires Inv(cfg, s) && s.status.Running? && s.t.waits == multiset{} && s.deadline.None?
    ensures Enabled(s, NoChildren(now))
    ensures if s.shutdown then Step(cfg, s, NoChildren(now)).status.ReturnedOk?
            else Step(cfg, s, NoChildren(now)).status.Running? && Step(cfg, s, NoChildren(now)).t == s.t
  {
  }

  /** It never returns Ok unless a shutdown was asked for. */
  lemma {:induction false} ReturnsOnlyAfterShutdown(cfg: Config, s: State, e: Event)
    requires Inv(cfg, s) && Enabled(s, e) && Step(cfg, s, e).status.ReturnedOk?
    ensures Step(cfg, s, e).shutdown
  {
    BranchOk(cfg, s, e);
  }

  /** After every turn of the loop the scaling branch is open exactly if the policy has a
      range and no shutdown was asked for. */
  lemma {:induction false} ArmedExactly(cfg: Config, s: State, e: Event)
    requires Enabled(s, e) && !e.CancelToken? && Step(cfg, s, e).status.Running?
    ensures Step(cfg, s, e).armed <==> Scaling(cfg) && !Step(cfg, s, e).shutdown
  {
  }

  /** The decisions of the default policy, for a fleet of one to four. */
  lemma {:induction false} DefaultDecisions(n: nat, load: real)
    requires 1 <= n <= 4
    ensures DecideScale(n, load, DEFAULT_POLICY) ==
            if load >= 0.7 then (if n < 4 then n + 1 else 4)
            else if load <= 0.3 then (if n > 1 then n - 1 else 1)
            else n
    ensures DEFAULT_POLICY.cooldown == 15 * 1000
  {
  }

  // ------------------------------------------------------------------
  // Deadlines
  // ------------------------------------------------------------------

  predicate Rescales(cfg: Config, s: State, e: Event)
    requires Enabled(s, e)
  {
    e.Tick? && Branch(cfg, s, e) != s
  }

  predicate NeverRescales(cfg: Config, s: State, es: seq<Event>)
    requires Valid(cfg, s, es)
    decreases |es|
  {
    es == [] || (!Rescales(cfg, s, es[0]) && NeverRescales(cfg, Step(cfg, s, es[0]), es[1..]))
  }

  lemma {:induction false} ScaleTimeStays(cfg: Config, s: State, es: seq<Event>)
    requires Valid(cfg, s, es) && NeverRescales(cfg, s, es)
    ensures Run(cfg, s, es).lastScale == s.lastScale
    decreases |es|
  {
    if es != [] {
      ScaleTimeStays(cfg, Step(cfg, s, es[0]), es[1..]);
    }
  }

  /** Two rescalings with none in between are at least the cooldown apart. */
  lemma {:induction false} RescalingsApart(cfg: Config, s: State, first: Event, es: seq<Event>, second: Event)
    requires Inv(cfg, s) && Enabled(s, first) && Rescales(cfg, s, first) && cfg.policy.cooldown > 0
    requires Valid(cfg, Step(cfg, s, first), es) && NeverRescales(cfg, Step(cfg, s, first), es)
    requires var t := Run(cfg, Step(cfg, s, first), es); Enabled(t, second) && Rescales(cfg, t, second)
    ensures second.now >= first.now + cfg.policy.cooldown
  {
    var next := Step(cfg, s, first);
    StepOk(cfg, s, first);
    InvRun(cfg, next, es);
    ScaleTimeStays(cfg, next, es);
  }

  /** The first tick may rescale at once: the clock starts a cooldown early, unless it
      cannot be set back that far. */
  lemma {:induction false} FirstTickDue(cfg: Config, start: nat, now: nat)
    requires now >= start
    ensures Due(cfg, Init(cfg, start), now) <==> start >= cfg.policy.cooldown || now >= start + cfg.policy.cooldown
  {
  }

  lemma {:induction false} DrainBegins(cfg: Config, s: State, e: Event)
    requires Enabled(s, e) && s.deadline.None? && Step(cfg, s, e).deadline.Some?
    ensures e.ShutdownSeen? && Step(cfg, s, e).deadline == Some(e.now + cfg.drainTimeout)
  {
  }

  lemma {:induction false} BranchKillsNobody(cfg: Config, s: State, e: Event)
    requires Inv(cfg, s) && Enabled(s, e) && s.deadline.Some?
    ensures Branch(cfg, s, e).t.killed == s.t.killed && Branch(cfg, s, e).deadline == s.deadline
  {
  }

  lemma {:induction false} StepKills(cfg: Config, s: State, e: Event)
    requires Inv(cfg, s) && Enabled(s, e) && s.deadline.Some? && Step(cfg, s, e).t.killed != s.t.killed
    ensures !e.CancelToken? && e.now >= s.deadline.value && Step(cfg, s, e).status.ReturnedOk?
    ensures Step(cfg, s, e).t.killed == s.t.killed + LiveIds(Step(cfg, s, e).t.pids)
  {
    BranchKillsNobody(cfg, s, e);
  }

  /** The drain begins when the cancelled token is seen. Nobody is killed before
      `drain_timeout` has passed since then; who is killed is everyone alive, and the
      supervisor returns. */
  lemma {:induction false} KillsAtDeadline(cfg: Config, s: State, first: Event, es: seq<Event>, last: Event)
    requires Inv(cfg, s) && s.deadline.None? && Enabled(s, first) && Step(cfg, s, first).deadline.Some?
    requires Valid(cfg, Step(cfg, s, first), es) && Enabled(Run(cfg, Step(cfg, s, first), es), last)
    requires Step(cfg, Run(cfg, Step(cfg, s, first), es), last).t.killed !=
             Run(cfg, Step(cfg, s, first), es).t.killed
    ensures first.ShutdownSeen? && !last.CancelToken? && last.now >= first.now + cfg.drainTimeout
    ensures var t := Run(cfg, Step(cfg, s, first), es);
            var t' := Step(cfg, t, last);
            t'.status.ReturnedOk? && t'.t.killed == t.t.killed + LiveIds(t'.t.pids)
  {
    var next := Step(cfg, s, first);
    DrainBegins(cfg, s, first);
    StepOk(cfg, s, first);
    InvRun(cfg, next, es);
    DrainSpawnsNobody(cfg, next, es);
    StepKills(cfg, Run(cfg, next, es), last);
  }

  /** At the first check past the deadline the supervisor returns, come what may. */
  lemma {:induction false} DeadlineReturns(cfg: Config, s: State, e: Event)
    requires Inv(cfg, s) && Enabled(s, e) && s.deadline.Some? && !e.CancelToken? && !SkipsDrainCheck(s, e)
    requires e.now >= s.deadline.value
    ensures Step(cfg, s, e).status.ReturnedOk?
  {
    BranchKillsNobody(cfg, s, e);
    BranchOk(cfg, s, e);
    NoErrWhileDraining(cfg, s, e);
  }

  lemma {:induction false} NoErrWhileDraining(cfg: Config, s: State, e: Event)
    requires Inv(cfg, s) && Enabled(s, e) && s.deadline.Some?
    ensures !Branch(cfg, s, e).status.ReturnedErr?
  {
  }

  // ------------------------------------------------------------------
  // The loops
  // ------------------------------------------------------------------

  /** `next_free_slot`. */
  method NextFreeSlot(pids: seq<Option<nat>>) returns (slot: nat, table: seq<Option<nat>>)
    ensures slot == FreeSlot(pids)
    ensures table == if slot == |pids| then pids + [None] else pids
  {
    slot := 0;
    while slot < |pids| && pids[slot].Some?
      invariant slot <= |pids| && forall i :: 0 <= i < slot ==> Live(pids, i)
      invariant FreeSlotFrom(pids, slot) == FreeSlot(pids)
    {
      slot := slot + 1;
    }
    table := if slot == |pids| then pids + [None] else pids;
  }

  method CountActive(pids: seq<Option<nat>>, stopping: set<nat>) returns (active: nat)
    ensures active == |Active(pids, stopping, |pids|)|
  {
    active := 0;
    var i := 0;
    while i < |pids|
      invariant i <= |pids| && active == |Active(pids, stopping, i)|
    {
      ActiveBelow(pids, stopping, i + 1);
      if pids[i].Some? && i !in stopping {
        active := active + 1;
      }
      i := i + 1;
    }
  }

  method SpawnWorkers(t: Table, n: nat, spawns: seq<bool>) returns (r: Table)
    ensures r == ScaleUp(t, n, spawns)
  {
    r := t;
    var toAdd, results := n, spawns;
    while toAdd > 0
      invariant ScaleUp(r, toAdd, results) == ScaleUp(t, n, spawns)
    {
      var slot, pids := NextFreeSlot(r.pids);
      r := r.(pids := pids);
      if results != [] && !results[0] {
        return;
      }
      r := Spawn(r, slot);
      results := if results == [] then [] else results[1..];
      toAdd := toAdd - 1;
    }
  }

  method StopWorkers(t: Table, n: nat) returns (r: Table)
    ensures r == ScaleDown(t, |t.pids|, n)
  {
    r := t;
    var toRemove, k := n, |t.pids|;
    while k > 0 && toRemove > 0
      invariant 0 <= k <= |r.pids| && 0 <= toRemove && ScaleDown(r, k, toRemove) == ScaleDown(t, |t.pids|, n)
      decreases k
    {
      k := k - 1;
      if r.pids[k].Some? && k !in r.stopping {
        r := Stop(r, k);
        toRemove := toRemove - 1;
      }
    }
  }

  method Scale(cfg: Config, s: State, load: real, now: nat, spawns: seq<bool>) returns (r: State)
    ensures r == OnTick(cfg, s, load, now, spawns)
  {
    if cfg.policy.min > cfg.policy.max {
      return s.(status := Panicked);
    }
    var active := CountActive(s.t.pids, s.t.stopping);
    var desired := DecideScale(active, load, cfg.policy);
    if desired == active || !Due(cfg, s, now) {
      return s;
    }
    var table;
    if desired > active {
      table := SpawnWorkers(s.t, Min(desired - active, cfg.policy.step), spawns);
    } else {
      table := StopWorkers(s.t, Min(active - desired, cfg.policy.step));
    }
    r := s.(lastScale := now, t := table);
  }

  /** The select loop, driven by the branches it takes. */
  method Supervise(cfg: Config, start: nat, events: seq<Event>) returns (s: State)
    requires Valid(cfg, Init(cfg, start), events)
    ensures s == Run(cfg, Init(cfg, start), events)
    ensures s.status.ReturnedOk? ==> AllAccounted(s.t)
  {
    InitOk(cfg, start);
    InvRun(cfg, Init(cfg, start), events);
    s := Init(cfg, start);
    var i := 0;
    while i < |events|
      invariant 0 <= i <= |events| && Valid(cfg, s, events[i..])
      invariant Run(cfg, s, events[i..]) == Run(cfg, Init(cfg, start), events)
    {
      var e := events[i];
      var before := s;
      assert events[i..][1..] == events[i + 1..];
      if e.Tick? {
        s := Scale(cfg, s, e.load, e.now, e.spawns);
      } else {
        s := Branch(cfg, s, e);
      }
      if !e.CancelToken? && s.status.Running? {
        if !SkipsDrainCheck(before, e) {
          s := DrainCheck(s, e.now);
        }
        s := s.(armed := Scaling(cfg) && !s.shutdown);
      }
      i := i + 1;
    }
  }
}
