/** The router of `crates/justapi-core/src/router.rs`: per-method route tables, a slow
    match over all of them, and a bounded FIFO cache in front. The tables come from
    an external matching library and are a parameter here. */
module RouteCache {
  import opened Prelude

  datatype Param = Param(name: string, value: string)
  datatype Match<+T> = Match(handler: T, params: seq<Param>)
  datatype Resolution<+T> = Ok(found: Match<T>) | NotFound | MethodNotAllowed

  /** A table type `R` of routes to handlers `T`; `statics` lists its parameterless
      routes. An insert that conflicts is refused. */
  datatype Matcher<!R, !T> = Matcher(
    empty: R,
    at: (R, string) -> Option<Match<T>>,
    insert: (R, string, T) -> Option<R>,
    statics: R -> map<string, T>)

  /** What is assumed of the library: an empty table matches nothing, static routes
      win and alone match without parameters, and no insert replaces one. */
  ghost predicate Lawful<R(!new), T(!new)>(m: Matcher<R, T>) {
    && (forall p :: m.at(m.empty, p) == None)
    && (forall r, p :: p in m.statics(r) ==> m.at(r, p) == Some(Match(m.statics(r)[p], [])))
    && (forall r, p :: m.at(r, p).Some? && m.at(r, p).value.params == [] ==> p in m.statics(r))
    && (forall r, q, h, p :: m.insert(r, q, h).Some? && p in m.statics(r) ==>
          p in m.statics(m.insert(r, q, h).value) && m.statics(m.insert(r, q, h).value)[p] == m.statics(r)[p])
  }

  /** Static routes and a catch-all: what a static route does not match, the catch-all
      does, with the path as its parameter. */
  datatype Table<T> = Table(statics: map<string, T>, catchAll: Option<T>)

  const CATCH_ALL := "/{*rest}"

  function TableAt<T>(r: Table<T>, p: string): Option<Match<T>> {
    if p in r.statics then Some(Match(r.statics[p], []))
    else if r.catchAll.Some? then Some(Match(r.catchAll.value, [Param("rest", p)]))
    else None
  }

  function TableInsert<T>(r: Table<T>, p: string, h: T): Option<Table<T>> {
    if p == CATCH_ALL then if r.catchAll.Some? then None else Some(r.(catchAll := Some(h)))
    else if p in r.statics then None
    else Some(r.(statics := r.statics[p := h]))
  }

  function TableMatcher<T>(): Matcher<Table<T>, T> {
    Matcher(Table(map[], None),
            (r: Table<T>, p: string) => TableAt(r, p),
            (r: Table<T>, p: string, h: T) => TableInsert(r, p, h),
            (r: Table<T>) => r.statics)
  }

  /** The assumptions can be met. */
  lemma {:induction false} TableMatcherLawful<T(!new)>()
    ensures Lawful(TableMatcher<T>())
  {
    var m := TableMatcher<T>();
    forall r, q, h, p | m.insert(r, q, h).Some? && p in m.statics(r)
      ensures p in m.statics(m.insert(r, q, h).value)
      ensures m.statics(m.insert(r, q, h).value)[p] == m.statics(r)[p]
    {
      assert m.insert(r, q, h) == TableInsert(r, q, h);
    }
  }

  /** In these tables a static route and the catch-all can both match, and the static one
      wins whichever was inserted first. */
  lemma {:induction false} StaticWins<T>(p: string, a: T, b: T)
    requires p != CATCH_ALL
    ensures var all := Table(map[], Some(a));
            var both := Table(map[p := b], Some(a));
            && TableInsert(Table(map[], None), CATCH_ALL, a) == Some(all)
            && TableInsert(all, p, b) == Some(both)
            && TableInsert(Table(map[p := b], None), CATCH_ALL, a) == Some(both)
            && TableAt(all, p) == Some(Match(a, [Param("rest", p)])) && TableAt(both, p) == Some(Match(b, []))
  {
  }

  type Routes<R> = map<string, R>

  datatype Key = Key(verb: string, path: string)

  predicate Matches<R, T>(m: Matcher<R, T>, routes: Routes<R>, verb: string, path: string) {
    verb in routes && m.at(routes[verb], path).Some?
  }

  /** `raw_resolve`: the method's own table, then the others for the error. */
  function Raw<R, T>(m: Matcher<R, T>, routes: Routes<R>, k: Key): Resolution<T> {
    if Matches(m, routes, k.verb, k.path) then Ok(m.at(routes[k.verb], k.path).value)
    else if exists other :: other in routes && other != k.verb && Matches(m, routes, other, k.path)
    then MethodNotAllowed
    else NotFound
  }

  // ------------------------------------------------------------------
  // Registering routes
  // ------------------------------------------------------------------

  function TableOf<R, T>(m: Matcher<R, T>, routes: Routes<R>, verb: string): R {
    if verb in routes then routes[verb] else m.empty
  }

  /** Try to add a route to one method's table, which exists afterwards either way. */
  function AddTo<R, T>(m: Matcher<R, T>, routes: Routes<R>, verb: string, path: string, h: T): Routes<R> {
    var r := TableOf(m, routes, verb);
    routes[verb := match m.insert(r, path, h) case Some(r') => r' case None => r]
  }

  /** `Router::insert`: a GET route is offered to HEAD as well. */
  function Register<R, T>(m: Matcher<R, T>, routes: Routes<R>, verb: string, path: string, h: T): Routes<R> {
    var added := AddTo(m, routes, verb, path, h);
    if verb == "GET" && m.insert(TableOf(m, routes, verb), path, h).Some? then AddTo(m, added, "HEAD", path, h)
    else added
  }

  // ------------------------------------------------------------------
  // The cache
  // ------------------------------------------------------------------

  datatype Entry<+T> = Hit(found: Match<T>) | Missing

  datatype Cache<+T> = Cache(entries: map<Key, Entry<T>>, order: seq<Key>)

  function Evict<T>(c: Cache<T>, capacity: nat): Cache<T> {
    if |c.order| > capacity && c.order != [] then Cache(c.entries - {c.order[0]}, c.order[1..]) else c
  }

  /** `RouteCache::insert`. */
  function Store<T>(c: Cache<T>, capacity: nat, k: Key, e: Entry<T>): Cache<T> {
    var room := if k in c.entries then c else Evict(c.(order := c.order + [k]), capacity);
    room.(entries := room.entries[k := e])
  }

  /** Only parameterless hits and definitive misses are remembered. */
  function Remember<T>(c: Cache<T>, capacity: nat, k: Key, res: Resolution<T>): Cache<T> {
    match res
    case Ok(found) => if found.params == [] then Store(c, capacity, k, Hit(found)) else c
    case NotFound => Store(c, capacity, k, Missing)
    case MethodNotAllowed => c
  }

  function Answer<T>(e: Entry<T>): Resolution<T> {
    match e
    case Hit(found) => Ok(found)
    case Missing => NotFound
  }

  /** `Router::resolve` with a cache. */
  function Resolve<R, T>(m: Matcher<R, T>, routes: Routes<R>, c: Cache<T>, capacity: nat, k: Key)
    : (Cache<T>, Resolution<T>)
  {
    if k in c.entries then (c, Answer(c.entries[k]))
    else
      var res := Raw(m, routes, k);
      (Remember(c, capacity, k, res), res)
  }

  /** The queue lists the cached keys, each once, and is no longer than the capacity. */
  ghost predicate CacheOk<T>(c: Cache<T>, capacity: nat) {
    && NoRepeats(c.order)
    && (forall k :: k in c.entries <==> k in c.order)
    && |c.order| <= capacity
  }

  ghost predicate NoRepeats(order: seq<Key>) {
    forall i, j :: 0 <= i < j < |order| ==> order[i] != order[j]
  }

  lemma {:induction false} PushBack(order: seq<Key>, k: Key)
    requires NoRepeats(order) && k !in order
    ensures NoRepeats(order + [k]) && forall q :: q in order + [k] <==> q in order || q == k
  {
  }

  lemma {:induction false} PopFront(order: seq<Key>)
    requires NoRepeats(order) && order != []
    ensures NoRepeats(order[1..]) && forall q :: q in order[1..] <==> q in order && q != order[0]
  {
    assert order == [order[0]] + order[1..];
  }

  /** Storing keeps the shape, sets the key, and changes no other entry it keeps. */
  lemma {:induction false} StoreOk<T>(c: Cache<T>, capacity: nat, k: Key, e: Entry<T>)
    requires CacheOk(c, capacity) && capacity >= 1
    ensures CacheOk(Store(c, capacity, k, e), capacity)
    ensures forall q :: q in Store(c, capacity, k, e).entries && q != k ==>
              q in c.entries && Store(c, capacity, k, e).entries[q] == c.entries[q]
    ensures k in Store(c, capacity, k, e).entries && Store(c, capacity, k, e).entries[k] == e
  {
    if k !in c.entries {
      PushBack(c.order, k);
      var longer := c.order + [k];
      if |longer| > capacity {
        PopFront(longer);
        assert longer[0] == c.order[0] != k;
      }
    }
  }

  /** Keys are kept in the order they were entered, and the oldest goes first. */
  lemma {:induction false} EvictsOldest<T>(c: Cache<T>, capacity: nat, k: Key, e: Entry<T>)
    requires CacheOk(c, capacity) && capacity >= 1
    ensures Store(c, capacity, k, e).order ==
            if k in c.entries then c.order
            else if |c.order| < capacity then c.order + [k]
            else c.order[1..] + [k]
  {
    if k !in c.entries && |c.order| == capacity {
      assert (c.order + [k])[1..] == c.order[1..] + [k];
    }
  }

  /** What a resolve that finds no entry leaves behind: a match without parameters and a
      definitive miss are remembered, nothing else is. */
  lemma {:induction false} RemembersExactly<R, T>(m: Matcher<R, T>, routes: Routes<R>, c: Cache<T>, capacity: nat, k: Key)
    requires CacheOk(c, capacity) && capacity >= 1 && k !in c.entries
    ensures var (c', res) := Resolve(m, routes, c, capacity, k);
            && (k in c'.entries <==> res.NotFound? || (res.Ok? && res.found.params == []))
            && (k in c'.entries ==> Answer(c'.entries[k]) == res)
            && (k !in c'.entries ==> c' == c)
  {
    var raw := Raw(m, routes, k);
    if raw.NotFound? || (raw.Ok? && raw.found.params == []) {
      StoreOk(c, capacity, k, if raw.Ok? then Hit(raw.found) else Missing);
    }
  }

  // ------------------------------------------------------------------
  // Freshness
  // ------------------------------------------------------------------

  /** Every cached answer is what the slow path would say now. */
  ghost predicate Fresh<R, T>(m: Matcher<R, T>, routes: Routes<R>, c: Cache<T>) {
    forall k :: k in c.entries ==> Answer(c.entries[k]) == Raw(m, routes, k)
  }

  /** The cached hits are, and they carry no parameters; the misses need not be. */
  ghost predicate HitsFresh<R, T>(m: Matcher<R, T>, routes: Routes<R>, c: Cache<T>) {
    forall k :: k in c.entries && c.entries[k].Hit? ==>
      c.entries[k].found.params == [] && Ok(c.entries[k].found) == Raw(m, routes, k)
  }

  /** One resolve keeps the cache in shape and its hits fresh, and disagrees with the
      slow path exactly when a stale miss is cached for the key. */
  lemma {:induction false} ResolveStep<R, T>(m: Matcher<R, T>, routes: Routes<R>, c: Cache<T>, capacity: nat, k: Key)
    requires CacheOk(c, capacity) && capacity >= 1 && HitsFresh(m, routes, c)
    ensures var (c', res) := Resolve(m, routes, c, capacity, k);
            && CacheOk(c', capacity) && HitsFresh(m, routes, c')
            && (res != Raw(m, routes, k) <==>
                k in c.entries && c.entries[k].Missing? && Raw(m, routes, k) != NotFound)
            && (Fresh(m, routes, c) ==> Fresh(m, routes, c'))
  {
    var raw := Raw(m, routes, k);
    if k !in c.entries && (raw.NotFound? || (raw.Ok? && raw.found.params == [])) {
      StoreKeepsFresh(m, routes, c, capacity, k, if raw.NotFound? then Missing else Hit(raw.found));
    }
  }

  /** Storing the slow path's own answer keeps the cache in shape and fresh. */
  lemma {:induction false} StoreKeepsFresh<R, T>(
    m: Matcher<R, T>, routes: Routes<R>, c: Cache<T>, capacity: nat, k: Key, e: Entry<T>)
    requires CacheOk(c, capacity) && capacity >= 1 && HitsFresh(m, routes, c)
    requires Answer(e) == Raw(m, routes, k) && (e.Hit? ==> e.found.params == [])
    ensures var c' := Store(c, capacity, k, e);
            && CacheOk(c', capacity) && HitsFresh(m, routes, c')
            && (Fresh(m, routes, c) ==> Fresh(m, routes, c'))
  {
    StoreOk(c, capacity, k, e);
    var c' := Store(c, capacity, k, e);
    forall q | q in c'.entries && c'.entries[q].Hit?
      ensures c'.entries[q].found.params == [] && Ok(c'.entries[q].found) == Raw(m, routes, q)
    {
      if q != k {
        assert c'.entries[q] == c.entries[q];
      }
    }
  }

  /** Adding a route to one table never disturbs a parameterless match. */
  lemma {:induction false} AddKeepsHits<R(!new), T(!new)>(
    m: Matcher<R, T>, routes: Routes<R>, verb: string, path: string, h: T, k: Key)
    requires Lawful(m) && Raw(m, routes, k).Ok? && Raw(m, routes, k).found.params == []
    ensures Raw(m, AddTo(m, routes, verb, path, h), k) == Raw(m, routes, k)
  {
    if verb == k.verb {
      var r := routes[verb];
      assert k.path in m.statics(r);
      if m.insert(r, path, h).Some? {
        assert k.path in m.statics(m.insert(r, path, h).value);
      }
    }
  }

  lemma {:induction false} RegisterKeepsHits<R(!new), T(!new)>(
    m: Matcher<R, T>, routes: Routes<R>, c: Cache<T>, verb: string, path: string, h: T)
    requires Lawful(m) && HitsFresh(m, routes, c)
    ensures HitsFresh(m, Register(m, routes, verb, path, h), c)
  {
    forall k | k in c.entries && c.entries[k].Hit?
      ensures Ok(c.entries[k].found) == Raw(m, Register(m, routes, verb, path, h), k)
    {
      AddKeepsHits(m, routes, verb, path, h, k);
      AddKeepsHits(m, AddTo(m, routes, verb, path, h), "HEAD", path, h, k);
    }
  }

  // ------------------------------------------------------------------
  // Runs
  // ------------------------------------------------------------------

  datatype Op<+T> = Insert(verb: string, path: string, handler: T) | Lookup(key: Key)

  datatype State<R, T> = State(routes: Routes<R>, cache: Cache<T>)

  function Step<R, T>(m: Matcher<R, T>, capacity: nat, s: State<R, T>, op: Op<T>): State<R, T> {
    match op
    case Insert(verb, path, h) => s.(routes := Register(m, s.routes, verb, path, h))
    case Lookup(k) => s.(cache := Resolve(m, s.routes, s.cache, capacity, k).0)
  }

  function Run<R, T>(m: Matcher<R, T>, capacity: nat, s: State<R, T>, ops: seq<Op<T>>): State<R, T> {
    if ops == [] then s else Step(m, capacity, Run(m, capacity, s, ops[..|ops| - 1]), ops[|ops| - 1])
  }

  function Init<R, T>(): State<R, T> { State(map[], Cache(map[], [])) }

  /** Over every run, inserts and resolves mixed at will: the cache keeps its shape,
      and a cached hit is never stale. */
  lemma {:induction false} RunKeepsHits<R(!new), T(!new)>(m: Matcher<R, T>, capacity: nat, ops: seq<Op<T>>)
    requires Lawful(m) && capacity >= 1
    ensures var s := Run(m, capacity, Init<R, T>(), ops);
            CacheOk(s.cache, capacity) && HitsFresh(m, s.routes, s.cache)
  {
    if ops != [] {
      var s := Run(m, capacity, Init<R, T>(), ops[..|ops| - 1]);
      RunKeepsHits(m, capacity, ops[..|ops| - 1]);
      match ops[|ops| - 1]
      case Insert(verb, path, h) => RegisterKeepsHits(m, s.routes, s.cache, verb, path, h);
      case Lookup(k) => ResolveStep(m, s.routes, s.cache, capacity, k);
    }
  }

  /** Hence in any run a resolve differs from the slow path only by reporting a
      remembered miss for a path that has been registered since. */
  lemma {:induction false} OnlyMissesGoStale<R(!new), T(!new)>(m: Matcher<R, T>, capacity: nat, ops: seq<Op<T>>, k: Key)
    requires Lawful(m) && capacity >= 1
    ensures var s := Run(m, capacity, Init<R, T>(), ops);
            var res := Resolve(m, s.routes, s.cache, capacity, k).1;
            res != Raw(m, s.routes, k) <==>
            k in s.cache.entries && s.cache.entries[k].Missing? && Raw(m, s.routes, k) != NotFound
  {
    var s := Run(m, capacity, Init<R, T>(), ops);
    RunKeepsHits(m, capacity, ops);
    ResolveStep(m, s.routes, s.cache, capacity, k);
  }

  // ------------------------------------------------------------------
  // Where an entry comes from
  // ------------------------------------------------------------------

  function EntryOf<T>(c: Cache<T>, k: Key): Option<Entry<T>> { if k in c.entries then Some(c.entries[k]) else None }

  /** The entry of one key along a run, and what the slow path said at each look-up of it:
      an entry stays as it is until it is dropped, and only a look-up enters one. */
  ghost predicate Provenance<T>(entries: seq<Option<Entry<T>>>, asked: seq<Option<Resolution<T>>>) {
    && |entries| == |asked| + 1 && entries[0].None?
    && forall j :: 0 <= j < |asked| && entries[j + 1].Some? ==>
         if entries[j].Some? then entries[j + 1] == entries[j]
         else asked[j] == Some(Answer(entries[j + 1].value))
  }

  /** The look-up at step `n` found no entry, and there has been one ever since. */
  ghost predicate EnteredAt<T>(entries: seq<Option<Entry<T>>>, asked: seq<Option<Resolution<T>>>, n: int)
    requires |entries| == |asked| + 1
  {
    0 <= n < |asked| && asked[n].Some? && entries[n].None? && forall j :: n < j <= |asked| ==> entries[j].Some?
  }

  lemma {:induction false} FindEntry<T>(entries: seq<Option<Entry<T>>>, asked: seq<Option<Resolution<T>>>, j: nat)
    returns (n: nat)
    requires Provenance(entries, asked) && j <= |asked|
    requires forall i :: j <= i <= |asked| ==> entries[i].Some?
    ensures EnteredAt(entries, asked, n)
    decreases j
  {
    if entries[j - 1].Some? {
      n := FindEntry(entries, asked, j - 1);
    } else {
      n := j - 1;
      assert entries[n + 1].Some?;
    }
  }

  lemma {:induction false} EntryKept<T>(
    entries: seq<Option<Entry<T>>>, asked: seq<Option<Resolution<T>>>, n: nat, j: nat)
    requires Provenance(entries, asked) && EnteredAt(entries, asked, n) && n < j <= |asked|
    ensures entries[j].Some? && asked[n] == Some(Answer(entries[j].value))
    decreases j
  {
    var i := j - 1;
    assert entries[i + 1].Some?;
    if i > n {
      EntryKept(entries, asked, n, i);
    }
  }

  /** What a key is answered from at the end of a run is the look-up that entered it. */
  lemma {:induction false} EntryOrigin<T>(entries: seq<Option<Entry<T>>>, asked: seq<Option<Resolution<T>>>)
    requires Provenance(entries, asked)
    ensures entries[|asked|].Some? <==> exists n :: EnteredAt(entries, asked, n)
    ensures forall n :: EnteredAt(entries, asked, n) ==>
              entries[|asked|].Some? && asked[n] == Some(Answer(entries[|asked|].value))
  {
    if entries[|asked|].Some? {
      var n := FindEntry(entries, asked, |asked|);
    }
    forall n | EnteredAt(entries, asked, n)
      ensures entries[|asked|].Some? && asked[n] == Some(Answer(entries[|asked|].value))
    {
      EntryKept(entries, asked, n, |asked|);
    }
  }

  /** What one resolve does to the entry of a key: keeps it, drops it, or, if it is for
      that key and finds none, enters what the slow path says. */
  lemma {:induction false} EntryStep<R, T>(
    m: Matcher<R, T>, routes: Routes<R>, c: Cache<T>, capacity: nat, asked: Key, k: Key)
    requires CacheOk(c, capacity) && capacity >= 1
    ensures var c' := Resolve(m, routes, c, capacity, asked).0;
            && CacheOk(c', capacity)
            && (EntryOf(c', k).Some? ==>
                  if EntryOf(c, k).Some? then EntryOf(c', k) == EntryOf(c, k)
                  else asked == k && Raw(m, routes, k) == Answer(c'.entries[k]))
  {
    var raw := Raw(m, routes, asked);
    if asked !in c.entries && (raw.NotFound? || (raw.Ok? && raw.found.params == [])) {
      StoreEntry(c, capacity, asked, if raw.Ok? then Hit(raw.found) else Missing, k);
    }
  }

  lemma {:induction false} StoreEntry<T>(c: Cache<T>, capacity: nat, asked: Key, e: Entry<T>, k: Key)
    requires CacheOk(c, capacity) && capacity >= 1 && asked !in c.entries
    ensures var c' := Store(c, capacity, asked, e);
            && CacheOk(c', capacity)
            && (EntryOf(c', k).Some? ==> EntryOf(c', k) == if asked == k then Some(e) else EntryOf(c, k))
  {
    StoreOk(c, capacity, asked, e);
  }

  // ------------------------------------------------------------------
  // Misses that go stale
  // ------------------------------------------------------------------

  /** The states of a run, first and last included. */
  ghost predicate IsTrace<R, T>(m: Matcher<R, T>, capacity: nat, ops: seq<Op<T>>, tr: seq<State<R, T>>) {
    && |tr| == |ops| + 1 && tr[0] == Init<R, T>()
    && (forall n :: 0 <= n < |ops| ==> tr[n + 1] == Step(m, capacity, tr[n], ops[n]))
  }

  lemma {:induction false} TraceRuns<R, T>(
    m: Matcher<R, T>, capacity: nat, ops: seq<Op<T>>, tr: seq<State<R, T>>, n: nat)
    requires IsTrace(m, capacity, ops, tr) && n <= |ops|
    ensures tr[n] == Run(m, capacity, Init<R, T>(), ops[..n])
  {
    if n > 0 {
      var i := n - 1;
      TraceRuns(m, capacity, ops, tr, i);
      assert ops[..n][..i] == ops[..i];
      assert tr[i + 1] == Step(m, capacity, tr[i], ops[i]);
    }
  }

  /** At step `n` of the run `k` was looked up, had no route and no entry, and its entry
      has stayed in the cache ever since. */
  ghost predicate MissedAt<R, T>(m: Matcher<R, T>, ops: seq<Op<T>>, tr: seq<State<R, T>>, k: Key, n: int)
    requires |tr| == |ops| + 1
  {
    && 0 <= n < |ops| && ops[n] == Lookup(k)
    && Raw(m, tr[n].routes, k) == NotFound && k !in tr[n].cache.entries
    && forall j :: n < j <= |ops| ==> k in tr[j].cache.entries
  }

  ghost function Entries<R, T>(tr: seq<State<R, T>>, k: Key): (r: seq<Option<Entry<T>>>)
    ensures |r| == |tr|
  {
    seq(|tr|, i requires 0 <= i < |tr| => EntryOf(tr[i].cache, k))
  }

  ghost function Asked<R, T>(m: Matcher<R, T>, ops: seq<Op<T>>, tr: seq<State<R, T>>, k: Key)
    : (r: seq<Option<Resolution<T>>>)
    requires |tr| == |ops| + 1
    ensures |r| == |ops|
  {
    seq(|ops|, i requires 0 <= i < |ops| => if ops[i] == Lookup(k) then Some(Raw(m, tr[i].routes, k)) else None)
  }

  lemma {:induction false} ShapeKept<R, T>(m: Matcher<R, T>, capacity: nat, ops: seq<Op<T>>, tr: seq<State<R, T>>, n: nat)
    requires capacity >= 1 && IsTrace(m, capacity, ops, tr) && n <= |ops|
    ensures CacheOk(tr[n].cache, capacity)
  {
    if n > 0 {
      var i := n - 1;
      ShapeKept(m, capacity, ops, tr, i);
      assert tr[i + 1] == Step(m, capacity, tr[i], ops[i]);
      if ops[i].Lookup? {
        EntryStep(m, tr[i].routes, tr[i].cache, capacity, ops[i].key, ops[i].key);
      }
    }
  }

  lemma {:induction false} RunProvenance<R, T>(
    m: Matcher<R, T>, capacity: nat, ops: seq<Op<T>>, tr: seq<State<R, T>>, k: Key)
    requires capacity >= 1 && IsTrace(m, capacity, ops, tr)
    ensures Provenance(Entries(tr, k), Asked(m, ops, tr, k))
  {
    var entries, asked := Entries(tr, k), Asked(m, ops, tr, k);
    forall j | 0 <= j < |ops| && entries[j + 1].Some?
      ensures if entries[j].Some? then entries[j + 1] == entries[j]
              else asked[j] == Some(Answer(entries[j + 1].value))
    {
      ShapeKept(m, capacity, ops, tr, j);
      assert tr[j + 1] == Step(m, capacity, tr[j], ops[j]);
      if ops[j].Lookup? {
        EntryStep(m, tr[j].routes, tr[j].cache, capacity, ops[j].key, k);
      }
    }
  }

  lemma {:induction false} MissIsEntry<R, T>(m: Matcher<R, T>, ops: seq<Op<T>>, tr: seq<State<R, T>>, k: Key, n: int)
    requires |tr| == |ops| + 1
    ensures MissedAt(m, ops, tr, k, n) <==>
            EnteredAt(Entries(tr, k), Asked(m, ops, tr, k), n) && Asked(m, ops, tr, k)[n] == Some(NotFound)
  {
    var entries, asked := Entries(tr, k), Asked(m, ops, tr, k);
    assert forall j :: 0 <= j < |tr| ==> entries[j] == EntryOf(tr[j].cache, k);
    if EnteredAt(entries, asked, n) {
      forall j | n < j <= |ops|
        ensures k in tr[j].cache.entries
      {
        assert entries[j].Some?;
      }
    }
  }

  /** Over the run: a resolve is wrong exactly when the key was looked up before it had a
      route, has not been evicted since, and has a route by now. */
  lemma {:induction false} StaleExactly<R(!new), T(!new)>(
    m: Matcher<R, T>, capacity: nat, ops: seq<Op<T>>, tr: seq<State<R, T>>, k: Key)
    requires Lawful(m) && capacity >= 1 && IsTrace(m, capacity, ops, tr)
    ensures var s := tr[|ops|];
            Resolve(m, s.routes, s.cache, capacity, k).1 != Raw(m, s.routes, k) <==>
            Raw(m, s.routes, k) != NotFound && exists n :: MissedAt(m, ops, tr, k, n)
  {
    var s := tr[|ops|];
    assert ops[..|ops|] == ops;
    TraceRuns(m, capacity, ops, tr, |ops|);
    OnlyMissesGoStale(m, capacity, ops, k);
    RunProvenance(m, capacity, ops, tr, k);
    MissOrigin(m, ops, tr, k);
    assert EntryOf(s.cache, k) == Some(Missing) <==> k in s.cache.entries && s.cache.entries[k].Missing?;
  }

  lemma {:induction false} MissOrigin<R, T>(m: Matcher<R, T>, ops: seq<Op<T>>, tr: seq<State<R, T>>, k: Key)
    requires |tr| == |ops| + 1 && Provenance(Entries(tr, k), Asked(m, ops, tr, k))
    ensures EntryOf(tr[|ops|].cache, k) == Some(Missing) <==> exists n :: MissedAt(m, ops, tr, k, n)
  {
    var entries, asked := Entries(tr, k), Asked(m, ops, tr, k);
    EntryOrigin(entries, asked);
    assert entries[|ops|] == EntryOf(tr[|ops|].cache, k);
    if entries[|ops|] == Some(Missing) {
      var n :| EnteredAt(entries, asked, n);
      MissIsEntry(m, ops, tr, k, n);
    }
    if n :| MissedAt(m, ops, tr, k, n) {
      MissIsEntry(m, ops, tr, k, n);
    }
  }

  predicate InsertsFirst<T>(ops: seq<Op<T>>) {
    forall i, j :: 0 <= i < j < |ops| && ops[j].Insert? ==> ops[i].Insert?
  }

  lemma {:induction false} InsertsLeaveCache<R, T>(m: Matcher<R, T>, capacity: nat, ops: seq<Op<T>>)
    requires forall i :: 0 <= i < |ops| ==> ops[i].Insert?
    ensures Run(m, capacity, Init<R, T>(), ops).cache == Cache(map[], [])
  {
    if ops != [] {
      InsertsLeaveCache(m, capacity, ops[..|ops| - 1]);
    }
  }

  /** If every insert precedes the first resolve, the cached router always agrees with
      the slow path; no assumption on the matching library is needed. */
  lemma {:induction false} InsertsFirstAgree<R, T>(m: Matcher<R, T>, capacity: nat, ops: seq<Op<T>>, k: Key)
    requires capacity >= 1 && InsertsFirst(ops)
    ensures var s := Run(m, capacity, Init<R, T>(), ops);
            && CacheOk(s.cache, capacity) && HitsFresh(m, s.routes, s.cache) && Fresh(m, s.routes, s.cache)
            && Resolve(m, s.routes, s.cache, capacity, k).1 == Raw(m, s.routes, k)
  {
    if ops != [] {
      var last := ops[|ops| - 1];
      if last.Insert? {
        forall i | 0 <= i < |ops|
          ensures ops[i].Insert?
        {
          assert i < |ops| - 1 ==> ops[i].Insert?;
        }
        InsertsLeaveCache(m, capacity, ops);
      } else {
        InsertsFirstAgree(m, capacity, ops[..|ops| - 1], last.key);
        var s := Run(m, capacity, Init<R, T>(), ops[..|ops| - 1]);
        ResolveStep(m, s.routes, s.cache, capacity, last.key);
      }
    }
  }

  /** A miss remembered before its route is registered hides the route afterwards. */
  lemma {:induction false} StaleMiss<R(!new), T(!new)>(m: Matcher<R, T>, capacity: nat, verb: string, path: string, h: T)
    requires Lawful(m) && capacity >= 1
    requires m.insert(m.empty, path, h).Some? && m.at(m.insert(m.empty, path, h).value, path).Some?
    ensures var k := Key(verb, path);
            var s := Run(m, capacity, Init<R, T>(), [Lookup(k), Insert(verb, path, h)]);
            Resolve(m, s.routes, s.cache, capacity, k).1 == NotFound && Raw(m, s.routes, k).Ok?
  {
    var k := Key(verb, path);
    var ops: seq<Op<T>> := [Lookup(k), Insert(verb, path, h)];
    assert ops[..1] == [Lookup(k)];
    var first: seq<Op<T>> := [Lookup(k)];
    assert first[..0] == [];
    var s0 := Init<R, T>();
    assert Raw(m, s0.routes, k) == NotFound;
    var s1 := Run(m, capacity, s0, first);
    assert Run(m, capacity, s0, first[..0]) == s0;
    assert s1 == Step(m, capacity, s0, Lookup(k));
    assert k in s1.cache.entries && s1.cache.entries[k] == Missing;
  }

  // ------------------------------------------------------------------
  // The objects
  // ------------------------------------------------------------------

  class SharedCache<T> {
    var entries: map<Key, Entry<T>>
    var order: seq<Key>
    const capacity: nat

    function View(): Cache<T>
      reads this
    {
      Cache(entries, order)
    }

    constructor (capacity: nat)
      ensures View() == Cache(map[], []) && this.capacity == if capacity == 0 then 1 else capacity
    {
      entries, order := map[], [];
      this.capacity := if capacity == 0 then 1 else capacity;
    }

    method Insert(k: Key, e: Entry<T>)
      modifies this
      ensures View() == Store(old(View()), capacity, k, e)
    {
      if k !in entries {
        order := order + [k];
        if |order| > capacity && order != [] {
          entries := entries - {order[0]};
          order := order[1..];
        }
      }
      entries := entries[k := e];
    }
  }

  class Router<R, T> {
    const m: Matcher<R, T>
    var routes: Routes<R>
    const cache: SharedCache<T>

    constructor (m: Matcher<R, T>, cache: SharedCache<T>)
      ensures this.m == m && this.cache == cache && routes == map[]
    {
      this.m, this.cache, routes := m, cache, map[];
    }

    method Insert(verb: string, path: string, h: T) returns (ok: bool)
      modifies this
      ensures routes == Register(m, old(routes), verb, path, h)
      ensures ok <==> m.insert(TableOf(m, old(routes), verb), path, h).Some?
    {
      var table := if verb in routes then routes[verb] else m.empty;
      var inserted := m.insert(table, path, h);
      ok := inserted.Some?;
      routes := routes[verb := if ok then inserted.value else table];
      if ok && verb == "GET" {
        var head := if "HEAD" in routes then routes["HEAD"] else m.empty;
        var also := m.insert(head, path, h);
        routes := routes["HEAD" := if also.Some? then also.value else head];
      }
    }

    method Lookup(k: Key) returns (res: Resolution<T>)
      modifies cache
      ensures (cache.View(), res) == Resolve(m, routes, old(cache.View()), cache.capacity, k)
    {
      if k in cache.entries {
        return Answer(cache.entries[k]);
      }
      res := Raw(m, routes, k);
      if res.Ok? && res.found.params == [] {
        cache.Insert(k, Hit(res.found));
      } else if res.NotFound? {
        cache.Insert(k, Missing);
      }
    }

    /** The derived clone copies the tables and shares the cache. */
    method Clone() returns (r: Router<R, T>)
      ensures fresh(r) && r.m == m && r.routes == routes && r.cache == cache
    {
      r := new Router<R, T>(m, cache);
      r.routes := routes;
    }
  }
}
