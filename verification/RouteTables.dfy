/** What a router answers, said without its tables: over runs of registrations, for tables
    of static routes with a catch-all (`crates/justapi-core/src/router.rs`). */
module RouteTables {
  import opened Prelude
  import opened RouteCache

  /** A route put forward for a method: each registration offers its own, and a GET offers
      the same route to HEAD as well. */
  datatype Offer<+T> = Offer(verb: string, path: string, handler: T)

  function OffersOf<T>(op: Op<T>): seq<Offer<T>> {
    match op
    case Lookup(_) => []
    case Insert(verb, path, h) =>
      [Offer(verb, path, h)] + if verb == "GET" then [Offer("HEAD", path, h)] else []
  }

  function Offers<T>(ops: seq<Op<T>>): seq<Offer<T>> {
    if ops == [] then [] else Offers(ops[..|ops| - 1]) + OffersOf(ops[|ops| - 1])
  }

  /** The handler of the first offer for a method and path: later ones conflict with it. */
  function First<T>(offers: seq<Offer<T>>, verb: string, path: string): Option<T> {
    if offers == [] then None
    else
      var earlier := First(offers[..|offers| - 1], verb, path);
      var last := offers[|offers| - 1];
      if earlier.Some? then earlier
      else if last.verb == verb && last.path == path then Some(last.handler)
      else None
  }

  /** The route a method has for a path: the static one, else the catch-all. */
  function Route<T>(offers: seq<Offer<T>>, verb: string, path: string): Option<Match<T>> {
    var fixed := if path == CATCH_ALL then None else First(offers, verb, path);
    if fixed.Some? then Some(Match(fixed.value, []))
    else
      var rest := First(offers, verb, CATCH_ALL);
      if rest.Some? then Some(Match(rest.value, [Param("rest", path)])) else None
  }

  /** The answer: the method's own route; or, if it has none, whether another method does. */
  ghost function Served<T>(offers: seq<Offer<T>>, k: Key): Resolution<T> {
    var own := Route(offers, k.verb, k.path);
    if own.Some? then Ok(own.value)
    else if exists verb :: verb != k.verb && Route(offers, verb, k.path).Some? then MethodNotAllowed
    else NotFound
  }

  // ------------------------------------------------------------------
  // Tables and offers
  // ------------------------------------------------------------------

  /** The handler a table holds for exactly this path. */
  function Slot<T>(r: Table<T>, path: string): Option<T> {
    if path == CATCH_ALL then r.catchAll else if path in r.statics then Some(r.statics[path]) else None
  }

  function Held<T>(routes: Routes<Table<T>>, verb: string, path: string): Option<T> {
    Slot(TableOf(TableMatcher<T>(), routes, verb), path)
  }

  ghost predicate NoCatchAllStatic<T>(routes: Routes<Table<T>>) {
    forall verb :: verb in routes ==> CATCH_ALL !in routes[verb].statics
  }

  /** The tables hold the first offer of every method and path. */
  ghost predicate Mirrors<T>(routes: Routes<Table<T>>, offers: seq<Offer<T>>) {
    NoCatchAllStatic(routes) && forall verb, path :: Held(routes, verb, path) == First(offers, verb, path)
  }

  lemma {:induction false} SlotInsert<T>(r: Table<T>, path: string, h: T, other: string)
    ensures var r' := TableInsert(r, path, h);
            && (r'.Some? <==> Slot(r, path).None?)
            && (r'.Some? ==> Slot(r'.value, other) == if other == path then Some(h) else Slot(r, other))
            && (r'.Some? && CATCH_ALL !in r.statics ==> CATCH_ALL !in r'.value.statics)
  {
  }

  /** One offer: it is taken if the place is free. */
  lemma {:induction false} AddHolds<T>(routes: Routes<Table<T>>, verb: string, path: string, h: T, v: string, p: string)
    ensures var routes' := AddTo(TableMatcher<T>(), routes, verb, path, h);
            Held(routes', v, p) ==
            if Held(routes, v, p).Some? then Held(routes, v, p)
            else if v == verb && p == path then Some(h)
            else None
  {
    var m := TableMatcher<T>();
    var r := TableOf(m, routes, verb);
    assert m.insert(r, path, h) == TableInsert(r, path, h);
    SlotInsert(r, path, h, p);
  }

  lemma {:induction false} AddClean<T>(routes: Routes<Table<T>>, verb: string, path: string, h: T)
    requires NoCatchAllStatic(routes)
    ensures NoCatchAllStatic(AddTo(TableMatcher<T>(), routes, verb, path, h))
  {
    var m := TableMatcher<T>();
    var r := TableOf(m, routes, verb);
    assert m.insert(r, path, h) == TableInsert(r, path, h);
    SlotInsert(r, path, h, CATCH_ALL);
  }

  lemma {:induction false} FirstSnoc<T>(offers: seq<Offer<T>>, o: Offer<T>, verb: string, path: string)
    ensures First(offers + [o], verb, path) ==
            if First(offers, verb, path).Some? then First(offers, verb, path)
            else if o.verb == verb && o.path == path then Some(o.handler)
            else None
  {
    assert (offers + [o])[..|offers|] == offers;
  }

  lemma {:induction false} AddMirrors<T>(routes: Routes<Table<T>>, offers: seq<Offer<T>>, o: Offer<T>)
    requires Mirrors(routes, offers)
    ensures Mirrors(AddTo(TableMatcher<T>(), routes, o.verb, o.path, o.handler), offers + [o])
  {
    AddClean(routes, o.verb, o.path, o.handler);
    forall verb, path
      ensures Held(AddTo(TableMatcher<T>(), routes, o.verb, o.path, o.handler), verb, path) ==
              First(offers + [o], verb, path)
    {
      AddHolds(routes, o.verb, o.path, o.handler, verb, path);
      FirstSnoc(offers, o, verb, path);
      assert Held(routes, verb, path) == First(offers, verb, path);
    }
  }

  /** An offer for a place that is taken changes nothing. */
  lemma {:induction false} TakenStays<T>(routes: Routes<Table<T>>, offers: seq<Offer<T>>, o: Offer<T>)
    requires Mirrors(routes, offers) && First(offers, o.verb, o.path).Some?
    ensures Mirrors(routes, offers + [o])
  {
    forall verb, path
      ensures Held(routes, verb, path) == First(offers + [o], verb, path)
    {
      FirstSnoc(offers, o, verb, path);
      assert Held(routes, verb, path) == First(offers, verb, path);
    }
  }

  /** Whatever GET has, HEAD has a route for too. */
  lemma {:induction false} HeadFollows<T>(ops: seq<Op<T>>, path: string)
    requires First(Offers(ops), "GET", path).Some?
    ensures First(Offers(ops), "HEAD", path).Some?
  {
    var n := |ops| - 1;
    var earlier, op := Offers(ops[..n]), ops[n];
    if First(earlier, "GET", path).Some? {
      HeadFollows(ops[..n], path);
    }
    if op.Insert? {
      var o := Offer(op.verb, op.path, op.handler);
      FirstSnoc(earlier, o, "GET", path);
      FirstSnoc(earlier, o, "HEAD", path);
      if op.verb == "GET" {
        var twin := Offer("HEAD", op.path, op.handler);
        assert Offers(ops) == (earlier + [o]) + [twin];
        FirstSnoc(earlier + [o], twin, "GET", path);
        FirstSnoc(earlier + [o], twin, "HEAD", path);
      } else {
        assert Offers(ops) == earlier + [o];
      }
    } else {
      assert Offers(ops) == earlier;
    }
  }

  lemma {:induction false} RegisterMirrors<T>(routes: Routes<Table<T>>, earlier: seq<Op<T>>, op: Op<T>)
    requires op.Insert? && Mirrors(routes, Offers(earlier))
    ensures Mirrors(Register(TableMatcher<T>(), routes, op.verb, op.path, op.handler), Offers(earlier) + OffersOf(op))
  {
    var m, offers := TableMatcher<T>(), Offers(earlier);
    var o := Offer(op.verb, op.path, op.handler);
    var added := AddTo(m, routes, op.verb, op.path, op.handler);
    AddMirrors(routes, offers, o);
    if op.verb == "GET" {
      var twin := Offer("HEAD", op.path, op.handler);
      assert offers + OffersOf(op) == (offers + [o]) + [twin];
      var r := TableOf(m, routes, op.verb);
      assert m.insert(r, op.path, op.handler) == TableInsert(r, op.path, op.handler);
      SlotInsert(r, op.path, op.handler, op.path);
      if Held(routes, "GET", op.path).Some? {
        HeadFollows(earlier, op.path);
        FirstSnoc(offers, o, "HEAD", op.path);
        TakenStays(added, offers + [o], twin);
      } else {
        AddMirrors(added, offers + [o], twin);
      }
    } else {
      assert offers + OffersOf(op) == offers + [o];
    }
  }

  /** Along every run the tables hold exactly the first offers. */
  lemma {:induction false} RunMirrors<T>(capacity: nat, ops: seq<Op<T>>)
    ensures Mirrors(Run(TableMatcher<T>(), capacity, Init<Table<T>, T>(), ops).routes, Offers(ops))
  {
    if ops != [] {
      var n := |ops| - 1;
      var s := Run(TableMatcher<T>(), capacity, Init<Table<T>, T>(), ops[..n]);
      RunMirrors(capacity, ops[..n]);
      if ops[n].Insert? {
        RegisterMirrors(s.routes, ops[..n], ops[n]);
      } else {
        assert Offers(ops) == Offers(ops[..n]);
      }
    }
  }

  // ------------------------------------------------------------------
  // Answers
  // ------------------------------------------------------------------

  lemma {:induction false} MatchesRoute<T>(routes: Routes<Table<T>>, offers: seq<Offer<T>>, verb: string, path: string)
    requires Mirrors(routes, offers)
    ensures Matches(TableMatcher<T>(), routes, verb, path) <==> Route(offers, verb, path).Some?
    ensures Matches(TableMatcher<T>(), routes, verb, path) ==>
              TableMatcher<T>().at(routes[verb], path) == Route(offers, verb, path)
  {
    var m := TableMatcher<T>();
    var r := TableOf(m, routes, verb);
    assert m.at(r, path) == TableAt(r, path);
    assert Held(routes, verb, path) == First(offers, verb, path);
    assert Held(routes, verb, CATCH_ALL) == First(offers, verb, CATCH_ALL);
  }

  lemma {:induction false} RawServes<T>(routes: Routes<Table<T>>, offers: seq<Offer<T>>, k: Key)
    requires Mirrors(routes, offers)
    ensures Raw(TableMatcher<T>(), routes, k) == Served(offers, k)
  {
    var m := TableMatcher<T>();
    forall verb
      ensures Matches(m, routes, verb, k.path) <==> Route(offers, verb, k.path).Some?
    {
      MatchesRoute(routes, offers, verb, k.path);
    }
    MatchesRoute(routes, offers, k.verb, k.path);
    if verb :| verb != k.verb && Route(offers, verb, k.path).Some? {
      assert verb in routes && Matches(m, routes, verb, k.path);
    }
  }

  /** Whatever is registered before the first look-up, every look-up of the run returns the
      handler first registered for the method and path, a GET counting for HEAD as well; if
      the method has no route, `MethodNotAllowed` exactly when another method has one. */
  lemma {:induction false} AnswersFirstRegistered<T>(capacity: nat, ops: seq<Op<T>>, k: Key)
    requires capacity >= 1 && InsertsFirst(ops)
    ensures var s := Run(TableMatcher<T>(), capacity, Init<Table<T>, T>(), ops);
            Resolve(TableMatcher<T>(), s.routes, s.cache, capacity, k).1 == Served(Offers(ops), k)
  {
    var s := Run(TableMatcher<T>(), capacity, Init<Table<T>, T>(), ops);
    InsertsFirstAgree(TableMatcher<T>(), capacity, ops, k);
    RunMirrors(capacity, ops);
    RawServes(s.routes, Offers(ops), k);
  }

  /** A path registered for POST only, looked up with GET: refused by method, and not
      remembered. */
  lemma {:induction false} WrongMethod<T>(capacity: nat, path: string, h: T)
    requires capacity >= 1 && path != CATCH_ALL
    ensures var s := Run(TableMatcher<T>(), capacity, Init<Table<T>, T>(), [Insert("POST", path, h)]);
            Resolve(TableMatcher<T>(), s.routes, s.cache, capacity, Key("GET", path)) == (s.cache, MethodNotAllowed)
  {
    var ops: seq<Op<T>> := [Insert("POST", path, h)];
    var s := Run(TableMatcher<T>(), capacity, Init<Table<T>, T>(), ops);
    assert ops[..0] == [];
    InsertsLeaveCache<Table<T>, T>(TableMatcher<T>(), capacity, ops);
    AnswersFirstRegistered(capacity, ops, Key("GET", path));
    var o := Offer("POST", path, h);
    assert Offers(ops) == [o] && [o] == [] + [o];
    FirstSnoc([], o, "GET", path);
    FirstSnoc([], o, "GET", CATCH_ALL);
    FirstSnoc([], o, "POST", path);
    assert Route(Offers(ops), "POST", path).Some?;
  }
}
