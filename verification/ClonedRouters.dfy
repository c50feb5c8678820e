/** Cloned routers (`crates/justapi-core/src/router.rs`): a clone copies the route tables
    and shares the cache, so any number of routers, each with its own routes, answer from
    one memory. */
module ClonedRouters {
  import opened Prelude
  import opened RouteCache

  /** The tables of every router and the cache they share. */
  datatype Family<R, T> = Family(tables: seq<Routes<R>>, cache: Cache<T>)

  /** `who` registers a route, resolves a key, or is cloned. */
  datatype Act<+T> =
    | Add(who: nat, verb: string, path: string, handler: T)
    | Ask(who: nat, key: Key)
    | Copy(who: nat)

  /** An act of a router that does not exist changes nothing. */
  function Do<R, T>(m: Matcher<R, T>, capacity: nat, f: Family<R, T>, act: Act<T>): Family<R, T> {
    if act.who >= |f.tables| then f
    else
      var routes := f.tables[act.who];
      match act
      case Add(who, verb, path, h) => f.(tables := f.tables[who := Register(m, routes, verb, path, h)])
      case Ask(_, k) => f.(cache := Resolve(m, routes, f.cache, capacity, k).0)
      case Copy(_) => f.(tables := f.tables + [routes])
  }

  /** The states of a run from any routers with an empty cache, first and last included. */
  ghost predicate IsRun<R, T>(m: Matcher<R, T>, capacity: nat, acts: seq<Act<T>>, tr: seq<Family<R, T>>) {
    && |tr| == |acts| + 1 && tr[0].cache == Cache(map[], [])
    && forall n :: 0 <= n < |acts| ==> tr[n + 1] == Do(m, capacity, tr[n], acts[n])
  }

  /** Every sequence of acts is a run from every such start. */
  lemma {:induction false} RunExists<R, T>(
    m: Matcher<R, T>, capacity: nat, start: seq<Routes<R>>, acts: seq<Act<T>>)
    returns (tr: seq<Family<R, T>>)
    ensures IsRun(m, capacity, acts, tr) && tr[0].tables == start
  {
    if acts == [] {
      tr := [Family(start, Cache(map[], []))];
    } else {
      var init, last := acts[..|acts| - 1], acts[|acts| - 1];
      var before := RunExists(m, capacity, start, init);
      tr := before + [Do(m, capacity, before[|init|], last)];
      forall n | 0 <= n < |acts|
        ensures tr[n + 1] == Do(m, capacity, tr[n], acts[n])
      {
        if n < |init| {
          assert before[n + 1] == Do(m, capacity, before[n], init[n]);
        }
      }
    }
  }

  ghost predicate AsksFor<R, T>(f: Family<R, T>, act: Act<T>, k: Key) {
    act.Ask? && act.key == k && act.who < |f.tables|
  }

  /** Step `n` was a look-up of `k`, by any router, that found no entry; there has been one
      ever since. */
  ghost predicate EnteredBy<R, T>(acts: seq<Act<T>>, tr: seq<Family<R, T>>, k: Key, n: int)
    requires |tr| == |acts| + 1
  {
    && 0 <= n < |acts| && AsksFor(tr[n], acts[n], k) && k !in tr[n].cache.entries
    && forall j :: n < j <= |acts| ==> k in tr[j].cache.entries
  }

  ghost function Entries<R, T>(tr: seq<Family<R, T>>, k: Key): (r: seq<Option<Entry<T>>>)
    ensures |r| == |tr|
  {
    seq(|tr|, i requires 0 <= i < |tr| => EntryOf(tr[i].cache, k))
  }

  ghost function Said<R, T>(m: Matcher<R, T>, f: Family<R, T>, act: Act<T>, k: Key): Option<Resolution<T>> {
    if AsksFor(f, act, k) then Some(Raw(m, f.tables[act.who], k)) else None
  }

  ghost function Asked<R, T>(m: Matcher<R, T>, acts: seq<Act<T>>, tr: seq<Family<R, T>>, k: Key)
    : (r: seq<Option<Resolution<T>>>)
    requires |tr| == |acts| + 1
    ensures |r| == |acts|
  {
    seq(|acts|, i requires 0 <= i < |acts| => Said(m, tr[i], acts[i], k))
  }

  /** One act: the entry of a key stays, goes, or is entered by a look-up of that key. */
  lemma {:induction false} DoEntry<R, T>(m: Matcher<R, T>, capacity: nat, f: Family<R, T>, act: Act<T>, k: Key)
    requires CacheOk(f.cache, capacity) && capacity >= 1
    ensures var c := Do(m, capacity, f, act).cache;
            && CacheOk(c, capacity)
            && (EntryOf(c, k).Some? ==>
                  if EntryOf(f.cache, k).Some? then EntryOf(c, k) == EntryOf(f.cache, k)
                  else Said(m, f, act, k) == Some(Answer(c.entries[k])))
  {
    if act.Ask? && act.who < |f.tables| {
      EntryStep(m, f.tables[act.who], f.cache, capacity, act.key, k);
    }
  }

  lemma {:induction false} ShapeKept<R, T>(
    m: Matcher<R, T>, capacity: nat, acts: seq<Act<T>>, tr: seq<Family<R, T>>, n: nat)
    requires capacity >= 1 && IsRun(m, capacity, acts, tr) && n <= |acts|
    ensures CacheOk(tr[n].cache, capacity)
  {
    if n > 0 {
      var i := n - 1;
      ShapeKept(m, capacity, acts, tr, i);
      assert tr[i + 1] == Do(m, capacity, tr[i], acts[i]);
      DoEntry(m, capacity, tr[i], acts[i], Key("", ""));
    }
  }

  lemma {:induction false} RunProvenance<R, T>(
    m: Matcher<R, T>, capacity: nat, acts: seq<Act<T>>, tr: seq<Family<R, T>>, k: Key)
    requires capacity >= 1 && IsRun(m, capacity, acts, tr)
    ensures Provenance(Entries(tr, k), Asked(m, acts, tr, k))
  {
    var entries, asked := Entries(tr, k), Asked(m, acts, tr, k);
    forall j | 0 <= j < |acts| && entries[j + 1].Some?
      ensures if entries[j].Some? then entries[j + 1] == entries[j]
              else asked[j] == Some(Answer(entries[j + 1].value))
    {
      ShapeKept(m, capacity, acts, tr, j);
      assert tr[j + 1] == Do(m, capacity, tr[j], acts[j]);
      DoEntry(m, capacity, tr[j], acts[j], k);
    }
  }

  lemma {:induction false} EnteredAgrees<R, T>(m: Matcher<R, T>, acts: seq<Act<T>>, tr: seq<Family<R, T>>, k: Key, n: int)
    requires |tr| == |acts| + 1
    ensures EnteredBy(acts, tr, k, n) <==> EnteredAt(Entries(tr, k), Asked(m, acts, tr, k), n)
  {
    var entries, asked := Entries(tr, k), Asked(m, acts, tr, k);
    assert forall j :: 0 <= j < |tr| ==> entries[j] == EntryOf(tr[j].cache, k);
    if EnteredAt(entries, asked, n) {
      assert asked[n] == Said(m, tr[n], acts[n], k);
      forall j | n < j <= |acts|
        ensures k in tr[j].cache.entries
      {
        assert entries[j].Some?;
      }
    }
  }

  /** What `n` entered is not what `who` would say now. */
  ghost predicate Contradicts<R, T>(
    m: Matcher<R, T>, acts: seq<Act<T>>, tr: seq<Family<R, T>>, k: Key, n: int, now: Resolution<T>)
    requires |tr| == |acts| + 1
  {
    EnteredBy(acts, tr, k, n) && Raw(m, tr[n].tables[acts[n].who], k) != now
  }

  /** Over every run of any number of routers on one cache: a resolve differs from what the
      router's own tables say exactly when some earlier look-up of the key, by whichever
      router, entered another answer and the key has stayed in the cache since. */
  lemma {:induction false} SharedCacheExactly<R, T>(
    m: Matcher<R, T>, capacity: nat, acts: seq<Act<T>>, tr: seq<Family<R, T>>, who: nat, k: Key)
    requires capacity >= 1 && IsRun(m, capacity, acts, tr) && who < |tr[|acts|].tables|
    ensures var f := tr[|acts|];
            var own := Raw(m, f.tables[who], k);
            Resolve(m, f.tables[who], f.cache, capacity, k).1 != own <==>
            exists n :: Contradicts(m, acts, tr, k, n, own)
  {
    var f, entries, asked := tr[|acts|], Entries(tr, k), Asked(m, acts, tr, k);
    var own := Raw(m, f.tables[who], k);
    RunProvenance(m, capacity, acts, tr, k);
    EntryOrigin(entries, asked);
    assert entries[|acts|] == EntryOf(f.cache, k);
    if k in f.cache.entries {
      var n :| EnteredAt(entries, asked, n);
      EnteredAgrees(m, acts, tr, k, n);
      assert asked[n] == Said(m, tr[n], acts[n], k);
      assert Answer(f.cache.entries[k]) != own ==> Contradicts(m, acts, tr, k, n, own);
    }
    if n :| Contradicts(m, acts, tr, k, n, own) {
      EnteredAgrees(m, acts, tr, k, n);
      assert asked[n] == Said(m, tr[n], acts[n], k);
    }
  }

  /** A clone starts with the tables of its original; from then on each registers for itself. */
  lemma {:induction false} CopiesTables<R, T>(
    m: Matcher<R, T>, capacity: nat, f: Family<R, T>, who: nat, verb: string, path: string, h: T)
    requires who < |f.tables|
    ensures var g := Do(m, capacity, f, Copy(who));
            && |g.tables| == |f.tables| + 1 && g.cache == f.cache
            && (forall i :: 0 <= i < |f.tables| ==> g.tables[i] == f.tables[i])
            && g.tables[|f.tables|] == f.tables[who]
            && var added := Do(m, capacity, g, Add(|f.tables|, verb, path, h));
               && added.cache == f.cache && added.tables[who] == f.tables[who]
               && added.tables[|f.tables|] == Register(m, f.tables[who], verb, path, h)
  {
  }

  /** Cloning alone is enough: the original resolves a path before the clone registers it,
      and the clone never sees its own route. */
  lemma {:induction false} CloneHidesRoute<R, T>(
    m: Matcher<R, T>, capacity: nat, verb: string, path: string, h: T)
    requires capacity >= 1
    requires m.insert(m.empty, path, h).Some? && m.at(m.insert(m.empty, path, h).value, path).Some?
    ensures var k := Key(verb, path);
            exists tr: seq<Family<R, T>> ::
              && IsRun(m, capacity, [Copy(0), Ask(0, k), Add(1, verb, path, h)], tr)
              && tr[0].tables == [map[]] && |tr[3].tables| == 2
              && Resolve(m, tr[3].tables[1], tr[3].cache, capacity, k).1 == NotFound
              && Raw(m, tr[3].tables[1], k).Ok?
  {
    var k := Key(verb, path);
    var none: Routes<R>, empty: Cache<T> := map[], Cache(map[], []);
    var warmed := Resolve(m, none, empty, capacity, k).0;
    assert Raw(m, none, k) == NotFound;
    StoreOk(empty, capacity, k, Missing);
    var mine := Register(m, none, verb, path, h);
    var tr: seq<Family<R, T>> := [Family([none], empty), Family([none, none], empty),
                                  Family([none, none], warmed), Family([none, mine], warmed)];
    var acts: seq<Act<T>> := [Copy(0), Ask(0, k), Add(1, verb, path, h)];
    assert tr[1] == Do(m, capacity, tr[0], acts[0]) && tr[2] == Do(m, capacity, tr[1], acts[1]);
    assert tr[3] == Do(m, capacity, tr[2], acts[2]);
    assert IsRun(m, capacity, acts, tr);
  }
}
