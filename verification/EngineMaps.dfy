/**
 The per-org engines of the copier and the symbol maps they share: an org's symbol map is one
 mutable object, held both by the app's table and by the org's state tracker, and refilled in
 place. Object identity is explicit: a `Ref` names a symbol map, `store` holds the contents.
 */
module EngineMaps {
  import opened Base

  type Ref = nat
  type Org = nat
  type Account = nat
  type Symbols = map<nat, nat>

  datatype Tracker = Tracker(master: Account, symbols: Ref)

  // What a reload finds of one routed org: its master, whether that account is in the list just
  // loaded, the master's cached symbols, and whether some connection can serve quotes.
  datatype Route = Route(master: Account, known: bool, cached: Symbols, client: bool)

  class Engines {
    var symbols: map<Org, Ref>
    var trackers: map<Org, Option<Tracker>>
    var reconcilers: map<Org, Account>
    var store: map<Ref, Symbols>
    var next: Ref

    /** ALIASING: a live tracker holds the very map the app's table holds for its org, and no two
        orgs share one. */
    ghost predicate Valid()
      reads this
    {
      && (forall o | o in symbols :: symbols[o] in store)
      && (forall o, p | o in symbols && p in symbols && symbols[o] == symbols[p] :: o == p)
      && (forall o | o in trackers && trackers[o].Some? :: o in symbols && trackers[o].value.symbols == symbols[o])
      && (forall r | r in store :: r < next)
    }

    /** What the org's table entry, and so its tracker, shows. */
    function Shown(o: Org): Option<Symbols>
      reads this
    {
      if o in symbols && symbols[o] in store then Some(store[symbols[o]]) else None
    }

    /** The org has engines for this master, showing these symbols. */
    ghost predicate Serves(o: Org, r: Route, shown: Symbols)
      reads this
    {
      && Shown(o) == Some(shown)
      && o in reconcilers && reconcilers[o] == r.master
      && o in trackers && (trackers[o].Some? ==> trackers[o].value.master == r.master)
      && (r.client ==> trackers[o].Some?)
    }

    /** The org has a live tracker of this master. */
    predicate Tracks(o: Org, master: Account)
      reads this
    {
      o in trackers && trackers[o].Some? && trackers[o].value.master == master
    }

    predicate Names(o: Org, master: Account)
      reads this
    {
      o in reconcilers && reconcilers[o] == master
    }

    /** The org is served, with a live tracker exactly when some connection can serve it or one was there. */
    twostate predicate Reloaded(o: Org, r: Route)
      reads this
    {
      Serves(o, r, r.cached) && (Tracks(o, r.master) <==> r.client || old(Tracks(o, r.master)))
    }

    /** Outside `orgs` every engine is the same object showing the same symbols. */
    twostate predicate OnlyTouches(orgs: set<Org>)
      reads this
    {
      forall o | o !in orgs ::
        && (o in symbols <==> o in old(symbols)) && (o in symbols ==> symbols[o] == old(symbols)[o])
        && (o in trackers <==> o in old(trackers)) && (o in trackers ==> trackers[o] == old(trackers)[o])
        && (o in reconcilers <==> o in old(reconcilers)) && (o in reconcilers ==> reconcilers[o] == old(reconcilers)[o])
        && Shown(o) == old(Shown(o))
    }

    /** The table entry for an org, created when missing. */
    method SetDefault(o: Org)
      requires Valid()
      modifies this`symbols, this`store, this`next
      ensures Valid() && o in symbols
      ensures o in old(symbols) ==> symbols == old(symbols) && store == old(store)
      ensures o !in old(symbols) ==> Shown(o) == Some(map[])
      ensures OnlyTouches({o})
    {
      if o !in symbols {
        store := store[next := map[]];
        symbols := symbols[o := next];
        next := next + 1;
      }
    }

    /** A broker fetch or a terminal's hello refills a master's map: cleared and updated in place. */
    method Fill(o: Org, entries: Symbols)
      requires Valid()
      modifies this`symbols, this`store, this`next
      ensures Valid() && Shown(o) == Some(entries)
      ensures o in old(symbols) ==> symbols == old(symbols)
      ensures OnlyTouches({o})
    {
      SetDefault(o);
      var cleared: Symbols := map[];
      assert cleared + entries == entries;
      store := store[symbols[o] := cleared + entries];
    }

    method SetTracker(o: Org, r: Route)
      requires Valid() && o in symbols
      modifies this`trackers
      ensures Valid() && o in trackers && trackers == old(trackers)[o := trackers[o]]
      // A tracker of this master is left alone; any other is replaced, by none if nothing can serve it.
      ensures old(Tracks(o, r.master)) ==> trackers == old(trackers)
      ensures !old(Tracks(o, r.master)) ==>
                trackers[o] == if r.client then Some(Tracker(r.master, symbols[o])) else None
    {
      if o !in trackers || trackers[o].None? || trackers[o].value.master != r.master {
        trackers := trackers[o := if r.client then Some(Tracker(r.master, symbols[o])) else None];
      }
    }

    /** One routed org of a reload whose master account was loaded. */
    method ReloadOrg(o: Org, r: Route)
      requires Valid()
      modifies this
      ensures Valid() && Reloaded(o, r)
      ensures OnlyTouches({o})
    {
      Fill(o, r.cached);
      reconcilers := reconcilers[o := r.master];
      SetTracker(o, r);
    }

    constructor ()
      ensures Valid() && symbols == map[] && trackers == map[] && reconcilers == map[]
    {
      symbols, trackers, reconcilers, store, next := map[], map[], map[], map[], 0;
    }

    /** Build: engines for every routed org, with symbol maps still empty. */
    method Build(routes: map<Org, Route>)
      requires Valid() && symbols == map[] && trackers == map[] && reconcilers == map[]
      modifies this
      ensures Valid()
      ensures forall o :: o in symbols || o in trackers || o in reconcilers ==> o in routes
      ensures forall o | o in routes :: Serves(o, routes[o], map[])
    {
      var todo := routes.Keys;
      while todo != {}
        invariant Valid() && todo <= routes.Keys
        invariant forall o :: o in symbols || o in trackers || o in reconcilers ==> o in routes && o !in todo
        invariant forall o | o in routes && o !in todo :: Serves(o, routes[o], map[])
        decreases todo
      {
        var o :| o in todo;
        todo := todo - {o};
        BuildOrg(o, routes[o]);
      }
    }

    method BuildOrg(o: Org, r: Route)
      requires Valid() && o !in symbols
      modifies this
      ensures Valid() && Serves(o, r, map[])
      ensures OnlyTouches({o})
    {
      SetDefault(o);
      reconcilers := reconcilers[o := r.master];
      SetTracker(o, r);
    }

    /**
     RELOAD, from any valid state: aliasing survives; afterwards no table has an org without a
     master, and every org whose master account was loaded has engines naming that master and
     showing its cache. An org whose master account was not loaded, because it was added while the
     reload yielded, keeps what it had: the org's reconciler names the routed master if and only if
     that account was loaded or the reconciler named it before.
     */
    method Reload(routes: map<Org, Route>)
      requires Valid()
      modifies this
      ensures Valid()
      ensures symbols.Keys <= routes.Keys && trackers.Keys <= routes.Keys && reconcilers.Keys <= routes.Keys
      ensures forall o | o in routes && routes[o].known :: Reloaded(o, routes[o])
      ensures forall o | o in routes && !routes[o].known ::
                && Shown(o) == old(Shown(o))
                && (o in symbols ==> o in old(symbols) && symbols[o] == old(symbols)[o])
                && (o in trackers <==> o in old(trackers)) && (o in trackers ==> trackers[o] == old(trackers)[o])
                && (o in reconcilers <==> o in old(reconcilers))
                && (o in reconcilers ==> reconcilers[o] == old(reconcilers)[o])
      ensures forall o | o in routes ::
                Names(o, routes[o].master) <==> routes[o].known || old(Names(o, routes[o].master))
    {
      RefreshAll(routes);
      Retire(routes.Keys);
    }

    method RefreshAll(routes: map<Org, Route>)
      requires Valid()
      modifies this
      ensures Valid()
      ensures forall o | o in routes && routes[o].known :: Reloaded(o, routes[o])
      ensures OnlyTouches(Known(routes))
    {
      var todo := Known(routes);
      while todo != {}
        invariant Valid() && todo <= Known(routes)
        invariant forall o | o in Known(routes) && o !in todo :: Reloaded(o, routes[o])
        invariant OnlyTouches(Known(routes) - todo)
        decreases todo
      {
        var o :| o in todo;
        todo := todo - {o};
        ReloadOrg(o, routes[o]);
      }
    }

    /** Orgs that lost their master lose their engines. */
    method Retire(live: set<Org>)
      requires Valid()
      modifies this`symbols, this`trackers, this`reconcilers
      ensures Valid()
      ensures symbols.Keys == old(symbols.Keys) * live && trackers.Keys == old(trackers.Keys) * live
      ensures reconcilers.Keys == old(reconcilers.Keys) * live
      ensures forall o | o in symbols :: symbols[o] == old(symbols)[o]
      ensures forall o | o in trackers :: trackers[o] == old(trackers)[o]
      ensures forall o | o in reconcilers :: reconcilers[o] == old(reconcilers)[o]
    {
      symbols := map o | o in symbols && o in live :: symbols[o];
      trackers := map o | o in trackers && o in live :: trackers[o];
      reconcilers := map o | o in reconcilers && o in live :: reconcilers[o];
    }
  }

  function Known(routes: map<Org, Route>): set<Org> {
    set o | o in routes && routes[o].known
  }
}
