/**
 Where session ids come from and what they are good for: a counter shared by all servers of
 the process, drawn from in two atomic steps, and a map from which entries are removed in two
 locked steps.
 */
module SessionIds {
  import opened Wrappers

  // ----- drawing ids -----

  // `added`: between `fetch_add` and `load`.
  datatype Server = Server(added: bool, drawn: seq<int>)

  datatype Counter = Counter(value: int, servers: seq<Server>)

  function Init(n: nat): Counter {
    Counter(0, seq(n, _ => Server(false, [])))
  }

  // Server `i` makes its next atomic step.
  function Draw(c: Counter, i: nat): Counter {
    if i >= |c.servers| then c
    else if !c.servers[i].added then
      Counter(c.value + 1, c.servers[i := c.servers[i].(added := true)])
    else
      Counter(c.value, c.servers[i := Server(false, c.servers[i].drawn + [c.value])])
  }

  function DrawAll(c: Counter, schedule: seq<nat>): Counter
    decreases schedule
  {
    if schedule == [] then c else DrawAll(Draw(c, schedule[0]), schedule[1..])
  }

  predicate Increasing(ids: seq<int>) {
    forall a, b :: 0 <= a < b < |ids| ==> ids[a] < ids[b]
  }

  predicate Inv(c: Counter) {
    forall i :: 0 <= i < |c.servers| ==>
      Increasing(c.servers[i].drawn) &&
      forall k :: 0 <= k < |c.servers[i].drawn| ==>
        0 < c.servers[i].drawn[k] <= c.value && (c.servers[i].added ==> c.servers[i].drawn[k] < c.value)
  }

  lemma {:induction false} DrawAllKeepsInv(c: Counter, schedule: seq<nat>)
    requires Inv(c) && 0 <= c.value && (forall i :: 0 <= i < |c.servers| && c.servers[i].added ==> 0 < c.value)
    ensures Inv(DrawAll(c, schedule))
    decreases schedule
  {
    if schedule != [] {
      DrawAllKeepsInv(Draw(c, schedule[0]), schedule[1..]);
    }
  }

  // The map's key for a drawn id.
  function Key(id: int): int {
    id % UINT32_LIMIT
  }

  lemma {:induction false} DrawKeepsServers(c: Counter, schedule: seq<nat>)
    ensures |DrawAll(c, schedule).servers| == |c.servers|
    decreases schedule
  {
    if schedule != [] {
      DrawKeepsServers(Draw(c, schedule[0]), schedule[1..]);
    }
  }

  lemma SameKey(x: int, y: int)
    requires x < y && Key(x) == Key(y)
    ensures y - x >= UINT32_LIMIT
  {}

  // Under any interleaving of any number of servers the ids of one server increase, and two of
  // its map keys differ unless the counter went round in between.
  lemma OneServersIdsAreFresh(n: nat, schedule: seq<nat>, i: nat)
    requires i < n
    ensures var c := DrawAll(Init(n), schedule);
      i < |c.servers| && Increasing(c.servers[i].drawn) &&
      forall a, b :: 0 <= a < b < |c.servers[i].drawn| ==>
        (Key(c.servers[i].drawn[a]) == Key(c.servers[i].drawn[b]) ==>
          c.servers[i].drawn[b] - c.servers[i].drawn[a] >= UINT32_LIMIT)
  {
    var c := DrawAll(Init(n), schedule);
    DrawAllKeepsInv(Init(n), schedule);
    DrawKeepsServers(Init(n), schedule);
    var ids := c.servers[i].drawn;
    forall a, b | 0 <= a < b < |ids| && Key(ids[a]) == Key(ids[b])
      ensures ids[b] - ids[a] >= UINT32_LIMIT
    {
      SameKey(ids[a], ids[b]);
    }
  }

  // Two servers can be given the same id: both add before either loads.
  lemma TwoServersCanAgree()
    ensures var added := Draw(Draw(Init(2), 0), 1);
      Draw(Draw(added, 0), 1).servers == [Server(false, [2]), Server(false, [2])]
  {
    var added := Draw(Draw(Init(2), 0), 1);
    assert added == Counter(2, [Server(true, []), Server(true, [])]);
    assert added.servers[0].drawn + [2] == [2] && added.servers[1].drawn + [2] == [2];
    assert Draw(added, 0).servers == [Server(false, [2]), Server(true, [])];
  }

  // ----- removing entries -----

  type Id = nat
  type Entry = nat

  // A call of `removeSession`: it looks the id up under the lock, gives the lock back, and
  // takes it again to erase.
  datatype Remover = Looking(id: Id) | Erasing(id: Id) | Finished(id: Id)

  // `inserted` and `erased` are the history.
  datatype Registry = Registry(
    sessionMap: map<Id, Entry>, removers: seq<Remover>, inserted: map<Id, Entry>, erased: set<Id>)

  datatype Action =
    | Insert(id: Id, entry: Entry)
    | CallRemove(id: Id)
    | GoOn(k: nat)

  function Act(r: Registry, a: Action): Registry {
    match a
    case Insert(id, entry) =>
      if id in r.sessionMap then r
      else r.(sessionMap := r.sessionMap[id := entry], inserted := r.inserted[id := entry])
    case CallRemove(id) => r.(removers := r.removers + [Looking(id)])
    case GoOn(k) =>
      if k >= |r.removers| then r
      else match r.removers[k]
        case Looking(id) =>
          r.(removers := r.removers[k := if id in r.sessionMap then Erasing(id) else Finished(id)])
        case Erasing(id) =>
          r.(sessionMap := r.sessionMap - {id}, erased := r.erased + {id}, removers := r.removers[k := Finished(id)])
        case Finished(_) => r
  }

  function ActAll(r: Registry, actions: seq<Action>): Registry
    decreases actions
  {
    if actions == [] then r else ActAll(Act(r, actions[0]), actions[1..])
  }

  const EMPTY := Registry(map[], [], map[], {})

  // No id is inserted that `seen` or an earlier insertion has used.
  predicate Fresh(actions: seq<Action>, seen: set<Id>) {
    actions == [] ||
    if actions[0].Insert? then actions[0].id !in seen && Fresh(actions[1..], seen + {actions[0].id})
    else Fresh(actions[1..], seen)
  }

  predicate Tidy(r: Registry) {
    r.sessionMap == r.inserted - r.erased && r.erased <= r.inserted.Keys &&
    forall k :: 0 <= k < |r.removers| && r.removers[k].Erasing? ==> r.removers[k].id in r.inserted
  }

  lemma ActKeepsTidy(r: Registry, a: Action)
    requires Tidy(r) && (a.Insert? ==> a.id !in r.inserted)
    ensures Tidy(Act(r, a))
    ensures Act(r, a).inserted.Keys == r.inserted.Keys + (if a.Insert? then {a.id} else {})
  {}

  lemma {:induction false} ActAllKeepsTidy(r: Registry, actions: seq<Action>)
    requires Tidy(r) && Fresh(actions, r.inserted.Keys)
    ensures Tidy(ActAll(r, actions))
    decreases actions
  {
    if actions != [] {
      ActKeepsTidy(r, actions[0]);
      assert r.inserted.Keys + {} == r.inserted.Keys;
      ActAllKeepsTidy(Act(r, actions[0]), actions[1..]);
    }
  }

  // With fresh ids, whatever calls overlap and however often an id is removed, the map is the
  // inserted entries without those a removal has erased.
  lemma RemovalIsOneDelete(actions: seq<Action>)
    requires Fresh(actions, {})
    ensures var r := ActAll(EMPTY, actions); r.sessionMap == r.inserted - r.erased
  {
    assert EMPTY.inserted.Keys == {};
    ActAllKeepsTidy(EMPTY, actions);
  }

  // Freshness is needed: of two overlapping removals of one id, the slower erases a session
  // inserted after both were called.
  lemma ReusedIdIsLost(id: Id, first: Entry, second: Entry)
    ensures var called := Act(Act(Act(EMPTY, Insert(id, first)), CallRemove(id)), CallRemove(id));
      var reused := Act(Act(Act(Act(called, GoOn(0)), GoOn(1)), GoOn(0)), Insert(id, second));
      reused.sessionMap == map[id := second] && Act(reused, GoOn(1)).sessionMap == map[]
  {}

  // An id that is in the map keeps its entry, whatever happens, until a removal erases it.
  lemma {:induction false} EntryIsKept(r: Registry, actions: seq<Action>, id: Id)
    requires id in r.sessionMap && forall k :: 0 <= k < |r.removers| ==> r.removers[k].id != id
    requires CallRemove(id) !in actions
    ensures id in ActAll(r, actions).sessionMap && ActAll(r, actions).sessionMap[id] == r.sessionMap[id]
    decreases actions
  {
    if actions != [] {
      assert actions[0] in actions && forall x :: x in actions[1..] ==> x in actions;
      EntryIsKept(Act(r, actions[0]), actions[1..], id);
    }
  }

  // ----- drawn ids are fresh -----

  function InsertedIds(actions: seq<Action>): seq<Id> {
    if actions == [] then []
    else (if actions[0].Insert? then [actions[0].id] else []) + InsertedIds(actions[1..])
  }

  predicate Distinct(ids: seq<Id>) {
    forall a, b :: 0 <= a < b < |ids| ==> ids[a] != ids[b]
  }

  lemma {:induction false} DistinctIsFresh(actions: seq<Action>, seen: set<Id>)
    requires Distinct(InsertedIds(actions))
    requires forall a :: 0 <= a < |InsertedIds(actions)| ==> InsertedIds(actions)[a] !in seen
    ensures Fresh(actions, seen)
  {
    if actions != [] {
      var ids, rest := InsertedIds(actions), InsertedIds(actions[1..]);
      if actions[0].Insert? {
        assert ids == [actions[0].id] + rest && ids[0] !in seen;
        forall a | 0 <= a < |rest| ensures rest[a] !in seen + {actions[0].id} {
          assert rest[a] == ids[a + 1] && ids[0] != ids[a + 1];
        }
        assert Distinct(rest) by {
          assert forall a :: 0 <= a < |rest| ==> rest[a] == ids[a + 1];
        }
        DistinctIsFresh(actions[1..], seen + {actions[0].id});
      } else {
        assert rest == ids;
        DistinctIsFresh(actions[1..], seen);
      }
    }
  }

  predicate Places(ids: seq<Id>, drawn: seq<int>, places: seq<nat>) {
    |places| == |ids| && Increasing(places) &&
    forall a :: 0 <= a < |ids| ==> places[a] < |drawn| && ids[a] == Key(drawn[places[a]])
  }

  // The inserted ids are keys of ids a server has drawn, in the order of drawing; an accept that
  // fails leaves its id out.
  ghost predicate InsertsDrawn(actions: seq<Action>, drawn: seq<int>) {
    exists places: seq<nat> :: Places(InsertedIds(actions), drawn, places)
  }

  // As long as the counter has not gone round, `addSession` never meets an id that is or was in
  // the map, however the removals of this server's sessions fall between.
  lemma DrawnIdsAreFresh(n: nat, schedule: seq<nat>, i: nat, actions: seq<Action>)
    requires i < n && i < |DrawAll(Init(n), schedule).servers|
    requires DrawAll(Init(n), schedule).value < UINT32_LIMIT
    requires InsertsDrawn(actions, DrawAll(Init(n), schedule).servers[i].drawn)
    ensures Fresh(actions, {})
  {
    var c := DrawAll(Init(n), schedule);
    var ids, drawn := InsertedIds(actions), c.servers[i].drawn;
    OneServersIdsAreFresh(n, schedule, i);
    DrawAllKeepsInv(Init(n), schedule);
    var places :| Places(ids, drawn, places);
    forall a, b | 0 <= a < b < |ids| ensures ids[a] != ids[b] {
      assert places[a] < places[b];
      assert 0 < drawn[places[a]] && drawn[places[b]] <= c.value;
    }
    DistinctIsFresh(actions, {});
  }

  // The inserts that `addSession` refuses because the id is in the map.
  function Refused(r: Registry, actions: seq<Action>): nat
    decreases actions
  {
    if actions == [] then 0
    else
      (if actions[0].Insert? && actions[0].id in r.sessionMap then 1 else 0) +
      Refused(Act(r, actions[0]), actions[1..])
  }

  lemma {:induction false} FreshIsNotRefused(r: Registry, actions: seq<Action>)
    requires Tidy(r) && Fresh(actions, r.inserted.Keys)
    ensures Refused(r, actions) == 0
    decreases actions
  {
    if actions != [] {
      ActKeepsTidy(r, actions[0]);
      assert r.inserted.Keys + {} == r.inserted.Keys;
      FreshIsNotRefused(Act(r, actions[0]), actions[1..]);
    }
  }

  // So no accepted session is refused for its id, and every removal is one delete.
  lemma NoSessionIsRefused(n: nat, schedule: seq<nat>, i: nat, actions: seq<Action>)
    requires i < n && i < |DrawAll(Init(n), schedule).servers|
    requires DrawAll(Init(n), schedule).value < UINT32_LIMIT
    requires InsertsDrawn(actions, DrawAll(Init(n), schedule).servers[i].drawn)
    ensures Refused(EMPTY, actions) == 0
    ensures var r := ActAll(EMPTY, actions); r.sessionMap == r.inserted - r.erased
  {
    DrawnIdsAreFresh(n, schedule, i, actions);
    assert EMPTY.inserted.Keys == {};
    FreshIsNotRefused(EMPTY, actions);
    RemovalIsOneDelete(actions);
  }
}
