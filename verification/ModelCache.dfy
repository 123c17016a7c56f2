/** The model cache (`src/pca_model_cache.cpp`): least-recently-used eviction under an entry limit and a
    byte budget, with expiry, and a lock that is dropped while a model is loaded.

    `GetOrCreate` is two atomic steps, the look-up and the insertion; any other caller may run in
    between. Which of several equally old entries is evicted depends on hash order, so eviction is a
    relation. */
module ModelCaching {
  import opened Contract
  import opened Sealing

  type Id = string
  type Path = string

  /** A loaded model; `content` stands for its numbers. */
  datatype Model = Model(content: seq<real>, bytes: nat)

  /** Limits, and what the artifact store holds at each path. */
  datatype Env = Env(maxEntries: nat, maxBytes: nat, ttl: int, disk: Path -> Option<Model>)

  datatype Entry = Entry(model: Model, lastAccess: int, path: Path, bytes: nat)

  datatype Cache = Cache(entries: map<Id, Entry>, bytes: int, hits: nat, misses: nat, evictions: nat)

  // ---------------------------------------------------------------- footprint

  /** The bytes held by the entries of `ids`. */
  ghost function SumOver(ids: set<Id>, m: map<Id, Entry>): nat
    requires ids <= m.Keys
  {
    if ids == {} then 0
    else
      var k :| k in ids;
      m[k].bytes + SumOver(ids - {k}, m)
  }

  /** The real number of bytes held. */
  ghost function Total(m: map<Id, Entry>): nat { SumOver(m.Keys, m) }

  lemma {:induction false} SumOverRemove(ids: set<Id>, m: map<Id, Entry>, k: Id)
    requires ids <= m.Keys && k in ids
    ensures SumOver(ids, m) == m[k].bytes + SumOver(ids - {k}, m)
  {
    var j :| j in ids && SumOver(ids, m) == m[j].bytes + SumOver(ids - {j}, m);
    if j != k {
      SumOverRemove(ids - {j}, m, k);
      SumOverRemove(ids - {k}, m, j);
      assert ids - {j} - {k} == ids - {k} - {j};
    }
  }

  lemma {:induction false} SumOverSame(ids: set<Id>, m: map<Id, Entry>, m': map<Id, Entry>)
    requires ids <= m.Keys && ids <= m'.Keys && forall k :: k in ids ==> m[k].bytes == m'[k].bytes
    ensures SumOver(ids, m) == SumOver(ids, m')
  {
    if ids != {} {
      var k :| k in ids && SumOver(ids, m) == m[k].bytes + SumOver(ids - {k}, m);
      SumOverSame(ids - {k}, m, m');
      SumOverRemove(ids, m', k);
    }
  }

  lemma {:induction false} TotalRemove(m: map<Id, Entry>, k: Id)
    requires k in m
    ensures Total(m) == m[k].bytes + Total(m - {k})
  {
    SumOverRemove(m.Keys, m, k);
    assert (m - {k}).Keys == m.Keys - {k};
    SumOverSame(m.Keys - {k}, m, m - {k});
  }

  lemma TotalPut(m: map<Id, Entry>, k: Id, e: Entry)
    ensures Total(m[k := e]) == e.bytes + Total(m - {k})
  {
    TotalRemove(m[k := e], k);
    assert m[k := e] - {k} == m - {k};
  }

  /** By how much the byte counter exceeds the real footprint. */
  ghost function Drift(c: Cache): int { c.bytes - Total(c.entries) }

  // ---------------------------------------------------------------- atomic steps

  function Drop(c: Cache, id: Id): Cache
    requires id in c.entries
  {
    c.(entries := c.entries - {id}, bytes := c.bytes - c.entries[id].bytes)
  }

  predicate Oldest(m: map<Id, Entry>, v: Id) {
    v in m && forall k :: k in m ==> m[v].lastAccess <= m[k].lastAccess
  }

  function Evict(c: Cache, v: Id): Cache
    requires v in c.entries
  {
    var d := Drop(c, v);
    d.(evictions := d.evictions + 1)
  }

  /** The cache serves this request without loading. */
  predicate Hits(env: Env, c: Cache, id: Id, path: Path, now: int) {
    id in c.entries && !(now - c.entries[id].lastAccess > env.ttl) && c.entries[id].path == path
  }

  /** The locked part before the load. */
  function LookedUp(env: Env, c: Cache, id: Id, path: Path, now: int): Cache {
    if Hits(env, c, id, path, now) then
      c.(hits := c.hits + 1, entries := c.entries[id := c.entries[id].(lastAccess := now)])
    else
      var d := if id in c.entries then Drop(c, id) else c;
      d.(misses := d.misses + 1)
  }

  /** `EnsureCapacity(additional)` takes `c` to `c'` by `n` evictions. */
  ghost predicate MakesRoom(env: Env, additional: nat, c: Cache, c': Cache, n: nat)
    decreases n
  {
    if c.entries == map[] || c.bytes + additional <= env.maxBytes then n == 0 && c' == c
    else n > 0 && exists v :: Oldest(c.entries, v) && MakesRoom(env, additional, Evict(c, v), c', n - 1)
  }

  /** The entry limit: one more eviction when the cache is full. */
  ghost predicate TrimsTo(env: Env, c: Cache, c': Cache) {
    if |c.entries| >= env.maxEntries && c.entries != map[] then exists v :: Oldest(c.entries, v) && c' == Evict(c, v)
    else c' == c
  }

  function Stored(c: Cache, id: Id, e: Entry): Cache {
    c.(entries := c.entries[id := e], bytes := c.bytes + e.bytes)
  }

  /** The locked part after the load; `now` is the time read before the load. */
  ghost predicate Inserts(env: Env, c: Cache, id: Id, path: Path, now: int, model: Model, c': Cache) {
    if model.bytes > env.maxBytes then c' == c
    else exists room, n, trimmed ::
      && MakesRoom(env, model.bytes, c, room, n) && TrimsTo(env, room, trimmed)
      && c' == Stored(trimmed, id, Entry(model, now, path, model.bytes))
  }

  // ---------------------------------------------------------------- what eviction does

  /** Entries only leave, and none that left was used after one that stayed. */
  ghost predicate EvictsOldFirst(m: map<Id, Entry>, m': map<Id, Entry>) {
    && (forall k :: k in m' ==> k in m && m'[k] == m[k])
    && (forall gone, kept :: gone in m && gone !in m' && kept in m' ==> m[gone].lastAccess <= m[kept].lastAccess)
  }

  /** What any sequence of evictions keeps. */
  ghost predicate Shrunk(c: Cache, c': Cache) {
    Drift(c') == Drift(c) && Total(c'.entries) <= Total(c.entries) && |c'.entries| <= |c.entries|
    && EvictsOldFirst(c.entries, c'.entries)
  }

  lemma EvictShrinks(c: Cache, v: Id)
    requires Oldest(c.entries, v)
    ensures Shrunk(c, Evict(c, v)) && |Evict(c, v).entries| == |c.entries| - 1
  {
    TotalRemove(c.entries, v);
    assert (c.entries - {v}).Keys == c.entries.Keys - {v};
  }

  lemma ShrunkTransitive(a: Cache, b: Cache, d: Cache)
    requires Shrunk(a, b) && Shrunk(b, d)
    ensures Shrunk(a, d)
  {
    OldFirstTransitive(a.entries, b.entries, d.entries);
  }

  lemma OldFirstTransitive(a: map<Id, Entry>, b: map<Id, Entry>, d: map<Id, Entry>)
    requires EvictsOldFirst(a, b) && EvictsOldFirst(b, d)
    ensures EvictsOldFirst(a, d)
  {
    forall gone, kept | gone in a && gone !in d && kept in d ensures a[gone].lastAccess <= a[kept].lastAccess {
      assert kept in b;
      if gone in b { assert b[gone].lastAccess <= b[kept].lastAccess; }
    }
  }

  lemma {:induction false} RoomShrinks(env: Env, additional: nat, c: Cache, c': Cache, n: nat)
    requires MakesRoom(env, additional, c, c', n)
    ensures Shrunk(c, c') && (c'.entries == map[] || c'.bytes + additional <= env.maxBytes)
    decreases n
  {
    if n > 0 {
      var v :| Oldest(c.entries, v) && MakesRoom(env, additional, Evict(c, v), c', n - 1);
      EvictShrinks(c, v);
      RoomShrinks(env, additional, Evict(c, v), c', n - 1);
      ShrunkTransitive(c, Evict(c, v), c');
    }
  }

  lemma TrimShrinks(env: Env, c: Cache, c': Cache)
    requires TrimsTo(env, c, c')
    ensures Shrunk(c, c')
    ensures c'.entries == map[] || |c'.entries| < env.maxEntries || |c'.entries| < |c.entries|
  {
    if |c.entries| >= env.maxEntries && c.entries != map[] {
      var v :| Oldest(c.entries, v) && c' == Evict(c, v);
      EvictShrinks(c, v);
    }
  }

  // ---------------------------------------------------------------- the invariant

  function Limit(env: Env): nat { if env.maxEntries < 1 then 1 else env.maxEntries }

  ghost predicate Genuine(env: Env, e: Entry) { env.disk(e.path) == Some(e.model) && e.bytes == e.model.bytes }

  ghost predicate Sound(env: Env, c: Cache) {
    && Drift(c) >= 0
    && Total(c.entries) <= env.maxBytes
    && |c.entries| <= Limit(env)
    && forall k :: k in c.entries ==> Genuine(env, c.entries[k])
  }

  lemma DropSound(env: Env, c: Cache, id: Id)
    requires Sound(env, c) && id in c.entries
    ensures Sound(env, Drop(c, id)) && Drift(Drop(c, id)) == Drift(c)
  {
    TotalRemove(c.entries, id);
    assert (c.entries - {id}).Keys == c.entries.Keys - {id};
  }

  lemma LookUpSound(env: Env, c: Cache, id: Id, path: Path, now: int)
    requires Sound(env, c)
    ensures var d := LookedUp(env, c, id, path, now);
      Sound(env, d) && Drift(d) == Drift(c) && (!Hits(env, c, id, path, now) ==> id !in d.entries)
  {
    if Hits(env, c, id, path, now) {
      var e := c.entries[id].(lastAccess := now);
      TotalPut(c.entries, id, e);
      TotalRemove(c.entries, id);
      assert c.entries[id := e].Keys == c.entries.Keys;
    } else if id in c.entries {
      DropSound(env, c, id);
    }
  }

  lemma StoreDrift(c: Cache, id: Id, e: Entry)
    ensures Total(Stored(c, id, e).entries) == e.bytes + Total(c.entries) - Overwritten(c, id)
    ensures Drift(Stored(c, id, e)) == Drift(c) + Overwritten(c, id)
  {
    TotalPut(c.entries, id, e);
    if id in c.entries { TotalRemove(c.entries, id); }
    else { assert c.entries - {id} == c.entries; }
  }

  /** The size of the entry an insertion overwrites. */
  function Overwritten(c: Cache, id: Id): nat { if id in c.entries then c.entries[id].bytes else 0 }

  /** After the evictions the new entry fits: the footprint, the entry count and the contents stay
      sound, and the counter is off by the size of any entry the insertion overwrites. */
  lemma InsertSound(env: Env, c: Cache, id: Id, e: Entry, room: Cache, n: nat, trimmed: Cache)
    requires Sound(env, c) && Genuine(env, e) && e.bytes <= env.maxBytes
    requires MakesRoom(env, e.bytes, c, room, n) && TrimsTo(env, room, trimmed)
    ensures Sound(env, Stored(trimmed, id, e))
    ensures Drift(Stored(trimmed, id, e)) == Drift(c) + Overwritten(trimmed, id)
    ensures EvictsOldFirst(c.entries, trimmed.entries)
  {
    EvictedEnough(env, e.bytes, c, room, n, trimmed);
    StoreDrift(trimmed, id, e);
    CountBound(trimmed.entries, id, e);
  }

  lemma EvictedEnough(env: Env, additional: nat, c: Cache, room: Cache, n: nat, trimmed: Cache)
    requires Drift(c) >= 0 && |c.entries| <= Limit(env) && additional <= env.maxBytes
    requires MakesRoom(env, additional, c, room, n) && TrimsTo(env, room, trimmed)
    ensures Shrunk(c, trimmed) && Total(trimmed.entries) + additional <= env.maxBytes
    ensures |trimmed.entries| < Limit(env)
  {
    RoomShrinks(env, additional, c, room, n);
    TrimShrinks(env, room, trimmed);
    ShrunkTransitive(c, room, trimmed);
    RoomFits(env, additional, room);
    if trimmed.entries == map[] { assert |trimmed.entries| == 0; }
  }

  lemma RoomFits(env: Env, additional: nat, c: Cache)
    requires c.entries == map[] || c.bytes + additional <= env.maxBytes
    requires Drift(c) >= 0 && additional <= env.maxBytes
    ensures Total(c.entries) + additional <= env.maxBytes
  {
    if c.entries == map[] { assert c.entries.Keys == {}; }
  }

  lemma CountBound(m: map<Id, Entry>, id: Id, e: Entry)
    ensures |m[id := e]| <= |m| + 1 && (id in m ==> |m[id := e]| == |m|)
  {
    assert m[id := e].Keys == m.Keys + {id};
    if id in m { assert m[id := e].Keys == m.Keys; }
  }

  // ---------------------------------------------------------------- interleavings

  datatype Request = Request(id: Id, path: Path, now: int)

  /** The cache, the callers that are loading with the lock dropped, and what callers were given. */
  datatype World = World(cache: Cache, loading: map<nat, Request>, returned: seq<(Path, Model)>)

  datatype Event =
    | Begin(caller: nat, request: Request)
    | Finish(caller: nat)
    | FailLoad(caller: nat)
    | Invalidate(id: Id)
    | Clear

  const EMPTY := Cache(map[], 0, 0, 0, 0)

  function Cleared(c: Cache): Cache { c.(entries := map[], bytes := 0) }

  function Invalidated(c: Cache, id: Id): Cache { if id in c.entries then Drop(c, id) else c }

  ghost predicate Next(env: Env, w: World, ev: Event, w': World) {
    match ev
    case Begin(t, r) =>
      && t !in w.loading
      && var c := LookedUp(env, w.cache, r.id, r.path, r.now);
         w' == if Hits(env, w.cache, r.id, r.path, r.now)
               then World(c, w.loading, w.returned + [(r.path, w.cache.entries[r.id].model)])
               else World(c, w.loading[t := r], w.returned)
    case Finish(t) =>
      && t in w.loading
      && var r := w.loading[t];
         env.disk(r.path).Some? && var m := env.disk(r.path).value;
         && Inserts(env, w.cache, r.id, r.path, r.now, m, w'.cache)
         && w'.loading == w.loading - {t} && w'.returned == w.returned + [(r.path, m)]
    case FailLoad(t) =>
      t in w.loading && env.disk(w.loading[t].path).None? && w' == w.(loading := w.loading - {t})
    case Invalidate(id) => w' == w.(cache := Invalidated(w.cache, id))
    case Clear => w' == w.(cache := Cleared(w.cache))
  }

  /** Every returned model is the one stored at the requested path. */
  ghost predicate Faithful(env: Env, w: World) {
    forall k :: 0 <= k < |w.returned| ==> env.disk(w.returned[k].0) == Some(w.returned[k].1)
  }

  /** The second half of a miss keeps the invariant. What is stored joins the entries the evictions
      kept, and the counter drifts by exactly the size of a kept entry of the same id. */
  lemma FinishSound(env: Env, c: Cache, r: Request, m: Model, c': Cache)
    requires Sound(env, c) && env.disk(r.path) == Some(m) && Inserts(env, c, r.id, r.path, r.now, m, c')
    ensures Sound(env, c')
    ensures if m.bytes > env.maxBytes then c' == c else
      exists kept: map<Id, Entry> ::
        && EvictsOldFirst(c.entries, kept) && c'.entries == kept[r.id := Entry(m, r.now, r.path, m.bytes)]
        && Drift(c') == Drift(c) + if r.id in kept then kept[r.id].bytes else 0
  {
    if m.bytes <= env.maxBytes {
      var e := Entry(m, r.now, r.path, m.bytes);
      var room, n, trimmed :|
        MakesRoom(env, m.bytes, c, room, n) && TrimsTo(env, room, trimmed) && c' == Stored(trimmed, r.id, e);
      InsertSound(env, c, r.id, e, room, n, trimmed);
    }
  }

  /** The insertion overwrites an entry of positive size that its own evictions left in place. */
  ghost predicate InsertsOver(env: Env, c: Cache, r: Request, m: Model, c': Cache) {
    m.bytes <= env.maxBytes && exists room, n, trimmed ::
      && MakesRoom(env, m.bytes, c, room, n) && TrimsTo(env, room, trimmed)
      && c' == Stored(trimmed, r.id, Entry(m, r.now, r.path, m.bytes)) && Overwritten(trimmed, r.id) > 0
  }

  /** An insertion raises the drift if it overwrites and leaves it alone if not. */
  lemma FinishDrift(env: Env, c: Cache, r: Request, m: Model, c': Cache)
    requires Sound(env, c) && env.disk(r.path) == Some(m) && Inserts(env, c, r.id, r.path, r.now, m, c')
    ensures if InsertsOver(env, c, r, m, c') then Drift(c') > Drift(c) else Drift(c') == Drift(c)
  {
    if m.bytes <= env.maxBytes {
      var e := Entry(m, r.now, r.path, m.bytes);
      if InsertsOver(env, c, r, m, c') {
        var room, n, trimmed :| MakesRoom(env, m.bytes, c, room, n) && TrimsTo(env, room, trimmed)
          && c' == Stored(trimmed, r.id, e) && Overwritten(trimmed, r.id) > 0;
        InsertSound(env, c, r.id, e, room, n, trimmed);
      } else {
        var room, n, trimmed :|
          MakesRoom(env, m.bytes, c, room, n) && TrimsTo(env, room, trimmed) && c' == Stored(trimmed, r.id, e);
        InsertSound(env, c, r.id, e, room, n, trimmed);
      }
    }
  }

  /** The step is an insertion that overwrites an entry of positive size. */
  ghost predicate StoresOver(env: Env, w: World, ev: Event, w': World) {
    ev.Finish? && ev.caller in w.loading && var r := w.loading[ev.caller];
    env.disk(r.path).Some? && InsertsOver(env, w.cache, r, env.disk(r.path).value, w'.cache)
  }

  /** Every step keeps the footprint and entry bounds, keeps the counter at or above the footprint, and
      hands out only what the requested path holds. */
  lemma NextSound(env: Env, w: World, ev: Event, w': World)
    requires Sound(env, w.cache) && Faithful(env, w) && Next(env, w, ev, w')
    ensures Sound(env, w'.cache) && Faithful(env, w')
  {
    match ev
    case Begin(t, r) =>
      LookUpSound(env, w.cache, r.id, r.path, r.now);
      if Hits(env, w.cache, r.id, r.path, r.now) { assert Genuine(env, w.cache.entries[r.id]); }
    case Finish(t) =>
      var r := w.loading[t];
      FinishSound(env, w.cache, r, env.disk(r.path).value, w'.cache);
    case FailLoad(t) =>
    case Invalidate(id) => if id in w.cache.entries { DropSound(env, w.cache, id); }
    case Clear => assert Total(map[]) == 0;
  }

  /** `Clear` removes the drift, an insertion that overwrites raises it, and nothing else changes it. */
  lemma NextDrift(env: Env, w: World, ev: Event, w': World)
    requires Sound(env, w.cache) && Next(env, w, ev, w')
    ensures if ev.Clear? then Drift(w'.cache) == 0
            else if StoresOver(env, w, ev, w') then Drift(w'.cache) > Drift(w.cache)
            else Drift(w'.cache) == Drift(w.cache)
  {
    match ev
    case Begin(t, r) => LookUpSound(env, w.cache, r.id, r.path, r.now);
    case Finish(t) =>
      var r := w.loading[t];
      FinishDrift(env, w.cache, r, env.disk(r.path).value, w'.cache);
    case FailLoad(t) =>
    case Invalidate(id) => if id in w.cache.entries { DropSound(env, w.cache, id); }
    case Clear => assert Total(map[]) == 0;
  }

  ghost predicate Steps(env: Env, ws: seq<World>, evs: seq<Event>)
    requires |ws| == |evs| + 1
  {
    ws[0] == World(EMPTY, map[], []) && forall i :: 0 <= i < |evs| ==> Next(env, ws[i], evs[i], ws[i+1])
  }

  /** A run from the empty cache (sealed). */
  ghost predicate Run(env: Env, ws: seq<World>, evs: seq<Event>) {
    |ws| == |evs| + 1 && forall k {:trigger Key(k)} :: Key(k) ==> Steps(env, ws, evs)
  }

  ghost predicate Start(env: Env, w: World) {
    Drift(w.cache) == 0 && Disjoint(w) && Faithful(env, w) && Sound(env, w.cache)
  }

  ghost predicate Bare(w: World) {
    && w.cache.entries.Keys == {} && w.cache.bytes == 0 && w.loading.Keys == {} && w.returned == []
    && w.cache.hits == 0 && w.cache.misses == 0
  }

  lemma BareStart(env: Env, w: World)
    requires Bare(w)
    ensures Start(env, w)
  {
    assert SumOver(w.cache.entries.Keys, w.cache.entries) == 0;
    assert |w.cache.entries| == |w.cache.entries.Keys|;
  }

  lemma StartsBare(env: Env, ws: seq<World>, evs: seq<Event>)
    requires Run(env, ws, evs)
    ensures Bare(ws[0])
  {
    assert Key(0);
  }

  lemma RunStart(env: Env, ws: seq<World>, evs: seq<Event>)
    requires Run(env, ws, evs)
    ensures Start(env, ws[0])
  {
    StartsBare(env, ws, evs);
    BareStart(env, ws[0]);
  }

  lemma RunStep(env: Env, ws: seq<World>, evs: seq<Event>, i: nat)
    requires Run(env, ws, evs) && i < |evs|
    ensures Next(env, ws[i], evs[i], ws[i+1])
  {
    assert Key(0);
  }

  /** In every interleaving, at every point: the byte counter never falls below the bytes really held,
      those never exceed the budget, the entry count never exceeds `max(1, max_entries)`, and every
      model handed out is the one stored at the path it was asked for. */
  lemma {:induction false} EveryRunSound(env: Env, ws: seq<World>, evs: seq<Event>, i: nat)
    requires Run(env, ws, evs) && i < |ws|
    ensures Sound(env, ws[i].cache) && Faithful(env, ws[i])
  {
    if i == 0 { RunStart(env, ws, evs); }
    else {
      EveryRunSound(env, ws, evs, i - 1);
      RunStep(env, ws, evs, i - 1);
      NextSound(env, ws[i-1], evs[i-1], ws[i]);
    }
  }

  // ---------------------------------------------------------------- when the counter is exact

  /** Some step after the `j`-th and before the `i`-th is marked. */
  ghost predicate MarkedBetween(marks: seq<bool>, j: nat, i: nat)
    requires i <= |marks|
  {
    exists k :: j < k < i && marks[k]
  }

  /** Every raise before step `i` is followed by a reset before it. */
  ghost predicate AllUndone(raise: seq<bool>, reset: seq<bool>, i: nat)
    requires i <= |raise| == |reset|
  {
    forall j :: 0 <= j < i && raise[j] ==> MarkedBetween(reset, j, i)
  }

  /** Step `k` takes the amount from `amount[k]` to `amount[k+1]`. */
  ghost predicate Tallies(amount: seq<int>, raise: seq<bool>, reset: seq<bool>) {
    && |amount| == |raise| + 1 == |reset| + 1 && amount[0] == 0
    && forall k :: 0 <= k < |raise| ==> Tally(amount[k], raise[k], reset[k], amount[k+1])
  }

  ghost predicate Tally(was: int, raise: bool, reset: bool, now: int) {
    && !(raise && reset)
    && if reset then now == 0 else if raise then now > was else now == was
  }

  /** An amount that some steps reset, some raise and no other changes is zero if and only if every
      raise was followed by a reset. */
  lemma {:induction false} ZeroExactly(amount: seq<int>, raise: seq<bool>, reset: seq<bool>, i: nat)
    requires Tallies(amount, raise, reset) && i < |amount|
    ensures amount[i] >= 0
    ensures amount[i] == 0 <==> AllUndone(raise, reset, i)
  {
    if i > 0 {
      var n := i - 1;
      ZeroExactly(amount, raise, reset, n);
      forall j | 0 <= j < n ensures MarkedBetween(reset, j, i) <==> reset[n] || MarkedBetween(reset, j, n) {
        if reset[n] { assert j < n < i && reset[n]; }
      }
    }
  }

  /** Which steps of a run are insertions that overwrite, and which are `Clear`. */
  ghost function Overwrites(env: Env, ws: seq<World>, evs: seq<Event>): (r: seq<bool>)
    requires |ws| == |evs| + 1
    ensures |r| == |evs| && forall k :: 0 <= k < |evs| ==> r[k] == StoresOver(env, ws[k], evs[k], ws[k+1])
  {
    seq(|evs|, k requires 0 <= k < |evs| => StoresOver(env, ws[k], evs[k], ws[k+1]))
  }

  ghost function Clears(evs: seq<Event>): (r: seq<bool>)
    ensures |r| == |evs| && forall k :: 0 <= k < |evs| ==> r[k] == evs[k].Clear?
  {
    seq(|evs|, k requires 0 <= k < |evs| => evs[k].Clear?)
  }

  ghost function Drifts(ws: seq<World>): (r: seq<int>)
    ensures |r| == |ws| && forall k :: 0 <= k < |ws| ==> r[k] == Drift(ws[k].cache)
  {
    seq(|ws|, k requires 0 <= k < |ws| => Drift(ws[k].cache))
  }

  lemma RunDrift(env: Env, ws: seq<World>, evs: seq<Event>, k: nat)
    requires Run(env, ws, evs) && k < |evs|
    ensures Tally(Drift(ws[k].cache), StoresOver(env, ws[k], evs[k], ws[k+1]), evs[k].Clear?, Drift(ws[k+1].cache))
  {
    EveryRunSound(env, ws, evs, k);
    RunStep(env, ws, evs, k);
    NextDrift(env, ws[k], evs[k], ws[k+1]);
  }

  lemma RunTallies(env: Env, ws: seq<World>, evs: seq<Event>)
    requires Run(env, ws, evs)
    ensures Tallies(Drifts(ws), Overwrites(env, ws, evs), Clears(evs))
  {
    RunStart(env, ws, evs);
    forall k | 0 <= k < |evs|
      ensures Tally(Drifts(ws)[k], Overwrites(env, ws, evs)[k], Clears(evs)[k], Drifts(ws)[k+1])
    {
      RunDrift(env, ws, evs, k);
    }
  }

  lemma DriftTally(env: Env, ws: seq<World>, evs: seq<Event>, i: nat)
    requires i < |ws| == |evs| + 1 && Tallies(Drifts(ws), Overwrites(env, ws, evs), Clears(evs))
    ensures Drift(ws[i].cache) == 0 <==> AllUndone(Overwrites(env, ws, evs), Clears(evs), i)
  {
    ZeroExactly(Drifts(ws), Overwrites(env, ws, evs), Clears(evs), i);
  }

  /** In every run, at every point: the byte counter is exact if and only if every insertion so far that
      overwrote an entry of positive size was followed by a `Clear`. */
  lemma {:induction false} CounterExactly(env: Env, ws: seq<World>, evs: seq<Event>, i: nat)
    requires Run(env, ws, evs) && i < |ws|
    ensures Drift(ws[i].cache) == 0 <==> AllUndone(Overwrites(env, ws, evs), Clears(evs), i)
  {
    RunTallies(env, ws, evs);
    DriftTally(env, ws, evs, i);
  }

  ghost predicate NoneMarked(marks: seq<bool>) { forall k :: 0 <= k < |marks| ==> !marks[k] }

  ghost predicate AllZero(amount: seq<int>) { forall i :: 0 <= i < |amount| ==> amount[i] == 0 }

  lemma {:induction false} ZeroThroughout(amount: seq<int>, raise: seq<bool>, reset: seq<bool>)
    requires Tallies(amount, raise, reset) && NoneMarked(reset)
    ensures AllZero(amount) <==> NoneMarked(raise)
  {
    if NoneMarked(raise) {
      forall i | 0 <= i < |amount| ensures amount[i] == 0 { ZeroExactly(amount, raise, reset, i); }
    } else {
      var j :| 0 <= j < |raise| && raise[j];
      ZeroExactly(amount, raise, reset, |raise|);
      assert !MarkedBetween(reset, j, |raise|);
      assert amount[|raise|] != 0;
    }
  }

  /** Without a `Clear` the counter is exact throughout if and only if no insertion overwrites. */
  lemma {:induction false} CounterExactWithoutClear(env: Env, ws: seq<World>, evs: seq<Event>)
    requires Run(env, ws, evs) && NoneMarked(Clears(evs))
    ensures AllZero(Drifts(ws)) <==> NoneMarked(Overwrites(env, ws, evs))
  {
    RunTallies(env, ws, evs);
    ZeroThroughout(Drifts(ws), Overwrites(env, ws, evs), Clears(evs));
  }

  /** No two callers load the same id at once. */
  ghost predicate NoOverlap(w: World, ev: Event) {
    ev.Begin? ==> forall t :: t in w.loading ==> w.loading[t].id != ev.request.id
  }

  ghost predicate Disjoint(w: World) {
    && (forall t :: t in w.loading ==> w.loading[t].id !in w.cache.entries)
    && (forall s, t :: s in w.loading && t in w.loading && s != t ==> w.loading[s].id != w.loading[t].id)
  }

  lemma NextExact(env: Env, w: World, ev: Event, w': World)
    requires Sound(env, w.cache) && Next(env, w, ev, w') && NoOverlap(w, ev) && Disjoint(w) && Drift(w.cache) == 0
    ensures Disjoint(w') && Drift(w'.cache) == 0
  {
    match ev
    case Begin(t, r) => LookUpSound(env, w.cache, r.id, r.path, r.now);
    case Finish(t) =>
      var r := w.loading[t];
      FinishSound(env, w.cache, r, env.disk(r.path).value, w'.cache);
    case FailLoad(t) =>
    case Invalidate(id) => if id in w.cache.entries { DropSound(env, w.cache, id); }
    case Clear => assert Total(map[]) == 0;
  }

  /** Without overlapping misses on one id the byte counter is exact throughout. */
  lemma {:induction false} ExactWithoutOverlap(env: Env, ws: seq<World>, evs: seq<Event>, i: nat)
    requires Run(env, ws, evs) && i < |ws| && forall k :: 0 <= k < |evs| ==> NoOverlap(ws[k], evs[k])
    ensures Disjoint(ws[i]) && ws[i].cache.bytes == Total(ws[i].cache.entries)
  {
    if i == 0 { RunStart(env, ws, evs); }
    else {
      ExactWithoutOverlap(env, ws, evs, i - 1);
      EveryRunSound(env, ws, evs, i - 1);
      RunStep(env, ws, evs, i - 1);
      NextExact(env, ws[i-1], evs[i-1], ws[i]);
    }
  }

  /** Once the drift leaves no room for a model, inserting it evicts everything else. */
  lemma DriftedCacheHoldsOne(env: Env, c: Cache, r: Request, m: Model, c': Cache)
    requires Sound(env, c) && Inserts(env, c, r.id, r.path, r.now, m, c')
    requires m.bytes <= env.maxBytes < Drift(c) + m.bytes
    ensures c'.entries.Keys == {r.id}
  {
    var room, n, trimmed :| MakesRoom(env, m.bytes, c, room, n) && TrimsTo(env, room, trimmed)
      && c' == Stored(trimmed, r.id, Entry(m, r.now, r.path, m.bytes));
    RoomShrinks(env, m.bytes, c, room, n);
    assert room.entries == map[];
  }

  lemma StoreWithRoom(env: Env, c: Cache, r: Request, m: Model)
    requires m.bytes <= env.maxBytes && c.bytes + m.bytes <= env.maxBytes && |c.entries| < env.maxEntries
    ensures Inserts(env, c, r.id, r.path, r.now, m, Stored(c, r.id, Entry(m, r.now, r.path, m.bytes)))
  {
    assert MakesRoom(env, m.bytes, c, c, 0) && TrimsTo(env, c, c);
  }

  lemma FinishWithRoom(env: Env, w: World, t: nat, m: Model)
    requires t in w.loading && env.disk(w.loading[t].path) == Some(m)
    requires w.cache.bytes + m.bytes <= env.maxBytes && 0 <= w.cache.bytes && |w.cache.entries| < env.maxEntries
    ensures var r := w.loading[t];
      Next(env, w, Finish(t), World(Stored(w.cache, r.id, Entry(m, r.now, r.path, m.bytes)),
                                    w.loading - {t}, w.returned + [(r.path, m)]))
  {
    StoreWithRoom(env, w.cache, w.loading[t], m);
  }

  lemma BeginMiss(env: Env, w: World, t: nat, r: Request)
    requires t !in w.loading && r.id !in w.cache.entries
    ensures Next(env, w, Begin(t, r), World(w.cache.(misses := w.cache.misses + 1), w.loading[t := r], w.returned))
  {}

  /** The world after callers 0 and 1 both missed on one id, and after caller 0 stored its copy. */
  function BothLoading(r: Request): World { World(EMPTY.(misses := 2), map[0 := r][1 := r], []) }

  function AfterStore(w: World, t: nat, r: Request, m: Model): World {
    World(Stored(w.cache, r.id, Entry(m, r.now, r.path, m.bytes)), w.loading - {t}, w.returned + [(r.path, m)])
  }

  /** Two callers that miss on one id at the same time: the counter ends at twice the footprint. */
  lemma OverlapDrifts(env: Env, r: Request, m: Model)
    requires env.disk(r.path) == Some(m) && 2 * m.bytes <= env.maxBytes && env.maxEntries >= 2
    ensures var w0, w1 := World(EMPTY, map[], []), World(EMPTY.(misses := 1), map[0 := r], []);
      var w2 := BothLoading(r);
      var w3 := AfterStore(w2, 0, r, m);
      var w4 := AfterStore(w3, 1, r, m);
      && Next(env, w0, Begin(0, r), w1) && Next(env, w1, Begin(1, r), w2)
      && Next(env, w2, Finish(0), w3) && Next(env, w3, Finish(1), w4)
      && w4.cache.bytes == 2 * m.bytes && Total(w4.cache.entries) == m.bytes
  {
    var w0, w1, w2 := World(EMPTY, map[], []), World(EMPTY.(misses := 1), map[0 := r], []), BothLoading(r);
    var w3 := AfterStore(w2, 0, r, m);
    BeginMiss(env, w0, 0, r);
    BeginMiss(env, w1, 1, r);
    FinishWithRoom(env, w2, 0, m);
    assert w3.cache.entries.Keys == {r.id};
    FinishWithRoom(env, w3, 1, m);
    assert Total(map[]) == 0;
    StoreDrift(w2.cache, r.id, Entry(m, r.now, r.path, m.bytes));
    StoreDrift(w3.cache, r.id, Entry(m, r.now, r.path, m.bytes));
  }

  // ---------------------------------------------------------------- the object

  /** `c` is where the loop stands after `n` evictions from `start`. */
  ghost predicate Continues(env: Env, additional: nat, start: Cache, c: Cache, n: nat) {
    forall c', k: nat :: MakesRoom(env, additional, c, c', k) ==> MakesRoom(env, additional, start, c', k + n)
  }

  lemma ContinueEvicting(env: Env, additional: nat, start: Cache, c: Cache, n: nat, v: Id)
    requires Continues(env, additional, start, c, n) && Oldest(c.entries, v) && c.bytes + additional > env.maxBytes
    ensures Continues(env, additional, start, Evict(c, v), n + 1)
  {
    forall c', k: nat | MakesRoom(env, additional, Evict(c, v), c', k)
      ensures MakesRoom(env, additional, start, c', k + (n + 1))
    {
      assert MakesRoom(env, additional, c, c', k + 1);
      assert (k + 1) + n == k + (n + 1);
    }
  }

  lemma InsertDone(env: Env, c: Cache, r: Request, m: Model, room: Cache, n: nat, trimmed: Cache)
    requires m.bytes <= env.maxBytes && MakesRoom(env, m.bytes, c, room, n) && TrimsTo(env, room, trimmed)
    ensures Inserts(env, c, r.id, r.path, r.now, m, Stored(trimmed, r.id, Entry(m, r.now, r.path, m.bytes)))
  {}

  class PcaModelCache {
    const env: Env
    var entries: map<Id, Entry>
    var bytes: int
    var hits: nat
    var misses: nat
    var evictions: nat

    function Value(): Cache
      reads this
    {
      Cache(entries, bytes, hits, misses, evictions)
    }

    constructor (env: Env)
      ensures this.env == env && Value() == EMPTY
    {
      this.env := env;
      entries, bytes, hits, misses, evictions := map[], 0, 0, 0, 0;
    }

    /** Scans the entries in whatever order the map gives them. */
    method EvictLru()
      modifies this
      ensures if old(entries) == map[] then Value() == old(Value())
              else exists v :: Oldest(old(entries), v) && Value() == Evict(old(Value()), v)
    {
      if entries == map[] { return; }
      var rest := entries.Keys;
      var oldest :| oldest in entries;
      while rest != {}
        invariant rest <= entries.Keys && oldest in entries
        invariant forall k :: k in entries && k !in rest ==> entries[oldest].lastAccess <= entries[k].lastAccess
        decreases |rest|
      {
        var k :| k in rest;
        if entries[k].lastAccess < entries[oldest].lastAccess { oldest := k; }
        rest := rest - {k};
      }
      assert Oldest(entries, oldest);
      bytes := bytes - entries[oldest].bytes;
      entries := entries - {oldest};
      evictions := evictions + 1;
    }

    method EnsureCapacity(additional: nat) returns (ghost n: nat)
      modifies this
      ensures MakesRoom(env, additional, old(Value()), Value(), n)
    {
      ghost var start := Value();
      n := 0;
      while entries != map[] && bytes + additional > env.maxBytes
        invariant Continues(env, additional, start, Value(), n)
        decreases |entries|
      {
        ghost var c := Value();
        EvictLru();
        ghost var v :| Oldest(c.entries, v) && Value() == Evict(c, v);
        EvictShrinks(c, v);
        ContinueEvicting(env, additional, start, c, n, v);
        n := n + 1;
      }
      assert MakesRoom(env, additional, Value(), Value(), 0);
    }

    method Trim()
      modifies this
      ensures TrimsTo(env, old(Value()), Value())
    {
      if |entries| >= env.maxEntries { EvictLru(); }
    }

    /** `GetOrCreate` up to the unlock: a hit, or nothing and the caller goes on to load. */
    method LookUp(r: Request) returns (hit: Option<Model>)
      modifies this
      ensures Value() == LookedUp(env, old(Value()), r.id, r.path, r.now)
      ensures hit == if Hits(env, old(Value()), r.id, r.path, r.now) then Some(old(entries)[r.id].model) else None
    {
      if r.id in entries {
        var e := entries[r.id];
        if r.now - e.lastAccess > env.ttl {
          bytes := bytes - e.bytes;
          entries := entries - {r.id};
        } else if e.path == r.path {
          hits := hits + 1;
          entries := entries[r.id := e.(lastAccess := r.now)];
          return Some(e.model);
        } else {
          bytes := bytes - e.bytes;
          entries := entries - {r.id};
        }
      }
      misses := misses + 1;
      return None;
    }

    /** `GetOrCreate` after the load. */
    method Insert(r: Request, model: Model)
      modifies this
      ensures Inserts(env, old(Value()), r.id, r.path, r.now, model, Value())
    {
      if model.bytes > env.maxBytes { return; }
      ghost var n := EnsureCapacity(model.bytes);
      ghost var room := Value();
      Trim();
      ghost var trimmed := Value();
      entries := entries[r.id := Entry(model, r.now, r.path, model.bytes)];
      bytes := bytes + model.bytes;
      InsertDone(env, old(Value()), r, model, room, n, trimmed);
    }

    method InvalidateId(id: Id)
      modifies this
      ensures Value() == Invalidated(old(Value()), id)
    {
      if id in entries {
        bytes := bytes - entries[id].bytes;
        entries := entries - {id};
      }
    }

    method ClearAll()
      modifies this
      ensures Value() == Cleared(old(Value()))
    {
      entries := map[];
      bytes := 0;
    }
  }
}
