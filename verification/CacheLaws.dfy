/** What a run of the model cache tells from its events alone: where a model served without loading came
    from, when one is served, and what the counters count. */
module CacheLaws {
  import opened Contract
  import opened ModelCaching

  /** Step `i` is a request that returned at once. */
  ghost predicate ServedAtOnce(ws: seq<World>, evs: seq<Event>, i: nat)
    requires |ws| == |evs| + 1 && i < |evs|
  {
    evs[i].Begin? && |ws[i+1].returned| > |ws[i].returned|
  }

  predicate OfCaller(ev: Event, t: nat) {
    match ev
    case Begin(s, _) => s == t
    case Finish(s) => s == t
    case FailLoad(s) => s == t
    case _ => false
  }

  /** A request began at step `b` and was answered at step `f`: at once, or by its load. */
  ghost predicate Answered(ws: seq<World>, evs: seq<Event>, b: nat, f: nat, r: Request)
    requires |ws| == |evs| + 1
  {
    && b <= f < |evs| && evs[b].Begin? && evs[b].request == r
    && if f == b then ServedAtOnce(ws, evs, b)
       else evs[f] == Finish(evs[b].caller) && forall k :: b < k < f ==> !OfCaller(evs[k], evs[b].caller)
  }

  /** Nothing between steps `f` and `i` drops the id on purpose. */
  ghost predicate Undisturbed(evs: seq<Event>, id: Id, f: nat, i: nat)
    requires i <= |evs|
  {
    forall k :: f < k < i ==> evs[k] != Clear && evs[k] != Invalidate(id)
  }

  lemma ServedIsHit(env: Env, w: World, ev: Event, w': World)
    requires Next(env, w, ev, w') && ev.Begin?
    ensures |w'.returned| > |w.returned| <==>
      Hits(env, w.cache, ev.request.id, ev.request.path, ev.request.now)
  {}

  // ---------------------------------------------------------------- where a served model came from

  lemma {:induction false} LoadingOrigin(env: Env, ws: seq<World>, evs: seq<Event>, i: nat, t: nat) returns (b: nat)
    requires Run(env, ws, evs) && i < |ws| && t in ws[i].loading
    ensures b < i && evs[b] == Begin(t, ws[i].loading[t]) && forall k :: b < k < i ==> !OfCaller(evs[k], t)
  {
    if i == 0 { StartsBare(env, ws, evs); assert false; }
    else {
      RunStep(env, ws, evs, i - 1);
      if evs[i-1].Begin? && evs[i-1].caller == t { b := i - 1; }
      else { b := LoadingOrigin(env, ws, evs, i - 1, t); }
    }
  }

  /** What one step says about an entry that is there after it. */
  lemma EntryStep(env: Env, w: World, ev: Event, w': World, id: Id)
    requires Sound(env, w.cache) && Next(env, w, ev, w') && id in w'.cache.entries
    ensures ev != Clear && ev != Invalidate(id)
    ensures var e := w'.cache.entries[id];
      || (ev.Begin? && ev.request == Request(id, e.path, e.lastAccess) && |w'.returned| > |w.returned|)
      || (ev.Finish? && ev.caller in w.loading && w.loading[ev.caller] == Request(id, e.path, e.lastAccess))
      || (id in w.cache.entries && w.cache.entries[id] == e)
  {
    match ev
    case Begin(t, r) =>
    case Finish(t) =>
      var r := w.loading[t];
      FinishSound(env, w.cache, r, env.disk(r.path).value, w'.cache);
    case FailLoad(t) =>
    case Invalidate(x) =>
    case Clear =>
  }

  lemma {:induction false} EntryOrigin(env: Env, ws: seq<World>, evs: seq<Event>, i: nat, id: Id)
    returns (b: nat, f: nat)
    requires Run(env, ws, evs) && i < |ws| && id in ws[i].cache.entries
    ensures var e := ws[i].cache.entries[id];
      f < i && Answered(ws, evs, b, f, Request(id, e.path, e.lastAccess)) && Undisturbed(evs, id, f, i)
  {
    if i == 0 { StartsBare(env, ws, evs); assert false; }
    else {
      var n, e := i - 1, ws[i].cache.entries[id];
      EveryRunSound(env, ws, evs, n);
      RunStep(env, ws, evs, n);
      EntryStep(env, ws[n], evs[n], ws[i], id);
      if id in ws[n].cache.entries && ws[n].cache.entries[id] == e { b, f := EntryOrigin(env, ws, evs, n, id); }
      else if evs[n].Begin? { b, f := n, n; }
      else {
        b := LoadingOrigin(env, ws, evs, n, evs[n].caller);
        f := n;
      }
    }
  }

  /** In every interleaving: a request that is answered at once was preceded by a request for the same id
      and path, at most the time to live earlier, that was itself answered, and since that answer the id
      was neither invalidated nor cleared. */
  lemma ServedFresh(env: Env, ws: seq<World>, evs: seq<Event>, i: nat) returns (b: nat, f: nat)
    requires Run(env, ws, evs) && i < |evs| && ServedAtOnce(ws, evs, i)
    ensures f < i && b < |evs| && evs[b].Begin?
    ensures var r, earlier := evs[i].request, evs[b].request;
      && earlier.id == r.id && earlier.path == r.path && r.now - earlier.now <= env.ttl
      && Answered(ws, evs, b, f, earlier) && Undisturbed(evs, r.id, f, i)
  {
    RunStep(env, ws, evs, i);
    ServedIsHit(env, ws[i], evs[i], ws[i+1]);
    b, f := EntryOrigin(env, ws, evs, i, evs[i].request.id);
  }

  // ---------------------------------------------------------------- when a request is served

  lemma {:induction false} RoomCounters(env: Env, additional: nat, c: Cache, c': Cache, n: nat)
    requires MakesRoom(env, additional, c, c', n)
    ensures c'.evictions == c.evictions + n && c'.hits == c.hits && c'.misses == c.misses
    ensures n == 0 ==> c' == c
    decreases n
  {
    if n > 0 {
      var v :| Oldest(c.entries, v) && MakesRoom(env, additional, Evict(c, v), c', n - 1);
      RoomCounters(env, additional, Evict(c, v), c', n - 1);
    }
  }

  /** An insertion counts its evictions; with none the other entries stay. */
  lemma InsertCounters(env: Env, c: Cache, r: Request, m: Model, c': Cache)
    requires Inserts(env, c, r.id, r.path, r.now, m, c')
    ensures c'.hits == c.hits && c'.misses == c.misses && c'.evictions >= c.evictions
    ensures c'.evictions == c.evictions ==>
      forall k :: k in c.entries && k != r.id ==> k in c'.entries && c'.entries[k] == c.entries[k]
  {
    if m.bytes <= env.maxBytes {
      var room, n, trimmed :| MakesRoom(env, m.bytes, c, room, n) && TrimsTo(env, room, trimmed)
        && c' == Stored(trimmed, r.id, Entry(m, r.now, r.path, m.bytes));
      RoomCounters(env, m.bytes, c, room, n);
      TrimCounters(env, room, trimmed);
    }
  }

  lemma TrimCounters(env: Env, c: Cache, c': Cache)
    requires TrimsTo(env, c, c')
    ensures c'.hits == c.hits && c'.misses == c.misses && c'.evictions >= c.evictions
    ensures c'.evictions == c.evictions ==> c' == c
  {}

  /** The step is about the id: a request or a load of it, its invalidation, or a clearing. */
  ghost predicate Concerns(w: World, ev: Event, id: Id) {
    match ev
    case Begin(_, r) => r.id == id
    case Finish(t) => t in w.loading && w.loading[t].id == id
    case FailLoad(_) => false
    case Invalidate(x) => x == id
    case Clear => true
  }

  lemma StepKeepsEntry(env: Env, w: World, ev: Event, w': World, id: Id)
    requires Next(env, w, ev, w')
    ensures w'.cache.evictions >= w.cache.evictions
    ensures !Concerns(w, ev, id) && id in w.cache.entries && w'.cache.evictions == w.cache.evictions ==>
      id in w'.cache.entries && w'.cache.entries[id] == w.cache.entries[id]
  {
    if ev.Finish? {
      var r := w.loading[ev.caller];
      InsertCounters(env, w.cache, r, env.disk(r.path).value, w'.cache);
    }
  }

  lemma {:induction false} EvictionsGrow(env: Env, ws: seq<World>, evs: seq<Event>, i: nat, j: nat)
    requires Run(env, ws, evs) && i <= j < |ws|
    ensures ws[i].cache.evictions <= ws[j].cache.evictions
    decreases j - i
  {
    if i < j {
      EvictionsGrow(env, ws, evs, i, j - 1);
      RunStep(env, ws, evs, j - 1);
      StepKeepsEntry(env, ws[j-1], evs[j-1], ws[j], "");
    }
  }

  lemma {:induction false} EntryKept(env: Env, ws: seq<World>, evs: seq<Event>, i: nat, j: nat, id: Id)
    requires Run(env, ws, evs) && i <= j < |ws| && id in ws[i].cache.entries
    requires ws[j].cache.evictions == ws[i].cache.evictions
    requires forall k :: i <= k < j ==> !Concerns(ws[k], evs[k], id)
    ensures id in ws[j].cache.entries && ws[j].cache.entries[id] == ws[i].cache.entries[id]
    decreases j - i
  {
    if i < j {
      EvictionsGrow(env, ws, evs, i, j - 1);
      EvictionsGrow(env, ws, evs, j - 1, j);
      EntryKept(env, ws, evs, i, j - 1, id);
      RunStep(env, ws, evs, j - 1);
      StepKeepsEntry(env, ws[j-1], evs[j-1], ws[j], id);
    }
  }

  /** After the answer the entry carries the time of its request. */
  lemma AnswerStores(env: Env, ws: seq<World>, evs: seq<Event>, b: nat, f: nat, r: Request)
    requires Run(env, ws, evs) && Answered(ws, evs, b, f, r)
    requires env.disk(r.path).Some? && env.disk(r.path).value.bytes <= env.maxBytes
    requires f == b || (evs[f].caller in ws[f].loading && ws[f].loading[evs[f].caller] == r)
    ensures r.id in ws[f+1].cache.entries
    ensures var e := ws[f+1].cache.entries[r.id]; e.path == r.path && e.lastAccess == r.now
  {
    RunStep(env, ws, evs, f);
    EveryRunSound(env, ws, evs, f);
    if f == b { ServedIsHit(env, ws[f], evs[f], ws[f+1]); }
    else { FinishSound(env, ws[f].cache, r, env.disk(r.path).value, ws[f+1].cache); }
  }

  lemma {:induction false} StillLoading(env: Env, ws: seq<World>, evs: seq<Event>, b: nat, i: nat)
    requires Run(env, ws, evs) && b < i < |ws| && evs[b].Begin? && !ServedAtOnce(ws, evs, b)
    requires forall k :: b < k < i ==> !OfCaller(evs[k], evs[b].caller)
    ensures evs[b].caller in ws[i].loading && ws[i].loading[evs[b].caller] == evs[b].request
    decreases i - b
  {
    RunStep(env, ws, evs, i - 1);
    if i - 1 == b { ServedIsHit(env, ws[b], evs[b], ws[i]); }
    else { StillLoading(env, ws, evs, b, i - 1); }
  }

  lemma AnsweredNotAtOnce(env: Env, ws: seq<World>, evs: seq<Event>, b: nat, f: nat, r: Request)
    requires Run(env, ws, evs) && Answered(ws, evs, b, f, r) && b < f
    ensures !ServedAtOnce(ws, evs, b)
  {
    RunStep(env, ws, evs, f);
    var t := evs[b].caller;
    var origin := LoadingOrigin(env, ws, evs, f, t);
    assert origin == b by {
      if origin < b { assert OfCaller(evs[b], t); }
      if b < origin { assert OfCaller(evs[origin], t); }
    }
    if ServedAtOnce(ws, evs, b) { ServedLeavesIdle(env, ws, evs, b, f); }
  }

  lemma {:induction false} ServedLeavesIdle(env: Env, ws: seq<World>, evs: seq<Event>, b: nat, i: nat)
    requires Run(env, ws, evs) && b < i < |ws| && evs[b].Begin? && ServedAtOnce(ws, evs, b)
    requires forall k :: b < k < i ==> !OfCaller(evs[k], evs[b].caller)
    ensures evs[b].caller !in ws[i].loading
    decreases i - b
  {
    RunStep(env, ws, evs, i - 1);
    if i - 1 == b { ServedIsHit(env, ws[b], evs[b], ws[i]); }
    else { ServedLeavesIdle(env, ws, evs, b, i - 1); }
  }

  /** Conversely: a request at most the time to live after an answered one for the same id and path is
      answered at once, with the model stored at that path, if nothing since that answer was about the
      id, nothing was evicted since, and the model fits the budget. */
  lemma ServedAgain(env: Env, ws: seq<World>, evs: seq<Event>, b: nat, f: nat, i: nat)
    requires Run(env, ws, evs) && f < i < |evs| && b < |evs| && evs[b].Begin? && evs[i].Begin?
    requires Answered(ws, evs, b, f, evs[b].request)
    requires var r, earlier := evs[i].request, evs[b].request;
      earlier.id == r.id && earlier.path == r.path && r.now - earlier.now <= env.ttl
    requires env.disk(evs[b].request.path).Some? && env.disk(evs[b].request.path).value.bytes <= env.maxBytes
    requires ws[i].cache.evictions == ws[f+1].cache.evictions
    requires forall k :: f < k < i ==> !Concerns(ws[k], evs[k], evs[i].request.id)
    ensures ServedAtOnce(ws, evs, i)
    ensures ws[i+1].returned == ws[i].returned + [(evs[i].request.path, env.disk(evs[i].request.path).value)]
  {
    var r := evs[b].request;
    if b < f {
      AnsweredNotAtOnce(env, ws, evs, b, f, r);
      StillLoading(env, ws, evs, b, f);
    }
    AnswerStores(env, ws, evs, b, f, r);
    EntryKept(env, ws, evs, f + 1, i, r.id);
    RunStep(env, ws, evs, i);
    EveryRunSound(env, ws, evs, i);
    ServedIsHit(env, ws[i], evs[i], ws[i+1]);
    assert Genuine(env, ws[i].cache.entries[r.id]);
  }

  // ---------------------------------------------------------------- counters and evictions

  function Begins(evs: seq<Event>): nat {
    if evs == [] then 0 else Begins(evs[..|evs|-1]) + if evs[|evs|-1].Begin? then 1 else 0
  }

  function Finishes(evs: seq<Event>): nat {
    if evs == [] then 0 else Finishes(evs[..|evs|-1]) + if evs[|evs|-1].Finish? then 1 else 0
  }

  lemma StepCounters(env: Env, w: World, ev: Event, w': World)
    requires Next(env, w, ev, w')
    ensures w'.cache.hits + w'.cache.misses == w.cache.hits + w.cache.misses + if ev.Begin? then 1 else 0
    ensures |w'.returned| - w'.cache.hits == |w.returned| - w.cache.hits + if ev.Finish? then 1 else 0
  {
    if ev.Finish? {
      var r := w.loading[ev.caller];
      InsertCounters(env, w.cache, r, env.disk(r.path).value, w'.cache);
    }
  }

  /** Hits and misses add up to the requests, and hits are the answers that no load gave. */
  lemma {:induction false} CountersTell(env: Env, ws: seq<World>, evs: seq<Event>, i: nat)
    requires Run(env, ws, evs) && i < |ws|
    ensures ws[i].cache.hits + ws[i].cache.misses == Begins(evs[..i])
    ensures |ws[i].returned| == ws[i].cache.hits + Finishes(evs[..i])
  {
    if i == 0 { StartsBare(env, ws, evs); }
    else {
      CountersTell(env, ws, evs, i - 1);
      RunStep(env, ws, evs, i - 1);
      StepCounters(env, ws[i-1], evs[i-1], ws[i]);
      assert evs[..i][..i-1] == evs[..i-1];
    }
  }

  /** Room is made by the fewest evictions: before the last one the model did not fit. */
  lemma {:induction false} LastEvictionNeeded(env: Env, additional: nat, c: Cache, c': Cache, n: nat)
    returns (before: Cache, v: Id)
    requires MakesRoom(env, additional, c, c', n) && n > 0
    ensures Oldest(before.entries, v) && c' == Evict(before, v) && before.bytes + additional > env.maxBytes
    decreases n
  {
    v :| Oldest(c.entries, v) && MakesRoom(env, additional, Evict(c, v), c', n - 1);
    if n == 1 { before := c; } else { before, v := LastEvictionNeeded(env, additional, Evict(c, v), c', n - 1); }
  }
}
