/** The circuit breaker of keyhub/llm/balancer.py over runs of picks and outcomes, one after another: what its
    maps and the table keep, and who is eligible. */
module BreakerRuns {
  import opened Prelude
  import opened Balancer

  datatype Event =
    | Picking(provider: string, model: string, strategy: Strategy, now: real, wall: real, commits: bool)
    | Falling(model: string, exclude: string, strategy: Strategy, now: real, wall: real, commits: bool)
    | Succeeding(key: KeyId, latency: Option<nat>, now: real, commits: bool)
    | Failing(key: KeyId, now: real, wall: real, commits: bool)
    | Limiting(key: KeyId, retryAfter: Option<real>, now: real, wall: real, commits: bool)
    | Releasing(key: KeyId, now: real)
    | Exhausting(key: KeyId, now: real)

  /** The state after an event, and the key it picked. */
  function Apply(w: World, ev: Event): (World, Option<KeyRow>) {
    match ev
    case Picking(provider, model, strategy, now, wall, commits) =>
      Pick(w, provider, model, strategy, now, wall, commits)
    case Falling(model, exclude, strategy, now, wall, commits) =>
      PickCross(w, model, exclude, strategy, now, wall, commits)
    case Succeeding(k, latency, now, commits) => (MarkOk(w, k, latency, commits), None)
    case Failing(k, now, wall, commits) => (MarkError(w, k, now, wall, commits), None)
    case Limiting(k, after, now, wall, commits) => (MarkRateLimited(w, k, after, now, wall, commits), None)
    case Releasing(k, now) => (w.(inflight := Release(w.inflight, k)), None)
    case Exhausting(k, now) => (w.(rows := SetStatus(w.rows, k, Exhausted, None)), None)
  }

  predicate IsPick(ev: Event) {
    ev.Picking? || ev.Falling?
  }

  /** The provider a pick asks for, if it asks for one. */
  function Target(ev: Event): Option<string> {
    if ev.Picking? then Some(ev.provider) else None
  }

  // ----- the maps agree -----

  /** A key is in the open map exactly when its failures have reached the threshold; only open keys are
      being probed. */
  ghost predicate MapsAgree(m: Breaker) {
    && (forall k :: k in m.openUntil <==> FailsOf(m, k) >= THRESHOLD)
    && m.halfOpen.Keys <= m.openUntil.Keys
  }

  /** The table does not call a key active while its breaker is not closed. */
  predicate TableAgrees(w: World) {
    forall r :: r in w.rows && r.id in w.mem.openUntil ==> !r.status.Active?
  }

  /** The status of a key whose breaker trips reaches the table. */
  predicate Committed(w: World, ev: Event) {
    (ev.Failing? || ev.Limiting?) && OnFailure(w.mem, ev.key, ev.now).1 ==> ev.commits
  }

  predicate AllCommitted(w: World, evs: seq<Event>)
    decreases |evs|
  {
    evs == [] || (Committed(w, evs[0]) && AllCommitted(Apply(w, evs[0]).0, evs[1..]))
  }

  lemma CleanupAgrees(w: World, now: real, commits: bool)
    requires MapsAgree(w.mem)
    ensures MapsAgree(Cleanup(w, now, commits).mem)
    ensures TableAgrees(w) ==> TableAgrees(Cleanup(w, now, commits))
  {
    var c := Cleanup(w, now, commits);
    if TableAgrees(w) {
      forall r | r in c.rows && r.id in c.mem.openUntil ensures !r.status.Active? {
        var i :| 0 <= i < |c.rows| && c.rows[i] == r;
        assert w.rows[i] in w.rows;
      }
    }
  }

  lemma SelectedAmong(w: World, top: seq<KeyRow>, provider: string, strategy: Strategy, now: real)
    requires top != []
    ensures var (s, r) := SelectAmong(w, top, provider, strategy, now);
            && r in top
            && s.rows == w.rows && s.mem.fails == w.mem.fails && s.mem.openUntil == w.mem.openUntil
            && s.mem.halfOpen.Keys == w.mem.halfOpen.Keys + (if r.status.CircuitBreaker? then {r.id} else {})
  {
    var tripped := Tripped(top);
    if tripped != [] {
      assert tripped[0] in tripped;
    } else {
      var (s, r) := SelectAmong(w, top, provider, strategy, now);
      assert r.status.CircuitBreaker? && r in top ==> r in tripped;
    }
  }

  lemma SelectedRow(w: World, candidates: seq<KeyRow>, provider: string, strategy: Strategy, now: real)
    requires candidates != []
    ensures var (s, r) := Take(w, candidates, provider, strategy, now);
            && r in candidates
            && s.rows == w.rows && s.mem.fails == w.mem.fails && s.mem.openUntil == w.mem.openUntil
            && s.mem.halfOpen.Keys == w.mem.halfOpen.Keys + (if r.status.CircuitBreaker? then {r.id} else {})
  {
    SelectedAmong(w, Top(candidates), provider, strategy, now);
    assert forall r :: r in Top(candidates) ==> r in candidates;
  }

  /** What taking one of the candidates does to a cleaned-up state `c`. */
  ghost predicate TookOne(c: World, candidates: seq<KeyRow>, w': World, r: Option<KeyRow>) {
    && w'.rows == c.rows && w'.mem.fails == c.mem.fails && w'.mem.openUntil == c.mem.openUntil
    && w'.mem.halfOpen.Keys ==
       c.mem.halfOpen.Keys + (if r.Some? && r.value.status.CircuitBreaker? then {r.value.id} else {})
    && (r.None? <==> candidates == [])
    && (r.Some? ==> r.value in candidates)
  }

  lemma PickTakes(w: World, ev: Event)
    requires ev.Picking?
    ensures var (c, found) := Query(w, Some(ev.provider), ev.model, ev.now, ev.wall, ev.commits);
            TookOne(c, found, Apply(w, ev).0, Apply(w, ev).1)
  {
    var (c, found) := Query(w, Some(ev.provider), ev.model, ev.now, ev.wall, ev.commits);
    if found != [] { SelectedRow(c, found, ev.provider, ev.strategy, ev.now); }
  }

  lemma FallTakes(w: World, ev: Event)
    requires ev.Falling?
    ensures var (c, found) := Query(w, None, ev.model, ev.now, ev.wall, ev.commits);
            TookOne(c, Without(found, ev.exclude), Apply(w, ev).0, Apply(w, ev).1)
  {
    var (c, found) := Query(w, None, ev.model, ev.now, ev.wall, ev.commits);
    var others := Without(found, ev.exclude);
    if others != [] {
      var p := LeastProvider(others);
      SelectedRow(c, OfProvider(others, p), p, ev.strategy, ev.now);
    }
  }

  lemma SelectedIsLegal(w: World, r: KeyRow, provider: Option<string>, model: string, now: real, wall: real,
                        commits: bool)
    requires r in Query(w, provider, model, now, wall, commits).1
    ensures var c := Cleanup(w, now, commits);
            && r in c.rows && Selected(c.mem, r, provider, model, now, wall)
            && PhaseOf(c.mem, r.id, now) == PhaseOf(w.mem, r.id, now)
  {
  }

  /** What a pick does, and that it picks a key whose breaker is closed or has come up for a probe. */
  lemma PickEffect(w: World, ev: Event)
    requires IsPick(ev)
    ensures var (w', r) := Apply(w, ev);
            var c := Cleanup(w, ev.now, ev.commits);
            && w'.rows == c.rows && w'.mem.fails == c.mem.fails && w'.mem.openUntil == c.mem.openUntil
            && w'.mem.halfOpen.Keys ==
               c.mem.halfOpen.Keys + (if r.Some? && r.value.status.CircuitBreaker? then {r.value.id} else {})
            && (r.Some? ==>
                  && r.value in c.rows
                  && Selected(c.mem, r.value, Target(ev), ev.model, ev.now, ev.wall)
                  && PhaseOf(c.mem, r.value.id, ev.now) == PhaseOf(w.mem, r.value.id, ev.now))
  {
    var (w', r) := Apply(w, ev);
    if ev.Picking? { PickTakes(w, ev); } else { FallTakes(w, ev); }
    if r.Some? { SelectedIsLegal(w, r.value, Target(ev), ev.model, ev.now, ev.wall, ev.commits); }
  }

  lemma FailureKeepsMaps(m: Breaker, k: KeyId, now: real)
    requires MapsAgree(m)
    ensures MapsAgree(OnFailure(m, k, now).0)
  {
  }

  lemma ApplyKeepsMaps(w: World, ev: Event)
    requires MapsAgree(w.mem)
    ensures MapsAgree(Apply(w, ev).0.mem)
  {
    if IsPick(ev) {
      CleanupAgrees(w, ev.now, ev.commits);
      PickEffect(w, ev);
    } else if ev.Failing? || ev.Limiting? {
      FailureKeepsMaps(w.mem, ev.key, ev.now);
      assert Apply(w, ev).0.mem == OnFailure(w.mem, ev.key, ev.now).0;
    }
  }

  lemma SetStatusRow(rows: seq<KeyRow>, k: KeyId, status: Status, cooldown: Option<real>, r: KeyRow)
    requires r in SetStatus(rows, k, status, cooldown)
    ensures if r.id == k then r.status == status else r in rows
  {
    var i :| 0 <= i < |rows| && SetStatus(rows, k, status, cooldown)[i] == r;
  }

  lemma SettledRow(rows: seq<KeyRow>, k: KeyId, latency: Option<nat>, r: KeyRow)
    requires var active := SetStatus(rows, k, Active, None);
             r in if latency.Some? then SetLatency(active, k, latency.value) else active
    ensures r.id != k ==> r in rows
  {
    var active := SetStatus(rows, k, Active, None);
    if latency.Some? {
      var i :| 0 <= i < |active| && SetLatency(active, k, latency.value)[i] == r;
      SetStatusRow(rows, k, Active, None, active[i]);
    } else {
      SetStatusRow(rows, k, Active, None, r);
    }
  }

  lemma MarkKeepsTable(w: World, k: KeyId, status: Status, cooldown: real, now: real, wall: real, commits: bool)
    requires MapsAgree(w.mem) && TableAgrees(w) && !status.Active?
    requires OnFailure(w.mem, k, now).1 ==> commits
    ensures TableAgrees(MarkFailure(w, k, status, cooldown, now, wall, commits))
  {
    var w' := MarkFailure(w, k, status, cooldown, now, wall, commits);
    forall r | r in w'.rows && r.id in w'.mem.openUntil ensures !r.status.Active? {
      if commits {
        if OnFailure(w.mem, k, now).1 {
          SetStatusRow(w.rows, k, CircuitBreaker, Some(wall + COOLDOWN), r);
        } else {
          SetStatusRow(w.rows, k, status, Some(wall + cooldown), r);
        }
      }
    }
  }

  lemma ApplyKeepsTable(w: World, ev: Event)
    requires MapsAgree(w.mem) && TableAgrees(w) && Committed(w, ev)
    ensures TableAgrees(Apply(w, ev).0)
  {
    match ev
    case Picking(_, _, _, now, _, commits) =>
      CleanupAgrees(w, now, commits);
      PickEffect(w, ev);
    case Falling(_, _, _, now, _, commits) =>
      CleanupAgrees(w, now, commits);
      PickEffect(w, ev);
    case Failing(k, now, wall, commits) => MarkKeepsTable(w, k, Error, ERROR_COOLDOWN, now, wall, commits);
    case Limiting(k, after, now, wall, commits) =>
      MarkKeepsTable(w, k, RateLimited, Wait(after), now, wall, commits);
    case Succeeding(k, latency, _, commits) =>
      var w' := Apply(w, ev).0;
      forall r | r in w'.rows && r.id in w'.mem.openUntil ensures !r.status.Active? {
        if commits { SettledRow(w.rows, k, latency, r); }
      }
    case Releasing(_, _) =>
    case Exhausting(k, _) =>
      var w' := Apply(w, ev).0;
      forall r | r in w'.rows && r.id in w'.mem.openUntil ensures !r.status.Active? {
        SetStatusRow(w.rows, k, Exhausted, None, r);
      }
  }

  function After(w: World, evs: seq<Event>): World
    decreases |evs|
  {
    if evs == [] then w else After(Apply(w, evs[0]).0, evs[1..])
  }

  /** The maps agree after every run, failed table updates or not. */
  lemma {:induction false} MapsAlwaysAgree(w: World, evs: seq<Event>)
    requires MapsAgree(w.mem)
    ensures MapsAgree(After(w, evs).mem)
    decreases |evs|
  {
    if evs != [] {
      ApplyKeepsMaps(w, evs[0]);
      MapsAlwaysAgree(Apply(w, evs[0]).0, evs[1..]);
    }
  }

  /** As long as the status of every key that trips reaches the table, the table calls no key active whose
      breaker is not closed: in every run, from the empty breaker on. */
  lemma {:induction false} TableAlwaysAgrees(w: World, evs: seq<Event>)
    requires MapsAgree(w.mem) && TableAgrees(w) && AllCommitted(w, evs)
    ensures TableAgrees(After(w, evs))
    decreases |evs|
  {
    if evs != [] {
      ApplyKeepsMaps(w, evs[0]);
      ApplyKeepsTable(w, evs[0]);
      TableAlwaysAgrees(Apply(w, evs[0]).0, evs[1..]);
    }
  }

  const CLOSED := Breaker(map[], map[], map[])

  lemma EmptyBreakerAgrees(w: World)
    requires w.mem == CLOSED
    ensures MapsAgree(w.mem) && TableAgrees(w)
  {
  }

  // ----- healing -----

  /** Who is eligible, read off the state before the query. */
  predicate Eligible(m: Breaker, r: KeyRow, provider: Option<string>, model: string, now: real, wall: real,
                     commits: bool) {
    var probeable := r.id in m.openUntil && now >= m.openUntil[r.id] - COOLDOWN / 2.0 && r.id !in m.halfOpen;
    var over := r.id in m.openUntil && now >= m.openUntil[r.id];
    && (provider.None? || r.provider == provider.value)
    && (model == "" || r.allowedModels == [] || model in r.allowedModels)
    && match r.status
       case Active =>
         (r.cooldownUntil.Some? ==> r.cooldownUntil.value < wall)
         && (r.id !in m.openUntil || over || probeable)
       case CircuitBreaker => if over then commits else probeable
       case _ => false
  }

  function Seen(m: Breaker, r: KeyRow, now: real, commits: bool): KeyRow {
    if commits then Heal(r, Expired(m, now)) else r
  }

  /** The query returns exactly the eligible rows.  In particular a tripped key is eligible from the moment
      its opening has run out, provided the table update goes through, and keys with status error or
      rate_limited are never eligible, however long ago their cooldown ended. */
  lemma QueryIsEligibility(w: World, provider: Option<string>, model: string, now: real, wall: real, commits: bool)
    ensures var found := Query(w, provider, model, now, wall, commits).1;
            && (forall r :: r in w.rows ==>
                              (Seen(w.mem, r, now, commits) in found
                               <==> Eligible(w.mem, r, provider, model, now, wall, commits)))
            && (forall x :: x in found ==> exists r :: r in w.rows && x == Seen(w.mem, r, now, commits))
  {
    var (c, found) := Query(w, provider, model, now, wall, commits);
    forall r | r in w.rows
      ensures Seen(w.mem, r, now, commits) in found <==> Eligible(w.mem, r, provider, model, now, wall, commits)
    {
      var i :| 0 <= i < |w.rows| && w.rows[i] == r;
      assert c.rows[i] == Seen(w.mem, r, now, commits);
      SelectedIffEligible(w, r, provider, model, now, wall, commits);
    }
    forall x | x in found ensures exists r :: r in w.rows && x == Seen(w.mem, r, now, commits) {
      var i :| 0 <= i < |c.rows| && c.rows[i] == x;
      assert w.rows[i] in w.rows && x == Seen(w.mem, w.rows[i], now, commits);
    }
  }

  lemma SelectedIffEligible(w: World, r: KeyRow, provider: Option<string>, model: string, now: real, wall: real,
                            commits: bool)
    ensures Selected(Cleanup(w, now, commits).mem, Seen(w.mem, r, now, commits), provider, model, now, wall)
       <==> Eligible(w.mem, r, provider, model, now, wall, commits)
  {
  }

  /** A tripped key is found again by any query at or after the end of its opening if and only if the maps
      still know it and the update goes through: one whose opening is not in the maps, as after a restart,
      stays out for good. */
  lemma TrippedKeyHeals(w: World, r: KeyRow, now: real, wall: real, commits: bool)
    requires r in w.rows && r.status.CircuitBreaker? && (r.id in w.mem.openUntil ==> now >= w.mem.openUntil[r.id])
    ensures r.(status := Active, cooldownUntil := None) in Query(w, Some(r.provider), "", now, wall, commits).1
            || Seen(w.mem, r, now, commits) !in Query(w, Some(r.provider), "", now, wall, commits).1
    ensures Seen(w.mem, r, now, commits) in Query(w, Some(r.provider), "", now, wall, commits).1
       <==> r.id in w.mem.openUntil && commits
  {
    QueryIsEligibility(w, Some(r.provider), "", now, wall, commits);
  }
}
