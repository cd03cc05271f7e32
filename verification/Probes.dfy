/** One probe per opening of the circuit breaker of keyhub/llm/balancer.py: exactly when the picks keep to it. */
module Probes {
  import opened Prelude
  import opened Balancer
  import opened BreakerRuns

  /** The times at which `k` is picked. */
  function Picks(w: World, evs: seq<Event>, k: KeyId): seq<real>
    decreases |evs|
  {
    if evs == [] then [] else
    var (w', r) := Apply(w, evs[0]);
    if r.Some? && r.value.id == k then [evs[0].now] + Picks(w', evs[1..], k) else Picks(w', evs[1..], k)
  }

  predicate Timed(evs: seq<Event>, start: real)
    decreases |evs|
  {
    evs == [] || (start <= evs[0].now && Timed(evs[1..], evs[0].now))
  }

  /** A call on `k` ends. */
  predicate Ends(ev: Event, k: KeyId) {
    (ev.Succeeding? || ev.Failing? || ev.Limiting?) && ev.key == k
  }

  /** No call on `k` ends during the run. */
  predicate Quiet(evs: seq<Event>, k: KeyId) {
    forall i :: 0 <= i < |evs| ==> !Ends(evs[i], k)
  }

  predicate NotBefore(ps: seq<real>, start: real) {
    forall i :: 0 <= i < |ps| ==> ps[i] >= start
  }

  lemma {:induction false} PicksAreTimed(w: World, evs: seq<Event>, k: KeyId, start: real)
    requires Timed(evs, start)
    ensures NotBefore(Picks(w, evs, k), start)
    decreases |evs|
  {
    if evs != [] {
      var (w', r) := Apply(w, evs[0]);
      var rest := Picks(w', evs[1..], k);
      PicksAreTimed(w', evs[1..], k, evs[0].now);
      assert Picks(w, evs, k) == if r.Some? && r.value.id == k then [evs[0].now] + rest else rest;
      NotBeforeBoth(evs[0].now, rest, start);
    }
  }

  lemma NotBeforeBoth(now: real, ps: seq<real>, start: real)
    requires NotBefore(ps, now) && start <= now
    ensures NotBefore(ps, start) && NotBefore([now] + ps, start)
  {
  }

  // ----- one step -----

  predicate NoneActive(rows: seq<KeyRow>, k: KeyId) {
    forall r :: r in rows && r.id == k ==> !r.status.Active?
  }

  /** The opening of `k` is respected: a probe is out, or the table does not call the key active. */
  predicate Guarded(w: World, k: KeyId) {
    k in w.mem.halfOpen || NoneActive(w.rows, k)
  }

  /** An unexpired opening of `k` stays as it is; if `k` was picked, it was in the second half of the opening,
      unclaimed, and is claimed now. */
  ghost predicate KeepsOpening(w: World, w': World, r: Option<KeyRow>, k: KeyId, now: real) {
    && k in w.mem.openUntil && k in w'.mem.openUntil && w'.mem.openUntil[k] == w.mem.openUntil[k]
    && (k in w.mem.halfOpen ==> k in w'.mem.halfOpen)
    && (r.Some? && r.value.id == k ==>
          && now >= w.mem.openUntil[k] - COOLDOWN / 2.0
          && k !in w.mem.halfOpen && k in w'.mem.halfOpen)
  }

  lemma ProbedOnly(c: World, w': World, r: Option<KeyRow>, k: KeyId, provider: Option<string>, model: string,
                   now: real, wall: real)
    requires Guarded(c, k) && k in c.mem.openUntil && w'.mem.openUntil == c.mem.openUntil && now < c.mem.openUntil[k]
    requires w'.mem.halfOpen.Keys ==
             c.mem.halfOpen.Keys + (if r.Some? && r.value.status.CircuitBreaker? then {r.value.id} else {})
    requires r.Some? ==> r.value in c.rows && Selected(c.mem, r.value, provider, model, now, wall)
    ensures KeepsOpening(c, w', r, k, now)
  {
  }

  lemma CleanupKeepsOpening(w: World, now: real, commits: bool, k: KeyId)
    requires k in w.mem.openUntil && now < w.mem.openUntil[k]
    ensures var c := Cleanup(w, now, commits);
            && k in c.mem.openUntil && c.mem.openUntil[k] == w.mem.openUntil[k]
            && (k in c.mem.halfOpen <==> k in w.mem.halfOpen)
  {
  }

  /** Clean-up leaves the rows of an unexpired key alone. */
  lemma CleanupKeepsRows(w: World, now: real, commits: bool, k: KeyId)
    requires k in w.mem.openUntil && now < w.mem.openUntil[k] && NoneActive(w.rows, k)
    ensures NoneActive(Cleanup(w, now, commits).rows, k)
  {
    var c := Cleanup(w, now, commits);
    forall r | r in c.rows && r.id == k ensures !r.status.Active? {
      var i :| 0 <= i < |c.rows| && c.rows[i] == r;
      assert w.rows[i] in w.rows;
    }
  }

  lemma PickFromCleaned(w: World, ev: Event, k: KeyId)
    requires IsPick(ev) && Guarded(Cleanup(w, ev.now, ev.commits), k)
    requires var c := Cleanup(w, ev.now, ev.commits);
             k in c.mem.openUntil && ev.now < c.mem.openUntil[k]
    ensures var (w', r) := Apply(w, ev);
            KeepsOpening(Cleanup(w, ev.now, ev.commits), w', r, k, ev.now)
  {
    PickEffect(w, ev);
    ProbedOnly(Cleanup(w, ev.now, ev.commits), Apply(w, ev).0, Apply(w, ev).1, k,
               Target(ev), ev.model, ev.now, ev.wall);
  }

  /** An event that is not the end of a call on `k` leaves an unexpired, guarded opening of `k` as it is. */
  lemma OpeningStep(w: World, ev: Event, k: KeyId)
    requires Guarded(w, k) && k in w.mem.openUntil && ev.now < w.mem.openUntil[k] && !Ends(ev, k)
    ensures var (w', r) := Apply(w, ev);
            KeepsOpening(w, w', r, k, ev.now)
  {
    if IsPick(ev) {
      CleanupKeepsOpening(w, ev.now, ev.commits, k);
      if NoneActive(w.rows, k) { CleanupKeepsRows(w, ev.now, ev.commits, k); }
      PickFromCleaned(w, ev, k);
    }
  }

  /** And no row of `k` becomes active by it. */
  lemma RowsStep(w: World, ev: Event, k: KeyId)
    requires NoneActive(w.rows, k) && k in w.mem.openUntil && ev.now < w.mem.openUntil[k] && !Ends(ev, k)
    ensures NoneActive(Apply(w, ev).0.rows, k)
  {
    if IsPick(ev) {
      CleanupKeepsRows(w, ev.now, ev.commits, k);
      PickEffect(w, ev);
    } else {
      var w' := Apply(w, ev).0;
      forall r | r in w'.rows && r.id == k ensures !r.status.Active? { MarkedRow(w, ev, r); }
    }
  }

  /** A row whose key the event is not about is an old one. */
  lemma MarkedRow(w: World, ev: Event, r: KeyRow)
    requires !IsPick(ev) && r in Apply(w, ev).0.rows
    ensures r.id != ev.key ==> r in w.rows
    ensures ev.Exhausting? && r.id == ev.key ==> r.status.Exhausted?
  {
    match ev
    case Succeeding(j, latency, _, commits) => if commits { SettledRow(w.rows, j, latency, r); }
    case Failing(j, now, wall, commits) =>
      if commits { FailedRow(w, j, Error, ERROR_COOLDOWN, now, wall, r); }
    case Limiting(j, after, now, wall, commits) =>
      if commits { FailedRow(w, j, RateLimited, Wait(after), now, wall, r); }
    case Releasing(_, _) =>
    case Exhausting(j, _) => SetStatusRow(w.rows, j, Exhausted, None, r);
  }

  lemma FailedRow(w: World, k: KeyId, status: Status, cooldown: real, now: real, wall: real, r: KeyRow)
    requires r in MarkFailure(w, k, status, cooldown, now, wall, true).rows
    ensures if r.id != k then r in w.rows else r.status == if OnFailure(w.mem, k, now).1 then CircuitBreaker else status
  {
    if OnFailure(w.mem, k, now).1 {
      SetStatusRow(w.rows, k, CircuitBreaker, Some(wall + COOLDOWN), r);
    } else {
      SetStatusRow(w.rows, k, status, Some(wall + cooldown), r);
    }
  }

  // ----- runs -----

  /** None in the first half, and before `until` at most one, or none if a probe is already out. */
  predicate Respects(ps: seq<real>, until: real, claimed: bool) {
    && (forall i :: 0 <= i < |ps| ==> ps[i] >= until - COOLDOWN / 2.0)
    && (forall i :: (if claimed then 0 else 1) <= i < |ps| ==> ps[i] >= until)
  }

  lemma {:induction false} ProbeOnce(w: World, evs: seq<Event>, k: KeyId, start: real)
    requires Guarded(w, k) && k in w.mem.openUntil && Timed(evs, start) && Quiet(evs, k)
    ensures Respects(Picks(w, evs, k), w.mem.openUntil[k], k in w.mem.halfOpen)
    decreases |evs|
  {
    if evs != [] {
      var ev := evs[0];
      if ev.now >= w.mem.openUntil[k] {
        PicksAreTimed(w, evs, k, ev.now);
      } else {
        OpeningStep(w, ev, k);
        if NoneActive(w.rows, k) { RowsStep(w, ev, k); }
        ProbeRest(w, evs, k);
      }
    }
  }

  lemma {:induction false} ProbeRest(w: World, evs: seq<Event>, k: KeyId)
    requires evs != [] && Timed(evs, evs[0].now) && Quiet(evs, k) && k in w.mem.openUntil
    requires var (w', r) := Apply(w, evs[0]);
             Guarded(w', k) && KeepsOpening(w, w', r, k, evs[0].now)
    ensures Respects(Picks(w, evs, k), w.mem.openUntil[k], k in w.mem.halfOpen)
    decreases |evs|, 0
  {
    var (w', r) := Apply(w, evs[0]);
    var rest := evs[1..];
    assert Quiet(rest, k) by {
      forall i | 0 <= i < |rest| ensures rest[i] == evs[i + 1] {}
    }
    ProbeOnce(w', rest, k, evs[0].now);
    var ps := Picks(w', rest, k);
    if r.Some? && r.value.id == k {
      assert Picks(w, evs, k) == [evs[0].now] + ps;
      FirstProbe(ps, w.mem.openUntil[k], evs[0].now);
    } else {
      assert Picks(w, evs, k) == ps;
      LessClaimed(ps, w.mem.openUntil[k], k in w.mem.halfOpen, k in w'.mem.halfOpen);
    }
  }

  lemma FirstProbe(ps: seq<real>, until: real, now: real)
    requires Respects(ps, until, true) && now >= until - COOLDOWN / 2.0
    ensures Respects([now] + ps, until, false)
  {
  }

  lemma LessClaimed(ps: seq<real>, until: real, before: bool, after: bool)
    requires Respects(ps, until, after) && (before ==> after)
    ensures Respects(ps, until, before)
  {
  }

  // ----- what an active row allows -----

  /** Identifiers are primary keys. */
  predicate Keyed(rows: seq<KeyRow>) {
    forall r, s :: r in rows && s in rows && r.id == s.id ==> r == s
  }

  /** The other keys run out of budget, one after another. */
  function Exhaustions(rows: seq<KeyRow>, k: KeyId, now: real): seq<Event> {
    if rows == [] then []
    else if rows[0].id == k then Exhaustions(rows[1..], k, now)
    else [Exhausting(rows[0].id, now)] + Exhaustions(rows[1..], k, now)
  }

  predicate Listed(rows: seq<KeyRow>, id: KeyId) {
    exists i :: 0 <= i < |rows| && rows[i].id == id
  }

  lemma {:induction false} LeftAlone(w: World, todo: seq<KeyRow>, k: KeyId, now: real)
    requires forall r :: r in w.rows ==> r.id == k || r.status.Exhausted? || Listed(todo, r.id)
    ensures var w' := After(w, Exhaustions(todo, k, now));
            && w'.mem == w.mem
            && (forall r :: r in w'.rows ==> r.status.Exhausted? || (r.id == k && r in w.rows))
            && (forall r :: r in w.rows && r.id == k ==> r in w'.rows)
    decreases |todo|
  {
    if todo != [] {
      var j := todo[0].id;
      var evs := Exhaustions(todo, k, now);
      var w1 := if j == k then w else Apply(w, Exhausting(j, now)).0;
      forall r | r in w1.rows ensures r.id == k || r.status.Exhausted? || Listed(todo[1..], r.id) {
        if j != k { MarkedRow(w, Exhausting(j, now), r); }
        if r in w.rows && Listed(todo, r.id) && r.id != j {
          var i :| 0 <= i < |todo| && todo[i].id == r.id;
          assert todo[1..][i - 1].id == r.id;
        }
      }
      forall r | r in w.rows && r.id == k ensures r in w1.rows {
        var i :| 0 <= i < |w.rows| && w.rows[i] == r;
        assert w1.rows[i] == r;
      }
      forall r | r in w1.rows && r.id == k ensures r in w.rows {
        if j != k { MarkedRow(w, Exhausting(j, now), r); }
      }
      if j != k { assert evs[0] == Exhausting(j, now) && evs[1..] == Exhaustions(todo[1..], k, now); }
      LeftAlone(w1, todo[1..], k, now);
    }
  }

  /** The only key left to pick. */
  predicate Alone(w: World, r: KeyRow) {
    r in w.rows && r.status.Active? && forall s :: s in w.rows ==> s == r || s.status.Exhausted?
  }

  lemma CleanupKeepsAlone(w: World, r: KeyRow, now: real)
    requires Alone(w, r)
    ensures Cleanup(w, now, true).rows == w.rows
  {
    forall i | 0 <= i < |w.rows| ensures Heal(w.rows[i], Expired(w.mem, now)) == w.rows[i] {
      assert w.rows[i] in w.rows;
    }
  }

  /** In the second half of an opening, a row that the table still calls active is picked without being
      claimed, so that the next pick returns it again. */
  lemma ActiveRowIsProbedFreely(w: World, r: KeyRow, now: real, wall: real)
    requires Alone(w, r) && Cooled(r, wall) && PhaseOf(w.mem, r.id, now).HalfOpen?
    ensures var (w', chosen) := Apply(w, Picking(r.provider, "", RoundRobin, now, wall, true));
            && chosen == Some(r) && w'.rows == w.rows
            && r.id in w'.mem.openUntil && w'.mem.openUntil[r.id] == w.mem.openUntil[r.id]
            && r.id !in w'.mem.halfOpen
  {
    var ev := Picking(r.provider, "", RoundRobin, now, wall, true);
    var (c, found) := Query(w, Some(r.provider), "", now, wall, true);
    CleanupKeepsAlone(w, r, now);
    CleanupKeepsOpening(w, now, true, r.id);
    assert r in found;
    PickTakes(w, ev);
  }

  function Attempts(r: KeyRow, wall: real, times: seq<real>): seq<Event> {
    if times == [] then []
    else [Picking(r.provider, "", RoundRobin, times[0], wall, true)] + Attempts(r, wall, times[1..])
  }

  predicate SecondHalf(times: seq<real>, until: real) {
    forall i :: 0 <= i < |times| ==> until - COOLDOWN / 2.0 <= times[i] < until
  }

  lemma PicksStep(w: World, ev: Event, rest: seq<Event>, k: KeyId)
    ensures var (w', r) := Apply(w, ev);
            Picks(w, [ev] + rest, k)
            == if r.Some? && r.value.id == k then [ev.now] + Picks(w', rest, k) else Picks(w', rest, k)
  {
    assert ([ev] + rest)[0] == ev && ([ev] + rest)[1..] == rest;
  }

  lemma FreeProbe(w: World, r: KeyRow, wall: real, at: real, rest: seq<Event>) returns (w': World)
    requires Alone(w, r) && Cooled(r, wall) && r.id in w.mem.openUntil && r.id !in w.mem.halfOpen
    requires w.mem.openUntil[r.id] - COOLDOWN / 2.0 <= at < w.mem.openUntil[r.id]
    ensures w'.rows == w.rows && r.id in w'.mem.openUntil && w'.mem.openUntil[r.id] == w.mem.openUntil[r.id]
    ensures r.id !in w'.mem.halfOpen
    ensures Picks(w, [Picking(r.provider, "", RoundRobin, at, wall, true)] + rest, r.id) == [at] + Picks(w', rest, r.id)
  {
    var ev := Picking(r.provider, "", RoundRobin, at, wall, true);
    ActiveRowIsProbedFreely(w, r, at, wall);
    PicksStep(w, ev, rest, r.id);
    w' := Apply(w, ev).0;
  }

  lemma {:induction false} FreeProbes(w: World, r: KeyRow, wall: real, times: seq<real>)
    requires Alone(w, r) && Cooled(r, wall)
    requires r.id in w.mem.openUntil && r.id !in w.mem.halfOpen && SecondHalf(times, w.mem.openUntil[r.id])
    ensures Picks(w, Attempts(r, wall, times), r.id) == times
    decreases |times|
  {
    if times != [] {
      var rest := Attempts(r, wall, times[1..]);
      var w' := FreeProbe(w, r, wall, times[0], rest);
      assert Attempts(r, wall, times) == [Picking(r.provider, "", RoundRobin, times[0], wall, true)] + rest;
      FreeProbes(w', r, wall, times[1..]);
    }
  }

  lemma {:induction false} AfterExhaustions(w: World, todo: seq<KeyRow>, k: KeyId, now: real, tail: seq<Event>)
    ensures Picks(w, Exhaustions(todo, k, now) + tail, k) == Picks(After(w, Exhaustions(todo, k, now)), tail, k)
    decreases |todo|
  {
    var evs := Exhaustions(todo, k, now);
    if evs == [] {
      assert evs + tail == tail;
    } else if todo[0].id == k {
      AfterExhaustions(w, todo[1..], k, now, tail);
    } else {
      var rest := Exhaustions(todo[1..], k, now);
      var ev := Exhausting(todo[0].id, now);
      assert evs == [ev] + rest && evs + tail == [ev] + (rest + tail);
      var w' := PastExhausting(w, ev, rest, rest + tail, k);
      AfterExhaustions(w', todo[1..], k, now, tail);
    }
  }

  lemma PastExhausting(w: World, ev: Event, rest: seq<Event>, all: seq<Event>, k: KeyId) returns (w': World)
    requires ev.Exhausting?
    ensures Picks(w, [ev] + all, k) == Picks(w', all, k) && After(w, [ev] + rest) == After(w', rest)
  {
    PicksStep(w, ev, all, k);
    assert ([ev] + rest)[0] == ev && ([ev] + rest)[1..] == rest;
    w' := Apply(w, ev).0;
  }

  /** Once the other keys are out of budget, every pick in the second half of the opening returns the key. */
  lemma ActiveKeyIsProbedFreely(w: World, r: KeyRow, start: real, wall: real, times: seq<real>)
    requires Keyed(w.rows) && r in w.rows && r.status.Active? && Cooled(r, wall)
    requires r.id in w.mem.openUntil && r.id !in w.mem.halfOpen && SecondHalf(times, w.mem.openUntil[r.id])
    ensures Picks(w, Exhaustions(w.rows, r.id, start) + Attempts(r, wall, times), r.id) == times
  {
    LeftAlone(w, w.rows, r.id, start);
    AfterExhaustions(w, w.rows, r.id, start, Attempts(r, wall, times));
    FreeProbes(After(w, Exhaustions(w.rows, r.id, start)), r, wall, times);
  }

  // ----- the exact condition -----

  lemma {:induction false} TwiceIsTimed(rows: seq<KeyRow>, r: KeyRow, start: real, at: real, wall: real)
    requires start <= at
    ensures Timed(Exhaustions(rows, r.id, start) + Attempts(r, wall, [at, at]), start)
    ensures Quiet(Exhaustions(rows, r.id, start) + Attempts(r, wall, [at, at]), r.id)
    decreases |rows|
  {
    var tail := Attempts(r, wall, [at, at]);
    var p := Picking(r.provider, "", RoundRobin, at, wall, true);
    assert [at, at][1..] == [at] && [at][1..] == [];
    assert Attempts(r, wall, [at]) == [p] + Attempts(r, wall, []);
    assert tail == [p] + Attempts(r, wall, [at]);
    assert tail[1..] == [p] && [p][1..] == [];
    var evs := Exhaustions(rows, r.id, start);
    if rows == [] {
      assert evs + tail == tail;
    } else {
      TwiceIsTimed(rows[1..], r, start, at, wall);
      var rest := Exhaustions(rows[1..], r.id, start) + tail;
      if rows[0].id != r.id {
        var ev := Exhausting(rows[0].id, start);
        assert evs + tail == [ev] + rest && ([ev] + rest)[1..] == rest;
      }
    }
  }

  /** Every run from here on, until a call on `k` ends, respects its opening. */
  ghost predicate OneProbe(w: World, k: KeyId, start: real)
    requires k in w.mem.openUntil
  {
    forall evs :: Timed(evs, start) && Quiet(evs, k) ==>
                    Respects(Picks(w, evs, k), w.mem.openUntil[k], k in w.mem.halfOpen)
  }

  /** An opening is respected by every run from here on if and only if a probe is out or no row of the key is
      active: whatever the other keys do, and whichever updates of the table go through. */
  lemma OneProbeIff(w: World, k: KeyId, start: real)
    requires Keyed(w.rows) && k in w.mem.openUntil && start <= w.mem.openUntil[k] - COOLDOWN / 2.0
    ensures OneProbe(w, k, start) <==> Guarded(w, k)
  {
    if Guarded(w, k) {
      forall evs | Timed(evs, start) && Quiet(evs, k)
        ensures Respects(Picks(w, evs, k), w.mem.openUntil[k], k in w.mem.halfOpen)
      {
        ProbeOnce(w, evs, k, start);
      }
    } else {
      var r :| r in w.rows && r.id == k && r.status.Active?;
      var evs := TwoProbes(w, r, start);
      assert !Respects(Picks(w, evs, k), w.mem.openUntil[k], k in w.mem.halfOpen);
    }
  }

  /** A run in which an active key is picked twice at the beginning of the second half. */
  lemma TwoProbes(w: World, r: KeyRow, start: real) returns (evs: seq<Event>)
    requires Keyed(w.rows) && r in w.rows && r.status.Active?
    requires r.id in w.mem.openUntil && r.id !in w.mem.halfOpen && start <= w.mem.openUntil[r.id] - COOLDOWN / 2.0
    ensures Timed(evs, start) && Quiet(evs, r.id)
    ensures var ps := Picks(w, evs, r.id);
            |ps| == 2 && ps[1] < w.mem.openUntil[r.id]
  {
    var at := w.mem.openUntil[r.id] - COOLDOWN / 2.0;
    var wall := if r.cooldownUntil.Some? then r.cooldownUntil.value + 1.0 else 0.0;
    evs := Exhaustions(w.rows, r.id, start) + Attempts(r, wall, [at, at]);
    TwiceIsTimed(w.rows, r, start, at, wall);
    ActiveKeyIsProbedFreely(w, r, start, wall, [at, at]);
  }

  predicate Trips(w: World, ev: Event) {
    (ev.Failing? || ev.Limiting?) && OnFailure(w.mem, ev.key, ev.now).1
  }

  /** What a trip makes of breaker and table. */
  ghost predicate TripsTo(w: World, w': World, k: KeyId, now: real, wall: real, commits: bool) {
    && w'.rows == (if commits then SetStatus(w.rows, k, CircuitBreaker, Some(wall + COOLDOWN)) else w.rows)
    && k in w'.mem.openUntil && w'.mem.openUntil[k] == now + COOLDOWN && k !in w'.mem.halfOpen
  }

  lemma TripOf(w: World, k: KeyId, status: Status, cooldown: real, now: real, wall: real, commits: bool)
    requires OnFailure(w.mem, k, now).1
    ensures TripsTo(w, MarkFailure(w, k, status, cooldown, now, wall, commits), k, now, wall, commits)
  {
  }

  lemma TripResult(w: World, ev: Event)
    requires Trips(w, ev)
    ensures TripsTo(w, Apply(w, ev).0, ev.key, ev.now, ev.wall, ev.commits)
  {
    match ev
    case Failing(k, now, wall, commits) => TripOf(w, k, Error, ERROR_COOLDOWN, now, wall, commits);
    case Limiting(k, after, now, wall, commits) => TripOf(w, k, RateLimited, Wait(after), now, wall, commits);
  }

  function Stamped(r: KeyRow, k: KeyId, status: Status, cooldown: Option<real>): KeyRow {
    if r.id == k then r.(status := status, cooldownUntil := cooldown) else r
  }

  lemma StampedFrom(rows: seq<KeyRow>, k: KeyId, status: Status, cooldown: Option<real>, r: KeyRow)
    returns (source: KeyRow)
    requires r in SetStatus(rows, k, status, cooldown)
    ensures source in rows && r == Stamped(source, k, status, cooldown)
  {
    var i :| 0 <= i < |rows| && SetStatus(rows, k, status, cooldown)[i] == r;
    source := rows[i];
  }

  lemma StatusKeepsKeyed(rows: seq<KeyRow>, k: KeyId, status: Status, cooldown: Option<real>)
    requires Keyed(rows)
    ensures Keyed(SetStatus(rows, k, status, cooldown))
  {
    var out := SetStatus(rows, k, status, cooldown);
    forall r, s | r in out && s in out && r.id == s.id ensures r == s {
      SameSource(rows, k, status, cooldown, r, s);
    }
  }

  lemma SameSource(rows: seq<KeyRow>, k: KeyId, status: Status, cooldown: Option<real>, r: KeyRow, s: KeyRow)
    requires Keyed(rows) && r in SetStatus(rows, k, status, cooldown) && s in SetStatus(rows, k, status, cooldown)
    requires r.id == s.id
    ensures r == s
  {
    var x := StampedFrom(rows, k, status, cooldown, r);
    var y := StampedFrom(rows, k, status, cooldown, s);
    assert x.id == y.id;
  }

  /** No row of the key is active after a trip if and only if its status has reached the table or no row was
      active before. */
  lemma TripLeavesActive(w: World, ev: Event)
    requires Trips(w, ev)
    ensures NoneActive(Apply(w, ev).0.rows, ev.key) <==> ev.commits || NoneActive(w.rows, ev.key)
    ensures Keyed(w.rows) ==> Keyed(Apply(w, ev).0.rows)
  {
    TripResult(w, ev);
    if ev.commits {
      var cooldown := Some(ev.wall + COOLDOWN);
      forall r | r in SetStatus(w.rows, ev.key, CircuitBreaker, cooldown) && r.id == ev.key ensures !r.status.Active? {
        SetStatusRow(w.rows, ev.key, CircuitBreaker, cooldown, r);
      }
      if Keyed(w.rows) { StatusKeepsKeyed(w.rows, ev.key, CircuitBreaker, cooldown); }
    }
  }

  /** No pick before o + 150, and before o + 300 at most one. */
  predicate AtMostOneProbe(ps: seq<real>, o: real) {
    (forall i :: 0 <= i < |ps| ==> ps[i] >= o + 150.0) && (forall i :: 0 < i < |ps| ==> ps[i] >= o + 300.0)
  }

  lemma SameBound(ps: seq<real>, o: real)
    ensures Respects(ps, o + COOLDOWN, false) <==> AtMostOneProbe(ps, o)
  {
  }

  /** Every run from here on, until a call on `k` ends, has at most the one probe. */
  ghost predicate ProbesOnce(w: World, k: KeyId, o: real) {
    forall evs :: Timed(evs, o) && Quiet(evs, k) ==> AtMostOneProbe(Picks(w, evs, k), o)
  }

  /** After the failure or rate limit that opens the breaker of a key at time `o`, in every run until a call on
      the key ends: no pick returns the key before o + 150, and before o + 300 at most one does, if and only if
      the table does not call the key active then, that is, if the trip has reached the table or the key was not
      active before. */
  lemma OneProbePerOpening(w: World, opening: Event)
    requires Keyed(w.rows) && Trips(w, opening)
    ensures var w' := Apply(w, opening).0;
            && (ProbesOnce(w', opening.key, opening.now) <==> NoneActive(w'.rows, opening.key))
            && (NoneActive(w'.rows, opening.key) <==> opening.commits || NoneActive(w.rows, opening.key))
  {
    TripLeavesActive(w, opening);
    TripResult(w, opening);
    var w', k, o := Apply(w, opening).0, opening.key, opening.now;
    OneProbeIff(w', k, o);
    assert OneProbe(w', k, o) <==> ProbesOnce(w', k, o) by {
      forall evs ensures Respects(Picks(w', evs, k), o + COOLDOWN, false) <==> AtMostOneProbe(Picks(w', evs, k), o) {
        SameBound(Picks(w', evs, k), o);
      }
    }
  }

  // ----- from the empty breaker on -----

  /** `n` failures whose status does not reach the table. */
  function Uncommitted(k: KeyId, o: real, wall: real, n: nat): seq<Event> {
    if n == 0 then [] else [Failing(k, o, wall, false)] + Uncommitted(k, o, wall, n - 1)
  }

  lemma {:induction false} UncommittedTrip(w: World, k: KeyId, o: real, wall: real, i: nat, n: nat)
    requires w.mem == Failed(k, o, i) && i + n <= THRESHOLD
    ensures var w' := After(w, Uncommitted(k, o, wall, n));
            w'.rows == w.rows && w'.mem == Failed(k, o, i + n)
    decreases n
  {
    if n > 0 {
      var evs := Uncommitted(k, o, wall, n);
      assert evs[0] == Failing(k, o, wall, false) && evs[1..] == Uncommitted(k, o, wall, n - 1);
      UncommittedStep(w, k, o, wall, i);
      UncommittedTrip(Apply(w, evs[0]).0, k, o, wall, i + 1, n - 1);
    }
  }

  /** The maps after `n` failures of one key. */
  function Failed(k: KeyId, o: real, n: nat): Breaker {
    Breaker(if n == 0 then map[] else map[k := n], if n >= THRESHOLD then map[k := o + COOLDOWN] else map[], map[])
  }

  lemma UncommittedStep(w: World, k: KeyId, o: real, wall: real, n: nat)
    requires w.mem == Failed(k, o, n) && n < THRESHOLD
    ensures var w' := Apply(w, Failing(k, o, wall, false)).0;
            w'.rows == w.rows && w'.mem == Failed(k, o, n + 1)
  {
    assert w.mem.fails[k := n + 1] == map[k := n + 1];
    assert OnFailure(w.mem, k, o).0 == Failed(k, o, n + 1);
  }

  /** Any table with an active row gets there from the empty breaker: after five failures that do not reach the
      table, every pick in the second half of the opening returns the key, however many there are. */
  lemma UncommittedTripIsProbedFreely(w: World, r: KeyRow, o: real, wall: real, times: seq<real>)
    requires w.mem == CLOSED && Keyed(w.rows) && r in w.rows && r.status.Active? && Cooled(r, wall)
    requires SecondHalf(times, o + COOLDOWN)
    ensures var w' := After(w, Uncommitted(r.id, o, wall, THRESHOLD));
            Picks(w', Exhaustions(w.rows, r.id, o) + Attempts(r, wall, times), r.id) == times
  {
    UncommittedTrip(w, r.id, o, wall, 0, THRESHOLD);
    ActiveKeyIsProbedFreely(After(w, Uncommitted(r.id, o, wall, THRESHOLD)), r, o, wall, times);
  }
}
