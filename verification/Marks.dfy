/** What picks and marks do to in-flight counts, breaker and rows (keyhub/llm/balancer.py:102-140, 244-341), event by
    event, and what that makes of the in-flight counts over runs. */
module Marks {
  import opened Prelude
  import opened Balancer
  import opened BreakerRuns
  import Slots

  // ----- in-flight counts, event by event -----

  function CountOf(w: World, k: KeyId): int {
    if k in w.inflight then w.inflight[k] else 0
  }

  /** A call on `k` is over: it was marked, or its slot was given back without a mark. */
  predicate EndsCall(ev: Event, k: KeyId) {
    (ev.Succeeding? || ev.Failing? || ev.Limiting? || ev.Releasing?) && ev.key == k
  }

  lemma SelectionCounts(w: World, top: seq<KeyRow>, provider: string, strategy: Strategy, now: real)
    requires top != []
    ensures SelectAmong(w, top, provider, strategy, now).0.inflight == w.inflight
  {
  }

  lemma TakeCounts(w: World, candidates: seq<KeyRow>, provider: string, strategy: Strategy, now: real, k: KeyId)
    requires candidates != []
    ensures var (s, r) := Take(w, candidates, provider, strategy, now);
            CountOf(s, k) == CountOf(w, k) + if r.id == k then 1 else 0
  {
    SelectionCounts(w, Top(candidates), provider, strategy, now);
  }

  /** Clean-up and queries change no count. */
  lemma QueryCounts(w: World, provider: Option<string>, model: string, now: real, wall: real, commits: bool)
    ensures Cleanup(w, now, commits).inflight == w.inflight
    ensures Query(w, provider, model, now, wall, commits).0.inflight == w.inflight
  {
  }

  /** A pick, in a provider or across, takes one slot of the key it returns and of no other. */
  lemma PickCounts(w: World, ev: Event, k: KeyId)
    requires IsPick(ev)
    ensures var (w', r) := Apply(w, ev);
            CountOf(w', k) == CountOf(w, k) + if r.Some? && r.value.id == k then 1 else 0
  {
    if ev.Picking? {
      var (c, found) := Query(w, Some(ev.provider), ev.model, ev.now, ev.wall, ev.commits);
      QueryCounts(w, Some(ev.provider), ev.model, ev.now, ev.wall, ev.commits);
      if found != [] { TakeCounts(c, found, ev.provider, ev.strategy, ev.now, k); }
    } else {
      var (c, found) := Query(w, None, ev.model, ev.now, ev.wall, ev.commits);
      QueryCounts(w, None, ev.model, ev.now, ev.wall, ev.commits);
      var others := Without(found, ev.exclude);
      if others != [] {
        var p := LeastProvider(others);
        TakeCounts(c, OfProvider(others, p), p, ev.strategy, ev.now, k);
      }
    }
  }

  /** Every mark, committed or not, and every plain release gives back one slot of its key, never going below zero,
      and none of any other; anything else that is not a pick changes no count. */
  lemma EndCounts(w: World, ev: Event, k: KeyId)
    requires !IsPick(ev)
    ensures var w' := Apply(w, ev).0;
            && (EndsCall(ev, k) ==> CountOf(w', k) == if CountOf(w, k) > 0 then CountOf(w, k) - 1 else 0)
            && (!EndsCall(ev, k) ==> CountOf(w', k) == CountOf(w, k))
  {
  }

  // ----- over runs -----

  /** How many more slots of `k` the event takes than it gives back. */
  function Taken(w: World, ev: Event, k: KeyId): int {
    var r := Apply(w, ev).1;
    if IsPick(ev) then (if r.Some? && r.value.id == k then 1 else 0)
    else if EndsCall(ev, k) then -1
    else 0
  }

  /** The picks of `k` in a run, and the calls on it that end. */
  function PickCount(w: World, evs: seq<Event>, k: KeyId): nat
    decreases |evs|
  {
    if evs == [] then 0 else
    var (w', r) := Apply(w, evs[0]);
    (if IsPick(evs[0]) && r.Some? && r.value.id == k then 1 else 0) + PickCount(w', evs[1..], k)
  }

  function EndCount(evs: seq<Event>, k: KeyId): nat {
    if evs == [] then 0 else (if EndsCall(evs[0], k) then 1 else 0) + EndCount(evs[1..], k)
  }

  /** Starting from `n` calls, a call on `k` ends only while there is one. */
  predicate OnlyPickedEnd(w: World, evs: seq<Event>, k: KeyId, n: int)
    decreases |evs|
  {
    n >= 0 && (evs == [] || OnlyPickedEnd(Apply(w, evs[0]).0, evs[1..], k, n + Taken(w, evs[0], k)))
  }

  /** The in-flight count of a key is its picks less its ended calls, in every run in which only calls that were
      picked end. */
  lemma {:induction false} CountIsPicksLessEnds(w: World, evs: seq<Event>, k: KeyId)
    requires OnlyPickedEnd(w, evs, k, CountOf(w, k))
    ensures CountOf(After(w, evs), k) == CountOf(w, k) + PickCount(w, evs, k) - EndCount(evs, k)
    decreases |evs|
  {
    if evs != [] {
      OneEvent(w, evs[0], k, evs[1..]);
      CountIsPicksLessEnds(Apply(w, evs[0]).0, evs[1..], k);
    }
  }

  lemma OneEvent(w: World, ev: Event, k: KeyId, rest: seq<Event>)
    requires CountOf(w, k) + Taken(w, ev, k) >= 0
    ensures CountOf(Apply(w, ev).0, k) == CountOf(w, k) + Taken(w, ev, k)
  {
    if IsPick(ev) { PickCounts(w, ev, k); } else { EndCounts(w, ev, k); }
  }

  // ----- the slots that calls take and give -----

  /** The slot actions that an event stands for. */
  function ActsOf(w: World, ev: Event): seq<Slots.Act> {
    var r := Apply(w, ev).1;
    if IsPick(ev) then (if r.Some? then [Slots.TakeSlot(r.value.id)] else [])
    else if ev.Exhausting? then []
    else [Slots.GiveSlot(ev.key)]
  }

  /** A pick takes the slot, and every mark ends in giving it back: the balancer's counts are those of the actions
      in which the calls are accounted for. */
  lemma EventsAreActs(w: World, ev: Event, call: nat, permits: int, k: KeyId)
    ensures var acts := ActsOf(w, ev);
            && |acts| <= 1
            && (acts == [] ==> CountOf(Apply(w, ev).0, k) == CountOf(w, k))
            && (acts != [] ==>
                  var t := Slots.Replay(Slots.Shared(permits, w.inflight), [Slots.Step(call, acts[0])]);
                  t.permits == permits && InFlight(t.inflight, k) == CountOf(Apply(w, ev).0, k))
  {
    if IsPick(ev) { PickCounts(w, ev, k); } else { EndCounts(w, ev, k); }
    var acts := ActsOf(w, ev);
    if acts != [] { ReplayOne(w.inflight, permits, call, acts[0], k); }
  }

  lemma ReplayOne(inflight: map<KeyId, int>, permits: int, call: nat, act: Slots.Act, k: KeyId)
    requires act.TakeSlot? || act.GiveSlot?
    ensures var t := Slots.Replay(Slots.Shared(permits, inflight), [Slots.Step(call, act)]);
            && t.permits == permits
            && InFlight(t.inflight, k) ==
               if act.key != k then InFlight(inflight, k)
               else if act.TakeSlot? then InFlight(inflight, k) + 1
               else if InFlight(inflight, k) > 0 then InFlight(inflight, k) - 1 else 0
  {
    var run := [Slots.Step(call, act)];
    assert run[..0] == [];
    assert Slots.Replay(Slots.Shared(permits, inflight), run[..0]) == Slots.Shared(permits, inflight);
  }

  // ----- breaker and rows -----

  /** The breaker of `k` and the rows of other keys are untouched. */
  ghost predicate OtherKeysKept(w: World, w': World, k: KeyId) {
    && (forall j :: j != k ==> (j in w'.mem.fails <==> j in w.mem.fails))
    && (forall j :: j != k && j in w.mem.fails ==> w'.mem.fails[j] == w.mem.fails[j])
    && (forall j :: j != k ==> (j in w'.mem.openUntil <==> j in w.mem.openUntil))
    && (forall j :: j != k && j in w.mem.openUntil ==> w'.mem.openUntil[j] == w.mem.openUntil[j])
    && (forall j :: j != k ==> (j in w'.mem.halfOpen <==> j in w.mem.halfOpen))
    && |w'.rows| == |w.rows|
    && (forall i :: 0 <= i < |w.rows| ==> w'.rows[i].id == w.rows[i].id)
    && (forall i :: 0 <= i < |w.rows| && w.rows[i].id != k ==> w'.rows[i] == w.rows[i])
    && w'.cursors == w.cursors
  }

  /** The row differs in status, cooldown and average latency at most. */
  predicate Marked(r: KeyRow, r': KeyRow, status: Status, cooldown: Option<real>, latency: nat) {
    && r'.status == status && r'.cooldownUntil == cooldown && r'.latency == latency
    && r'.id == r.id && r'.provider == r.provider && r'.allowedModels == r.allowedModels
    && r'.priority == r.priority && r'.cost == r.cost
  }

  /** Active, with the running average of its latency: the first one as it is, later ones weighed in at three tenths. */
  predicate Settled(r: KeyRow, r': KeyRow, latency: Option<nat>) {
    && Marked(r, r', Active, None, r'.latency)
    && (latency.None? ==> r'.latency == r.latency)
    && (latency.Some? && r.latency == 0 ==> r'.latency == latency.value)
    && (latency.Some? && r.latency != 0 ==>
          10 * r'.latency <= 7 * r.latency + 3 * latency.value < 10 * r'.latency + 10)
  }

  /** A success clears all three maps of the key, whatever its failure count, and makes its row active. */
  lemma SuccessFields(w: World, k: KeyId, latency: Option<nat>, commits: bool)
    ensures var w' := MarkOk(w, k, latency, commits);
            && OtherKeysKept(w, w', k)
            && k !in w'.mem.fails && k !in w'.mem.openUntil && k !in w'.mem.halfOpen
            && (!commits ==> w'.rows == w.rows)
            && (commits ==> forall i :: 0 <= i < |w.rows| && w.rows[i].id == k ==>
                                          Settled(w.rows[i], w'.rows[i], latency))
  {
  }

  /** The rows of the key have this status and are out until then. */
  predicate RowsMarked(w: World, w': World, k: KeyId, status: Status, until: real)
    requires |w'.rows| == |w.rows|
  {
    forall i :: 0 <= i < |w.rows| && w.rows[i].id == k ==>
                  Marked(w.rows[i], w'.rows[i], status, Some(until), w.rows[i].latency)
  }

  /** A failure counts one.  Short of five in a row it costs the given status and cooldown; the fifth and every
      further one open the breaker for 300 seconds. */
  ghost predicate Failed(w: World, w': World, k: KeyId, status: Status, cooldown: real, now: real, wall: real,
                         commits: bool)
  {
    var count := (if k in w.mem.fails then w.mem.fails[k] else 0) + 1;
    && OtherKeysKept(w, w', k)
    && k in w'.mem.fails && w'.mem.fails[k] == count
    && (count >= 5 ==> k in w'.mem.openUntil && w'.mem.openUntil[k] == now + 300.0 && k !in w'.mem.halfOpen)
    && (count < 5 ==> w'.mem.openUntil == w.mem.openUntil && w'.mem.halfOpen == w.mem.halfOpen)
    && (!commits ==> w'.rows == w.rows)
    && (commits && count >= 5 ==> RowsMarked(w, w', k, CircuitBreaker, wall + 300.0))
    && (commits && count < 5 ==> RowsMarked(w, w', k, status, wall + cooldown))
  }

  lemma FailureFields(w: World, k: KeyId, status: Status, cooldown: real, now: real, wall: real, commits: bool)
    ensures Failed(w, MarkFailure(w, k, status, cooldown, now, wall, commits), k, status, cooldown, now, wall, commits)
  {
    var w' := MarkFailure(w, k, status, cooldown, now, wall, commits);
    FailureRows(w, k, status, cooldown, now, wall, commits);
    assert OtherKeysKept(w, w', k);
  }

  lemma FailureRows(w: World, k: KeyId, status: Status, cooldown: real, now: real, wall: real, commits: bool)
    ensures var w' := MarkFailure(w, k, status, cooldown, now, wall, commits);
            && |w'.rows| == |w.rows| && (!commits ==> w'.rows == w.rows)
            && forall i :: 0 <= i < |w.rows| ==>
                             if !commits || w.rows[i].id != k then w'.rows[i] == w.rows[i]
                             else if OnFailure(w.mem, k, now).1
                             then Marked(w.rows[i], w'.rows[i], CircuitBreaker, Some(wall + 300.0), w.rows[i].latency)
                             else Marked(w.rows[i], w'.rows[i], status, Some(wall + cooldown), w.rows[i].latency)
  {
  }

  /** An error costs 30 seconds; a rate limit what the upstream asks for, or a minute if it does not say. */
  lemma MarkedFailures(w: World, ev: Event)
    requires ev.Failing? || ev.Limiting?
    ensures ev.Failing? ==> Failed(w, Apply(w, ev).0, ev.key, Error, 30.0, ev.now, ev.wall, ev.commits)
    ensures ev.Limiting? && ev.retryAfter.Some? && ev.retryAfter.value > 0.0 ==>
              Failed(w, Apply(w, ev).0, ev.key, RateLimited, ev.retryAfter.value, ev.now, ev.wall, ev.commits)
    ensures ev.Limiting? && (ev.retryAfter.None? || ev.retryAfter.value <= 0.0) ==>
              Failed(w, Apply(w, ev).0, ev.key, RateLimited, 60.0, ev.now, ev.wall, ev.commits)
  {
    match ev
    case Failing(k, now, wall, commits) => FailureFields(w, k, Error, 30.0, now, wall, commits);
    case Limiting(k, after, now, wall, commits) => FailureFields(w, k, RateLimited, Wait(after), now, wall, commits);
  }

  /** A pick forgets the failures of exactly the keys whose opening has run out, and makes their tripped rows active
      if it can write to the table. */
  lemma PickCleansUp(w: World, ev: Event, k: KeyId)
    requires IsPick(ev)
    ensures var w' := Apply(w, ev).0;
            var over := k in w.mem.openUntil && ev.now >= w.mem.openUntil[k];
            && (over ==> k !in w'.mem.fails && k !in w'.mem.openUntil)
            && (!over ==> (k in w'.mem.fails <==> k in w.mem.fails))
            && (!over ==> (k in w'.mem.openUntil <==> k in w.mem.openUntil))
            && (!over && k in w.mem.fails ==> w'.mem.fails[k] == w.mem.fails[k])
            && (!over && k in w.mem.openUntil ==> w'.mem.openUntil[k] == w.mem.openUntil[k])
            && |w'.rows| == |w.rows|
            && forall i :: 0 <= i < |w.rows| && w.rows[i].id == k ==>
                             if over && ev.commits && w.rows[i].status.CircuitBreaker?
                             then Marked(w.rows[i], w'.rows[i], Active, None, w.rows[i].latency)
                             else w'.rows[i] == w.rows[i]
  {
    PickEffect(w, ev);
  }
}
