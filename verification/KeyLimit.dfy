/** The per-key sliding windows of keyhub/llm/keylimit.py: requests per minute are claimed by `Check`
    itself, tokens per minute are filled in by `Record` once a call has ended. */
module KeyLimit {
  import opened Prelude

  type KeyId = string

  const WINDOW := 60.0

  datatype Sample = Sample(at: real, tokens: int)

  /** What is remembered of one key. */
  datatype Window = Window(requests: seq<real>, samples: seq<Sample>)

  const EMPTY := Window([], [])

  function Stamp(t: real): real {
    t
  }

  function At(s: Sample): real {
    s.at
  }

  /** Pops from the left while the head is older than the cutoff. */
  function DropOld<T>(q: seq<T>, at: T -> real, cutoff: real): seq<T> {
    if q != [] && at(q[0]) < cutoff then DropOld(q[1..], at, cutoff) else q
  }

  function Total(q: seq<Sample>): int {
    if q == [] then 0 else q[0].tokens + Total(q[1..])
  }

  function Prune(w: Window, now: real): Window {
    Window(DropOld(w.requests, Stamp, now - WINDOW), DropOld(w.samples, At, now - WINDOW))
  }

  function Max(a: int, b: int): int {
    if a >= b then a else b
  }

  datatype Verdict = Verdict(allowed: bool, rpmRemaining: int, tpmRemaining: int)

  function CheckIn(w: Window, tokens: int, rpm: int, tpm: int, now: real): (Window, Verdict) {
    if rpm <= 0 && tpm <= 0 then (w, Verdict(true, -1, -1)) else
    var p := Prune(w, now);
    var spent := Total(p.samples);
    var allowed := (rpm > 0 ==> |p.requests| < rpm) && (tpm > 0 ==> spent + tokens <= tpm);
    (if allowed then p.(requests := p.requests + [now]) else p,
     Verdict(allowed, if rpm > 0 then Max(0, rpm - |p.requests|) else -1, if tpm > 0 then Max(0, tpm - spent) else -1))
  }

  function RecordIn(w: Window, tokens: int, now: real): Window {
    if tokens <= 0 then w else
    var p := Prune(w, now);
    p.(samples := p.samples + [Sample(now, tokens)])
  }

  // ----- the limiter -----

  class KeyRateLimiter {
    var requests: map<KeyId, seq<real>>
    var tokens: map<KeyId, seq<Sample>>

    constructor ()
      ensures forall k :: View(k) == EMPTY
    {
      requests, tokens := map[], map[];
    }

    ghost function View(k: KeyId): Window
      reads this
    {
      Window(if k in requests then requests[k] else [], if k in tokens then tokens[k] else [])
    }

    method PruneKey(k: KeyId, now: real)
      modifies this
      ensures View(k) == Prune(old(View(k)), now)
      ensures forall j :: j != k ==> View(j) == old(View(j))
      ensures (k in requests <==> k in old(requests)) && (k in tokens <==> k in old(tokens))
    {
      var cutoff := now - WINDOW;
      if k in requests {
        var q := requests[k];
        while q != [] && q[0] < cutoff
          invariant DropOld(q, Stamp, cutoff) == DropOld(requests[k], Stamp, cutoff)
        {
          q := q[1..];
        }
        requests := requests[k := q];
      }
      if k in tokens {
        var q := tokens[k];
        while q != [] && q[0].at < cutoff
          invariant DropOld(q, At, cutoff) == DropOld(tokens[k], At, cutoff)
        {
          q := q[1..];
        }
        tokens := tokens[k := q];
      }
    }

    method CleanupIfEmpty(k: KeyId)
      modifies this
      ensures forall j :: View(j) == old(View(j))
    {
      if (k !in requests || requests[k] == []) && (k !in tokens || tokens[k] == []) {
        requests, tokens := requests - {k}, tokens - {k};
      }
    }

    method Check(k: KeyId, estimate: int, rpm: int, tpm: int, now: real) returns (v: Verdict)
      modifies this
      ensures (View(k), v) == CheckIn(old(View(k)), estimate, rpm, tpm, now)
      ensures forall j :: j != k ==> View(j) == old(View(j))
    {
      if rpm <= 0 && tpm <= 0 { return Verdict(true, -1, -1); }
      PruneKey(k, now);
      var q := if k in requests then requests[k] else [];
      var spent := if k in tokens then Total(tokens[k]) else 0;
      var rpmRemaining, tpmRemaining, allowed := -1, -1, true;
      if rpm > 0 {
        rpmRemaining := Max(0, rpm - |q|);
        if |q| >= rpm { allowed := false; }
      }
      if tpm > 0 {
        tpmRemaining := Max(0, tpm - spent);
        if spent + estimate > tpm { allowed := false; }
      }
      if allowed { requests := requests[k := q + [now]]; }
      v := Verdict(allowed, rpmRemaining, tpmRemaining);
    }

    method Record(k: KeyId, used: int, now: real)
      modifies this
      ensures View(k) == RecordIn(old(View(k)), used, now)
      ensures forall j :: j != k ==> View(j) == old(View(j))
    {
      if used <= 0 { return; }
      PruneKey(k, now);
      var q := if k in tokens then tokens[k] else [];
      tokens := tokens[k := q + [Sample(now, used)]];
      CleanupIfEmpty(k);
    }
  }

  // ----- runs of one key -----

  /** `Check` asks for admission; `Finish` ends an admitted call and records its tokens. */
  datatype Event = Check(estimate: nat, now: real) | Finish(tokens: int, now: real)

  /** A run with everything that was ever admitted and recorded, the calls in flight, and the latest clock
      reading so far. */
  datatype Run = Run(w: Window, admitted: seq<real>, recorded: seq<Sample>, inflight: int, latest: real)

  function Later(a: real, b: real): real {
    if a >= b then a else b
  }

  function Next(r: Run, ev: Event, rpm: int, tpm: int): Run {
    match ev
    case Check(estimate, now) =>
      var (w, v) := CheckIn(r.w, estimate, rpm, tpm, now);
      if v.allowed then Run(w, r.admitted + [now], r.recorded, r.inflight + 1, Later(r.latest, now))
      else Run(w, r.admitted, r.recorded, r.inflight, Later(r.latest, now))
    case Finish(tokens, now) =>
      Run(RecordIn(r.w, tokens, now), r.admitted,
          if tokens <= 0 then r.recorded else r.recorded + [Sample(now, tokens)], r.inflight - 1, Later(r.latest, now))
  }

  function After(evs: seq<Event>, rpm: int, tpm: int, start: real): Run {
    if evs == [] then Run(EMPTY, [], [], 0, start)
    else Next(After(evs[..|evs| - 1], rpm, tpm, start), evs[|evs| - 1], rpm, tpm)
  }

  /** The clock is read before the lock is taken, so readings may arrive out of order: by at most `skew`, the
      longest that a reading waits for the lock. */
  predicate Skewed(evs: seq<Event>, start: real, skew: real) {
    && skew >= 0.0
    && (forall i :: 0 <= i < |evs| ==> start - skew <= evs[i].now)
    && (forall i, j :: 0 <= i < j < |evs| ==> evs[i].now - skew <= evs[j].now)
  }

  /** Admitted requests in the closed interval [a, a + len]. */
  function CountIn(ts: seq<real>, a: real, len: real): nat {
    if ts == [] then 0
    else CountIn(ts[..|ts| - 1], a, len) + if a <= ts[|ts| - 1] <= a + len then 1 else 0
  }

  /** Tokens recorded in the closed interval [a, a + len]. */
  function TokensIn(q: seq<Sample>, a: real, len: real): int {
    if q == [] then 0
    else TokensIn(q[..|q| - 1], a, len) + if a <= q[|q| - 1].at <= a + len then q[|q| - 1].tokens else 0
  }

  // ----- what pruning discards is out of every open window -----

  predicate Tail<T(==)>(all: seq<T>, kept: seq<T>, at: T -> real, cutoff: real, k: nat) {
    k <= |all| && all[k..] == kept && forall i :: 0 <= i < k ==> at(all[i]) < cutoff
  }

  /** `kept` is the end of the history `all`; what is missing is older than the cutoff. */
  ghost predicate Remembered<T>(all: seq<T>, kept: seq<T>, at: T -> real, cutoff: real) {
    exists k: nat :: Tail(all, kept, at, cutoff, k)
  }

  lemma DropTail<T>(all: seq<T>, k: nat, at: T -> real, cutoff: real, later: real)
    requires k <= |all| && forall i :: 0 <= i < k ==> at(all[i]) < Later(cutoff, later)
    ensures Remembered(all, DropOld(all[k..], at, later), at, Later(cutoff, later))
    decreases |all| - k
  {
    if k < |all| && at(all[k]) < later {
      assert all[k..][1..] == all[k + 1..];
      DropTail(all, k + 1, at, cutoff, later);
    } else {
      assert Tail(all, DropOld(all[k..], at, later), at, Later(cutoff, later), k);
    }
  }

  lemma PruneRemembers<T>(all: seq<T>, kept: seq<T>, at: T -> real, cutoff: real, later: real)
    requires Remembered(all, kept, at, cutoff)
    ensures Remembered(all, DropOld(kept, at, later), at, Later(cutoff, later))
    ensures Remembered(all, kept, at, Later(cutoff, later))
  {
    var k: nat :| Tail(all, kept, at, cutoff, k);
    DropTail(all, k, at, cutoff, later);
    assert Tail(all, kept, at, Later(cutoff, later), k);
  }

  lemma AppendRemembers<T>(all: seq<T>, kept: seq<T>, at: T -> real, cutoff: real, x: T)
    requires Remembered(all, kept, at, cutoff)
    ensures Remembered(all + [x], kept + [x], at, cutoff)
  {
    var k: nat :| Tail(all, kept, at, cutoff, k);
    assert Tail(all + [x], kept + [x], at, cutoff, k);
  }

  /** What is kept is the end of the full history; what is missing is older than a minute before the latest
      reading. */
  ghost predicate Faithful(r: Run) {
    && Remembered(r.admitted, r.w.requests, Stamp, r.latest - WINDOW)
    && Remembered(r.recorded, r.w.samples, At, r.latest - WINDOW)
    && forall i :: 0 <= i < |r.recorded| ==> r.recorded[i].tokens > 0
  }

  /** The state between pruning and the verdict. */
  function Pruned(r: Run, now: real): Run {
    r.(w := Prune(r.w, now), latest := Later(r.latest, now))
  }

  lemma PrunedFaithful(r: Run, now: real)
    requires Faithful(r)
    ensures Faithful(Pruned(r, now))
  {
    PruneRemembers(r.admitted, r.w.requests, Stamp, r.latest - WINDOW, now - WINDOW);
    PruneRemembers(r.recorded, r.w.samples, At, r.latest - WINDOW, now - WINDOW);
  }

  /** Admission as a step from the pruned state. */
  lemma CheckStep(r: Run, estimate: nat, now: real, rpm: int, tpm: int)
    requires rpm > 0 || tpm > 0
    ensures var p, r' := Pruned(r, now), Next(r, Check(estimate, now), rpm, tpm);
            || r' == p
            || (&& r' == p.(w := p.w.(requests := p.w.requests + [now]),
                         admitted := p.admitted + [now], inflight := p.inflight + 1)
                && (rpm > 0 ==> |p.w.requests| < rpm)
                && (tpm > 0 ==> Total(p.w.samples) <= tpm))
  {
  }

  lemma FinishStep(r: Run, tokens: int, now: real, rpm: int, tpm: int)
    ensures var p, r' := Pruned(r, now), Next(r, Finish(tokens, now), rpm, tpm);
            r' == if tokens <= 0 then r.(inflight := r.inflight - 1, latest := Later(r.latest, now))
            else p.(w := p.w.(samples := p.w.samples + [Sample(now, tokens)]),
                 recorded := p.recorded + [Sample(now, tokens)], inflight := p.inflight - 1)
  {
  }

  lemma CheckFaithful(r: Run, estimate: nat, now: real, rpm: int, tpm: int)
    requires Faithful(r) && (rpm > 0 || tpm > 0)
    ensures Faithful(Next(r, Check(estimate, now), rpm, tpm))
  {
    var p := Pruned(r, now);
    PrunedFaithful(r, now);
    CheckStep(r, estimate, now, rpm, tpm);
    AppendRemembers(p.admitted, p.w.requests, Stamp, p.latest - WINDOW, now);
  }

  lemma FinishFaithful(r: Run, tokens: int, now: real, rpm: int, tpm: int)
    requires Faithful(r)
    ensures Faithful(Next(r, Finish(tokens, now), rpm, tpm))
  {
    FinishStep(r, tokens, now, rpm, tpm);
    if tokens <= 0 {
      LaterFaithful(r, now);
    } else {
      var p := Pruned(r, now);
      PrunedFaithful(r, now);
      AppendRemembers(p.recorded, p.w.samples, At, p.latest - WINDOW, Sample(now, tokens));
    }
  }

  /** A reading alone changes nothing. */
  lemma LaterFaithful(r: Run, now: real)
    requires Faithful(r)
    ensures Faithful(r.(inflight := r.inflight - 1, latest := Later(r.latest, now)))
  {
    PruneRemembers(r.admitted, r.w.requests, Stamp, r.latest - WINDOW, now - WINDOW);
    PruneRemembers(r.recorded, r.w.samples, At, r.latest - WINDOW, now - WINDOW);
  }

  /** Whatever the clock readings, what has been dropped is older than a minute before the latest of them. */
  lemma NextFaithful(r: Run, ev: Event, rpm: int, tpm: int)
    requires Faithful(r) && (rpm > 0 || tpm > 0)
    ensures Faithful(Next(r, ev, rpm, tpm)) && Next(r, ev, rpm, tpm).latest == Later(r.latest, ev.now)
  {
    match ev
    case Check(estimate, now) => CheckFaithful(r, estimate, now, rpm, tpm);
    case Finish(tokens, now) => FinishFaithful(r, tokens, now, rpm, tpm);
  }

  lemma {:induction false} RunProps(evs: seq<Event>, rpm: int, tpm: int, start: real, skew: real)
    requires Skewed(evs, start, skew) && (rpm > 0 || tpm > 0)
    ensures var r := After(evs, rpm, tpm, start);
            && Faithful(r)
            && (r.latest == start || exists i :: 0 <= i < |evs| && evs[i].now == r.latest)
  {
    if evs == [] {
      assert Tail([], [], Stamp, start - WINDOW, 0);
      assert Tail([], [], At, start - WINDOW, 0);
    } else {
      var init, ev := evs[..|evs| - 1], evs[|evs| - 1];
      RunProps(init, rpm, tpm, start, skew);
      NextFaithful(After(init, rpm, tpm, start), ev, rpm, tpm);
      var r, r' := After(init, rpm, tpm, start), After(evs, rpm, tpm, start);
      if r'.latest != r.latest {
        assert evs[|evs| - 1].now == r'.latest;
      } else if r.latest != start {
        var i :| 0 <= i < |init| && init[i].now == r.latest;
        assert evs[i].now == r'.latest;
      }
    }
  }

  /** The next reading is at most `skew` behind the latest. */
  lemma NotFarBehind(evs: seq<Event>, rpm: int, tpm: int, start: real, skew: real)
    requires evs != [] && Skewed(evs, start, skew) && (rpm > 0 || tpm > 0)
    ensures Skewed(evs[..|evs| - 1], start, skew)
    ensures After(evs[..|evs| - 1], rpm, tpm, start).latest - skew <= evs[|evs| - 1].now
  {
    var init := evs[..|evs| - 1];
    RunProps(init, rpm, tpm, start, skew);
    var r := After(init, rpm, tpm, start);
    if r.latest != start {
      var i :| 0 <= i < |init| && init[i].now == r.latest;
      assert evs[i].now - skew <= evs[|evs| - 1].now;
    }
  }

  // ----- requests per minute -----

  lemma CountFrom(ts: seq<real>, a: real, len: real, k: nat)
    requires k <= |ts| && forall i :: 0 <= i < k ==> ts[i] < a
    ensures CountIn(ts, a, len) <= |ts| - k
  {
    if k < |ts| {
      CountFrom(ts[..|ts| - 1], a, len, k);
    } else if ts != [] {
      CountFrom(ts[..|ts| - 1], a, len, k - 1);
    }
  }

  /** No closed interval of 60 seconds less the skew ever holds more admitted requests than the limit, although
      the limiter only remembers the last 60 seconds. */
  lemma {:induction false} RpmBound(evs: seq<Event>, rpm: int, tpm: int, start: real, skew: real, a: real)
    requires Skewed(evs, start, skew) && rpm > 0
    ensures CountIn(After(evs, rpm, tpm, start).admitted, a, WINDOW - skew) <= rpm
  {
    if evs != [] {
      var init, ev := evs[..|evs| - 1], evs[|evs| - 1];
      NotFarBehind(evs, rpm, tpm, start, skew);
      RpmBound(init, rpm, tpm, start, skew, a);
      RunProps(init, rpm, tpm, start, skew);
      RpmStep(After(init, rpm, tpm, start), ev, rpm, tpm, skew, a);
    }
  }

  lemma RpmStep(r: Run, ev: Event, rpm: int, tpm: int, skew: real, a: real)
    requires Faithful(r) && skew >= 0.0 && r.latest - skew <= ev.now && rpm > 0
    requires CountIn(r.admitted, a, WINDOW - skew) <= rpm
    ensures CountIn(Next(r, ev, rpm, tpm).admitted, a, WINDOW - skew) <= rpm
  {
    match ev
    case Check(estimate, now) =>
      var p := Pruned(r, now);
      PrunedFaithful(r, now);
      CheckStep(r, estimate, now, rpm, tpm);
      if |p.w.requests| < rpm { RoomForOne(p.admitted, p.w.requests, p.latest, now, rpm, skew, a); }
    case Finish(tokens, now) => FinishStep(r, tokens, now, rpm, tpm);
  }

  lemma RoomForOne(admitted: seq<real>, kept: seq<real>, latest: real, now: real, rpm: int, skew: real, a: real)
    requires Remembered(admitted, kept, Stamp, latest - WINDOW) && |kept| < rpm && latest - skew <= now
    requires CountIn(admitted, a, WINDOW - skew) <= rpm
    ensures CountIn(admitted + [now], a, WINDOW - skew) <= rpm
  {
    assert (admitted + [now])[..|admitted|] == admitted;
    if now <= a + WINDOW - skew {
      var k: nat :| Tail(admitted, kept, Stamp, latest - WINDOW, k);
      CountFrom(admitted, a, WINDOW - skew, k);
    }
  }

  // ----- and no fewer than it may -----

  /** Stamps in order, none later than `now`. */
  predicate Ordered(ts: seq<real>, now: real) {
    && (forall i, j :: 0 <= i < j < |ts| ==> ts[i] <= ts[j])
    && (forall i :: 0 <= i < |ts| ==> ts[i] <= now)
  }

  function Stamps(q: seq<Sample>): seq<real> {
    seq(|q|, i requires 0 <= i < |q| => q[i].at)
  }

  lemma {:induction false} CountEnd(ts: seq<real>, a: real, len: real, k: nat)
    requires k <= |ts| && (forall i :: 0 <= i < k ==> ts[i] < a) && forall i :: k <= i < |ts| ==> a <= ts[i] <= a + len
    ensures CountIn(ts, a, len) == |ts| - k
  {
    if ts != [] { CountEnd(ts[..|ts| - 1], a, len, if k < |ts| then k else k - 1); }
  }

  lemma {:induction false} TokensEnd(q: seq<Sample>, a: real, len: real, k: nat)
    requires k <= |q| && (forall i :: 0 <= i < k ==> q[i].at < a)
    requires forall i :: k <= i < |q| ==> a <= q[i].at <= a + len
    ensures TokensIn(q, a, len) == Total(q[k..])
  {
    if k < |q| {
      var init := q[..|q| - 1];
      TokensEnd(init, a, len, k);
      assert q[k..] == init[k..] + [q[|q| - 1]];
      TotalAppend(init[k..], q[|q| - 1]);
    } else if q != [] {
      TokensEnd(q[..|q| - 1], a, len, k - 1);
      assert q[..|q| - 1][k - 1..] == q[k..] == [];
    }
  }

  /** Of an ordered history, pruning keeps exactly the last minute. */
  lemma {:induction false} DropsExactly<T>(all: seq<T>, k: nat, at: T -> real, cutoff: real) returns (j: nat)
    requires k <= |all| && (forall i :: 0 <= i < k ==> at(all[i]) < cutoff)
    requires forall i, j :: 0 <= i < j < |all| ==> at(all[i]) <= at(all[j])
    ensures k <= j <= |all| && DropOld(all[k..], at, cutoff) == all[j..]
    ensures (forall i :: 0 <= i < j ==> at(all[i]) < cutoff) && forall i :: j <= i < |all| ==> at(all[i]) >= cutoff
    decreases |all| - k
  {
    if k < |all| && at(all[k]) < cutoff {
      assert all[k..][1..] == all[k + 1..];
      j := DropsExactly(all, k + 1, at, cutoff);
    } else {
      j := k;
    }
  }

  lemma PrunedCount(all: seq<real>, kept: seq<real>, latest: real, now: real)
    requires Remembered(all, kept, Stamp, latest - WINDOW) && Ordered(all, now) && latest <= now
    ensures |DropOld(kept, Stamp, now - WINDOW)| == CountIn(all, now - WINDOW, WINDOW)
  {
    var k: nat :| Tail(all, kept, Stamp, latest - WINDOW, k);
    var j := DropsExactly(all, k, Stamp, now - WINDOW);
    CountEnd(all, now - WINDOW, WINDOW, j);
  }

  lemma PrunedTokens(all: seq<Sample>, kept: seq<Sample>, latest: real, now: real)
    requires Remembered(all, kept, At, latest - WINDOW) && Ordered(Stamps(all), now) && latest <= now
    ensures Total(DropOld(kept, At, now - WINDOW)) == TokensIn(all, now - WINDOW, WINDOW)
  {
    var k: nat :| Tail(all, kept, At, latest - WINDOW, k);
    forall i, j | 0 <= i < j < |all| ensures all[i].at <= all[j].at {
      assert Stamps(all)[i] <= Stamps(all)[j];
    }
    forall i | 0 <= i < |all| ensures all[i].at <= now { assert Stamps(all)[i] <= now; }
    var j := DropsExactly(all, k, At, now - WINDOW);
    TokensEnd(all, now - WINDOW, WINDOW, j);
  }

  /** With readings in order, a request is admitted if and only if the full history of the last minute holds fewer
      admitted requests than the limit, and as many recorded tokens as leave room for the estimate; and it is told
      what is left of either.  A limit that is not set does not count. */
  lemma CheckVerdict(r: Run, estimate: nat, rpm: int, tpm: int, now: real)
    requires Faithful(r) && r.latest <= now && Ordered(r.admitted, now) && Ordered(Stamps(r.recorded), now)
    ensures var v := CheckIn(r.w, estimate, rpm, tpm, now).1;
            var count, spent := CountIn(r.admitted, now - 60.0, 60.0), TokensIn(r.recorded, now - 60.0, 60.0);
            && (v.allowed <==> (rpm > 0 ==> count < rpm) && (tpm > 0 ==> spent + estimate <= tpm))
            && v.rpmRemaining == (if rpm <= 0 then -1 else if count <= rpm then rpm - count else 0)
            && v.tpmRemaining == (if tpm <= 0 then -1 else if spent <= tpm then tpm - spent else 0)
  {
    PrunedCount(r.admitted, r.w.requests, r.latest, now);
    PrunedTokens(r.recorded, r.w.samples, r.latest, now);
  }

  /** Histories are ordered in every run whose readings are. */
  lemma {:induction false} RunIsOrdered(evs: seq<Event>, rpm: int, tpm: int, start: real)
    requires Skewed(evs, start, 0.0) && (rpm > 0 || tpm > 0)
    ensures var r := After(evs, rpm, tpm, start);
            Ordered(r.admitted, r.latest) && Ordered(Stamps(r.recorded), r.latest)
  {
    if evs != [] {
      NotFarBehind(evs, rpm, tpm, start, 0.0);
      RunIsOrdered(evs[..|evs| - 1], rpm, tpm, start);
      StepIsOrdered(After(evs[..|evs| - 1], rpm, tpm, start), evs[|evs| - 1], rpm, tpm);
    }
  }

  lemma StepIsOrdered(r: Run, ev: Event, rpm: int, tpm: int)
    requires Ordered(r.admitted, r.latest) && Ordered(Stamps(r.recorded), r.latest) && r.latest <= ev.now
    ensures var r' := Next(r, ev, rpm, tpm);
            Ordered(r'.admitted, r'.latest) && Ordered(Stamps(r'.recorded), r'.latest)
  {
    match ev
    case Check(_, now) =>
    case Finish(tokens, now) =>
      assert Stamps(r.recorded + [Sample(now, tokens)]) == Stamps(r.recorded) + [now];
  }

  // ----- and no longer interval -----

  /** `n` requests at time 0. */
  function Burst(n: nat): seq<Event> {
    seq(n, _ => Check(0, 0.0))
  }

  lemma {:induction false} BurstAdmitted(n: nat, rpm: int, tpm: int)
    requires n <= rpm
    ensures After(Burst(n), rpm, tpm, 0.0) == Run(Window(seq(n, _ => 0.0), []), seq(n, _ => 0.0), [], n, 0.0)
  {
    if n > 0 {
      assert Burst(n)[..n - 1] == Burst(n - 1);
      BurstAdmitted(n - 1, rpm, tpm);
      assert seq(n - 1, _ => 0.0) + [0.0] == seq(n, _ => 0.0);
      var w := Window(seq(n - 1, _ => 0.0), []);
      assert Prune(w, 0.0) == w;
    }
  }

  lemma {:induction false} AllDropped(q: seq<real>, cutoff: real)
    requires forall i :: 0 <= i < |q| ==> q[i] < cutoff
    ensures DropOld(q, Stamp, cutoff) == []
  {
    if q != [] { AllDropped(q[1..], cutoff); }
  }

  lemma {:induction false} CountAll(q: seq<real>, a: real, len: real)
    requires forall i :: 0 <= i < |q| ==> a <= q[i] <= a + len
    ensures CountIn(q, a, len) == |q|
  {
    if q != [] { CountAll(q[..|q| - 1], a, len); }
  }

  /** A full burst at 0; one of its calls ends once the burst is out of sight; and a request gets the lock whose
      reading of the clock is older than that. */
  function Overtaking(rpm: nat, skew: real, len: real): seq<Event> {
    Burst(rpm) + [Finish(1, skew + len), Check(0, len)]
  }

  lemma OvertakingSkewed(rpm: nat, skew: real, len: real)
    requires skew >= 0.0 && len >= 0.0
    ensures Skewed(Overtaking(rpm, skew, len), 0.0, skew)
  {
  }

  /** Forgetting the burst, the limiter admits one request more. */
  lemma OneTooMany(r0: Run, rpm: int, tpm: int, skew: real, len: real)
    requires rpm >= 1 && skew >= 0.0 && len >= 0.0 && len > WINDOW - skew
    requires r0.w.samples == [] && forall i :: 0 <= i < |r0.w.requests| ==> r0.w.requests[i] == 0.0
    ensures Next(Next(r0, Finish(1, skew + len), rpm, tpm), Check(0, len), rpm, tpm).admitted == r0.admitted + [len]
  {
    var r1 := Next(r0, Finish(1, skew + len), rpm, tpm);
    AllDropped(r0.w.requests, skew + len - WINDOW);
    assert r1.w == Window([], [Sample(skew + len, 1)]);
    assert Prune(r1.w, len) == r1.w;
    assert Total(r1.w.samples) == 1;
  }

  lemma OvertakingAdmitted(rpm: nat, tpm: int, skew: real, len: real)
    requires rpm >= 1 && skew >= 0.0 && len >= 0.0 && len > WINDOW - skew
    ensures CountIn(After(Overtaking(rpm, skew, len), rpm, tpm, 0.0).admitted, 0.0, len) == rpm + 1
  {
    var burst, evs := Burst(rpm), Overtaking(rpm, skew, len);
    var r0 := After(burst, rpm, tpm, 0.0);
    BurstAdmitted(rpm, rpm, tpm);
    assert evs[..|evs| - 1] == burst + [Finish(1, skew + len)];
    assert (burst + [Finish(1, skew + len)])[..rpm] == burst;
    OneTooMany(r0, rpm, tpm, skew, len);
    assert After(evs, rpm, tpm, 0.0).admitted == r0.admitted + [len];
    CountAll(r0.admitted, 0.0, len);
    CountAppend(r0.admitted, len, 0.0, len);
  }

  lemma CountAppend(ts: seq<real>, t: real, a: real, len: real)
    ensures CountIn(ts + [t], a, len) == CountIn(ts, a, len) + if a <= t <= a + len then 1 else 0
  {
    assert (ts + [t])[..|ts|] == ts;
  }

  lemma {:induction false} CountShorter(ts: seq<real>, a: real, len: real, longer: real)
    requires len <= longer
    ensures CountIn(ts, a, len) <= CountIn(ts, a, longer)
  {
    if ts != [] { CountShorter(ts[..|ts| - 1], a, len, longer); }
  }

  /** No run with this skew admits more than the limit in a closed interval of this length. */
  ghost predicate Limits(rpm: int, tpm: int, skew: real, len: real) {
    forall evs, start, a :: Skewed(evs, start, skew) ==> CountIn(After(evs, rpm, tpm, start).admitted, a, len) <= rpm
  }

  /** The exact reach of the limit: it holds over intervals of 60 seconds less the skew, and over no longer ones.
      So it holds over a full minute if and only if readings never arrive out of order. */
  lemma RpmBoundIff(rpm: int, tpm: int, skew: real, len: real)
    requires rpm >= 1 && skew >= 0.0 && len >= 0.0
    ensures Limits(rpm, tpm, skew, len) <==> len <= WINDOW - skew
  {
    if len <= WINDOW - skew {
      forall evs, start, a | Skewed(evs, start, skew)
        ensures CountIn(After(evs, rpm, tpm, start).admitted, a, len) <= rpm {
        RpmBound(evs, rpm, tpm, start, skew, a);
        CountShorter(After(evs, rpm, tpm, start).admitted, a, len, WINDOW - skew);
      }
    } else {
      OvertakingSkewed(rpm, skew, len);
      OvertakingAdmitted(rpm, tpm, skew, len);
    }
  }

  // ----- tokens per minute -----

  lemma TokensFrom(q: seq<Sample>, a: real, len: real, k: nat)
    requires k <= |q| && (forall i :: 0 <= i < k ==> q[i].at < a) && forall i :: 0 <= i < |q| ==> q[i].tokens > 0
    ensures TokensIn(q, a, len) <= Total(q[k..])
  {
    if k < |q| {
      var init := q[..|q| - 1];
      TokensFrom(init, a, len, k);
      assert q[k..] == init[k..] + [q[|q| - 1]];
      TotalAppend(init[k..], q[|q| - 1]);
    } else if q != [] {
      assert q[|q| - 1].at < a;
      TokensFrom(q[..|q| - 1], a, len, k - 1);
      assert q[..|q| - 1][k - 1..] == q[k..] == [];
    }
  }

  lemma TotalAppend(q: seq<Sample>, x: Sample)
    ensures Total(q + [x]) == Total(q) + x.tokens
  {
    if q == [] {
      assert q + [x] == [x];
    } else {
      assert (q + [x])[1..] == q[1..] + [x];
      TotalAppend(q[1..], x);
    }
  }

  /** At most `c` calls are ever in flight, and each records at most `m` tokens. */
  predicate Bounded(evs: seq<Event>, rpm: int, tpm: int, start: real, c: int, m: int) {
    && (forall i :: 0 <= i < |evs| && evs[i].Finish? ==> evs[i].tokens <= m)
    && (forall i :: 0 <= i <= |evs| ==> 0 <= After(evs[..i], rpm, tpm, start).inflight <= c)
  }

  /** What is recorded in an interval that readings may still fall into, plus what the calls in flight may yet
      record. */
  predicate Covered(r: Run, tpm: int, c: int, m: int, skew: real, a: real) {
    && TokensIn(r.recorded, a, WINDOW - skew) <= tpm + c * m
    && (r.latest <= a + WINDOW ==> TokensIn(r.recorded, a, WINDOW - skew) + r.inflight * m <= tpm + c * m)
  }

  lemma NextCovered(r: Run, ev: Event, rpm: int, tpm: int, c: int, m: int, skew: real, a: real)
    requires Faithful(r) && r.latest - skew <= ev.now && tpm > 0 && m >= 0
    requires Covered(r, tpm, c, m, skew, a)
    requires ev.Finish? ==> ev.tokens <= m
    requires 0 <= r.inflight <= c && 0 <= Next(r, ev, rpm, tpm).inflight <= c
    ensures Covered(Next(r, ev, rpm, tpm), tpm, c, m, skew, a)
  {
    match ev
    case Check(estimate, now) => CheckCovered(r, estimate, now, rpm, tpm, c, m, skew, a);
    case Finish(tokens, now) => FinishCovered(r, tokens, now, rpm, tpm, c, m, skew, a);
  }

  /** An admission finds the recorded tokens within the limit, whatever is in flight. */
  lemma CheckCovered(r: Run, estimate: nat, now: real, rpm: int, tpm: int, c: int, m: int, skew: real, a: real)
    requires Faithful(r) && tpm > 0 && m >= 0 && Covered(r, tpm, c, m, skew, a)
    requires Next(r, Check(estimate, now), rpm, tpm).inflight <= c
    ensures Covered(Next(r, Check(estimate, now), rpm, tpm), tpm, c, m, skew, a)
  {
    var p, r' := Pruned(r, now), Next(r, Check(estimate, now), rpm, tpm);
    PrunedFaithful(r, now);
    CheckStep(r, estimate, now, rpm, tpm);
    if r' != p && p.latest <= a + WINDOW {
      SeenTokens(p, tpm, a, WINDOW - skew);
      MulMono(r'.inflight, c, m);
    }
  }

  /** What a call records was reserved for it. */
  lemma FinishCovered(r: Run, tokens: int, now: real, rpm: int, tpm: int, c: int, m: int, skew: real, a: real)
    requires r.latest - skew <= now && m >= 0 && tokens <= m && r.inflight >= 1 && Covered(r, tpm, c, m, skew, a)
    ensures Covered(Next(r, Finish(tokens, now), rpm, tpm), tpm, c, m, skew, a)
  {
    var r' := Next(r, Finish(tokens, now), rpm, tpm);
    FinishStep(r, tokens, now, rpm, tpm);
    FinishTokens(r, tokens, now, rpm, tpm, skew, a);
    FromReserve(TokensIn(r.recorded, a, WINDOW - skew), TokensIn(r'.recorded, a, WINDOW - skew),
                r.inflight, r'.inflight, m, tpm + c * m, r.latest <= a + WINDOW, r'.latest <= a + WINDOW);
  }

  /** What an ending call adds to an interval, and only to one that readings could still fall into. */
  lemma FinishTokens(r: Run, tokens: int, now: real, rpm: int, tpm: int, skew: real, a: real)
    requires r.latest - skew <= now
    ensures var sum, sum' := TokensIn(r.recorded, a, WINDOW - skew),
                             TokensIn(Next(r, Finish(tokens, now), rpm, tpm).recorded, a, WINDOW - skew);
            sum' == sum || (0 < tokens && sum' == sum + tokens && r.latest <= a + WINDOW)
  {
    FinishStep(r, tokens, now, rpm, tpm);
    TokensInAppend(r.recorded, Sample(now, tokens), a, WINDOW - skew);
  }

  lemma FromReserve(sum: int, sum': int, inflight: int, inflight': int, m: int, bound: int, before: bool, after: bool)
    requires inflight >= 1 && inflight' == inflight - 1 && m >= 0 && sum <= bound
    requires (before ==> sum + inflight * m <= bound) && (after ==> before)
    requires sum' == sum || (sum' <= sum + m && before)
    ensures sum' <= bound && (after ==> sum' + inflight' * m <= bound)
  {
    MulMono(0, inflight', m);
    assert inflight * m == inflight' * m + m;
  }

  lemma SeenTokens(p: Run, tpm: int, a: real, len: real)
    requires Faithful(p) && p.latest <= a + WINDOW && Total(p.w.samples) <= tpm
    ensures TokensIn(p.recorded, a, len) <= tpm
  {
    var k: nat :| Tail(p.recorded, p.w.samples, At, p.latest - WINDOW, k);
    TokensFrom(p.recorded, a, len, k);
  }

  lemma TokensInAppend(q: seq<Sample>, x: Sample, a: real, len: real)
    ensures TokensIn(q + [x], a, len) == TokensIn(q, a, len) + if a <= x.at <= a + len then x.tokens else 0
  {
    assert (q + [x])[..|q|] == q;
  }

  lemma {:induction false} AlwaysCovered(evs: seq<Event>, rpm: int, tpm: int, start: real, c: int, m: int, skew: real,
                                         a: real)
    requires Skewed(evs, start, skew) && tpm > 0 && c >= 0 && m >= 0 && Bounded(evs, rpm, tpm, start, c, m)
    ensures Covered(After(evs, rpm, tpm, start), tpm, c, m, skew, a)
  {
    MulMono(0, c, m);
    if evs != [] {
      var init := evs[..|evs| - 1];
      assert evs[..|evs|] == evs;
      forall i | 0 <= i <= |init| ensures 0 <= After(init[..i], rpm, tpm, start).inflight <= c {
        assert init[..i] == evs[..i];
      }
      NotFarBehind(evs, rpm, tpm, start, skew);
      AlwaysCovered(init, rpm, tpm, start, c, m, skew, a);
      RunProps(init, rpm, tpm, start, skew);
      assert init[..|init|] == init;
      NextCovered(After(init, rpm, tpm, start), evs[|evs| - 1], rpm, tpm, c, m, skew, a);
    }
  }

  /** Tokens recorded in any closed interval of 60 seconds less the skew exceed the limit by at most what the
      calls in flight may record, although `Check` sees only tokens of calls that have ended. */
  lemma TpmOvershootBound(evs: seq<Event>, rpm: int, tpm: int, start: real, c: int, m: int, skew: real, a: real)
    requires Skewed(evs, start, skew) && tpm > 0 && c >= 0 && m >= 0 && Bounded(evs, rpm, tpm, start, c, m)
    ensures TokensIn(After(evs, rpm, tpm, start).recorded, a, WINDOW - skew) <= tpm + c * m
  {
    AlwaysCovered(evs, rpm, tpm, start, c, m, skew, a);
  }

  // ----- and over no longer interval -----

  lemma {:induction false} TokensShorter(q: seq<Sample>, a: real, len: real, longer: real)
    requires len <= longer && forall i :: 0 <= i < |q| ==> q[i].tokens > 0
    ensures TokensIn(q, a, len) <= TokensIn(q, a, longer)
  {
    if q != [] { TokensShorter(q[..|q| - 1], a, len, longer); }
  }

  /** A run all of which happens at time 0, with everything it has admitted and recorded still remembered. */
  ghost predicate AtZero(evs: seq<Event>, r: Run, total: int, inflight: int) {
    && (forall i :: 0 <= i < |evs| ==> evs[i].now == 0.0)
    && r.latest == 0.0 && r.inflight == inflight && r.w.samples == r.recorded
    && (forall i :: 0 <= i < |r.w.requests| ==> r.w.requests[i] == 0.0)
    && (forall i :: 0 <= i < |r.recorded| ==> r.recorded[i].at == 0.0 && r.recorded[i].tokens > 0)
    && Total(r.recorded) == total
  }

  lemma BoundedAppend(evs: seq<Event>, ev: Event, rpm: int, tpm: int, start: real, c: int, m: int)
    requires Bounded(evs, rpm, tpm, start, c, m) && (ev.Finish? ==> ev.tokens <= m)
    requires 0 <= Next(After(evs, rpm, tpm, start), ev, rpm, tpm).inflight <= c
    ensures Bounded(evs + [ev], rpm, tpm, start, c, m)
    ensures After(evs + [ev], rpm, tpm, start) == Next(After(evs, rpm, tpm, start), ev, rpm, tpm)
  {
    var evs' := evs + [ev];
    assert evs'[..|evs|] == evs && evs'[..|evs'|] == evs';
    forall i | 0 <= i <= |evs'| ensures 0 <= After(evs'[..i], rpm, tpm, start).inflight <= c {
      if i <= |evs| { assert evs'[..i] == evs[..i]; }
    }
  }

  lemma NothingDropped(r: Run)
    requires AtZero([], r, Total(r.recorded), r.inflight)
    ensures Prune(r.w, 0.0) == r.w
  {
  }

  /** With room in the limit and in the number of calls, one more call is admitted. */
  lemma OneMoreCall(evs: seq<Event>, tpm: int, c: int, m: int, total: int, inflight: nat) returns (more: seq<Event>)
    requires AtZero(evs, After(evs, 0, tpm, 0.0), total, inflight) && Bounded(evs, 0, tpm, 0.0, c, m)
    requires 0 <= total <= tpm && tpm > 0 && inflight < c
    ensures AtZero(more, After(more, 0, tpm, 0.0), total, inflight + 1) && Bounded(more, 0, tpm, 0.0, c, m)
  {
    var r := After(evs, 0, tpm, 0.0);
    NothingDropped(r);
    more := evs + [Check(0, 0.0)];
    BoundedAppend(evs, Check(0, 0.0), 0, tpm, 0.0, c, m);
  }

  /** A call in flight ends and records `tokens`. */
  lemma OneCallEnds(evs: seq<Event>, tpm: int, c: int, m: int, total: int, inflight: nat, tokens: int)
    returns (more: seq<Event>)
    requires AtZero(evs, After(evs, 0, tpm, 0.0), total, inflight) && Bounded(evs, 0, tpm, 0.0, c, m)
    requires 0 < inflight <= c && 0 < tokens <= m
    ensures AtZero(more, After(more, 0, tpm, 0.0), total + tokens, inflight - 1) && Bounded(more, 0, tpm, 0.0, c, m)
  {
    var r := After(evs, 0, tpm, 0.0);
    NothingDropped(r);
    more := evs + [Finish(tokens, 0.0)];
    BoundedAppend(evs, Finish(tokens, 0.0), 0, tpm, 0.0, c, m);
    TotalAppend(r.recorded, Sample(0.0, tokens));
  }

  /** One call after another, a token each, up to the limit exactly. */
  lemma {:induction false} FillUp(tpm: int, c: int, m: int, n: nat) returns (evs: seq<Event>)
    requires tpm > 0 && c >= 1 && m >= 1 && n <= tpm
    ensures AtZero(evs, After(evs, 0, tpm, 0.0), n, 0) && Bounded(evs, 0, tpm, 0.0, c, m)
  {
    if n == 0 {
      evs := [];
    } else {
      evs := FillUp(tpm, c, m, n - 1);
      evs := OneMoreCall(evs, tpm, c, m, n - 1, 0);
      evs := OneCallEnds(evs, tpm, c, m, n - 1, 1, 1);
    }
  }

  /** Then as many calls at a time as there may be. */
  lemma {:induction false} Crowd(tpm: int, c: int, m: int, n: nat) returns (evs: seq<Event>)
    requires tpm > 0 && c >= 1 && m >= 1 && n <= c
    ensures AtZero(evs, After(evs, 0, tpm, 0.0), tpm, n) && Bounded(evs, 0, tpm, 0.0, c, m)
  {
    if n == 0 {
      evs := FillUp(tpm, c, m, tpm);
    } else {
      evs := Crowd(tpm, c, m, n - 1);
      evs := OneMoreCall(evs, tpm, c, m, tpm, n - 1);
    }
  }

  /** Which all end with as much as a call may record. */
  lemma {:induction false} Overshoot(tpm: int, c: int, m: int, n: nat) returns (evs: seq<Event>)
    requires tpm > 0 && c >= 1 && m >= 1 && n <= c
    ensures AtZero(evs, After(evs, 0, tpm, 0.0), tpm + n * m, c - n) && Bounded(evs, 0, tpm, 0.0, c, m)
  {
    if n == 0 {
      evs := Crowd(tpm, c, m, c);
    } else {
      evs := Overshoot(tpm, c, m, n - 1);
      evs := OneCallEnds(evs, tpm, c, m, tpm + (n - 1) * m, c - (n - 1), m);
      assert tpm + (n - 1) * m + m == tpm + n * m;
    }
  }

  lemma {:induction false} SamplesDropped(q: seq<Sample>, cutoff: real)
    requires forall i :: 0 <= i < |q| ==> q[i].at < cutoff
    ensures DropOld(q, At, cutoff) == []
  {
    if q != [] { SamplesDropped(q[1..], cutoff); }
  }

  lemma {:induction false} TokensAll(q: seq<Sample>, a: real, len: real)
    requires forall i :: 0 <= i < |q| ==> a <= q[i].at <= a + len
    ensures TokensIn(q, a, len) == Total(q)
  {
    if q != [] {
      var init, x := q[..|q| - 1], q[|q| - 1];
      assert q == init + [x];
      TokensAll(init, a, len);
      TotalAppend(init, x);
    }
  }

  /** Once all that is out of sight a call is admitted, and it ends with a reading of the clock that is older. */
  lemma OneTokenTooMany(r: Run, tpm: int, skew: real, len: real)
    requires tpm > 0 && skew >= 0.0 && len >= 0.0 && len > WINDOW - skew && r.inflight == 0
    requires r.w.samples == r.recorded && forall i :: 0 <= i < |r.recorded| ==> r.recorded[i].at == 0.0
    ensures var r1 := Next(r, Check(0, skew + len), 0, tpm);
            var r2 := Next(r1, Finish(1, len), 0, tpm);
            r1.inflight == 1 && r2.inflight == 0 && r2.recorded == r.recorded + [Sample(len, 1)]
  {
    SamplesDropped(r.w.samples, skew + len - WINDOW);
  }

  lemma LateEndSkewed(evs: seq<Event>, check: Event, end: Event, skew: real, len: real)
    requires skew >= 0.0 && len >= 0.0 && check.now == skew + len && end.now == len
    requires forall i :: 0 <= i < |evs| ==> evs[i].now == 0.0
    ensures Skewed(evs + [check] + [end], 0.0, skew)
  {
  }

  /** Some run within the skew and within the number of calls records one token too many in any longer interval. */
  lemma OverrunExists(tpm: int, c: int, m: int, skew: real, len: real) returns (evs: seq<Event>)
    requires tpm > 0 && c >= 1 && m >= 1 && skew >= 0.0 && len >= 0.0 && len > WINDOW - skew
    ensures Skewed(evs, 0.0, skew) && Bounded(evs, 0, tpm, 0.0, c, m)
    ensures TokensIn(After(evs, 0, tpm, 0.0).recorded, 0.0, len) == tpm + c * m + 1
  {
    var full := Overshoot(tpm, c, m, c);
    var r := After(full, 0, tpm, 0.0);
    OneTokenTooMany(r, tpm, skew, len);
    var check := Check(0, skew + len);
    BoundedAppend(full, check, 0, tpm, 0.0, c, m);
    BoundedAppend(full + [check], Finish(1, len), 0, tpm, 0.0, c, m);
    evs := full + [check] + [Finish(1, len)];
    LateEndSkewed(full, check, Finish(1, len), skew, len);
    TokensAll(r.recorded, 0.0, len);
    TokensInAppend(r.recorded, Sample(len, 1), 0.0, len);
  }

  /** No run with this skew, of at most `c` calls at a time of at most `m` tokens each, records more than the limit
      and one round of calls in a closed interval of this length. */
  ghost predicate LimitsTokens(tpm: int, c: int, m: int, skew: real, len: real) {
    forall evs, rpm, start, a :: Skewed(evs, start, skew) && Bounded(evs, rpm, tpm, start, c, m) ==>
                                   TokensIn(After(evs, rpm, tpm, start).recorded, a, len) <= tpm + c * m
  }

  /** The exact reach of the token bound, the same as that of the limit on requests. */
  lemma TpmBoundIff(tpm: int, c: int, m: int, skew: real, len: real)
    requires tpm > 0 && c >= 1 && m >= 1 && skew >= 0.0 && len >= 0.0
    ensures LimitsTokens(tpm, c, m, skew, len) <==> len <= WINDOW - skew
  {
    if len <= WINDOW - skew {
      forall evs, rpm, start, a | Skewed(evs, start, skew) && Bounded(evs, rpm, tpm, start, c, m)
        ensures TokensIn(After(evs, rpm, tpm, start).recorded, a, len) <= tpm + c * m
      {
        TpmOvershootBound(evs, rpm, tpm, start, c, m, skew, a);
        RunProps(evs, rpm, tpm, start, skew);
        TokensShorter(After(evs, rpm, tpm, start).recorded, a, len, WINDOW - skew);
      }
    } else {
      var evs := OverrunExists(tpm, c, m, skew, len);
    }
  }

  /** The overshoot is real: with the limit already used up exactly, a call is still admitted, and what it
      records comes on top. */
  lemma OvershootHappens(r: Run, now: real, tpm: int, m: int)
    requires tpm > 0 && m > 0 && Total(Prune(r.w, now).samples) == tpm == TokensIn(r.recorded, now - WINDOW, WINDOW)
    ensures var r1 := Next(r, Check(0, now), 0, tpm);
            var r2 := Next(r1, Finish(m, now), 0, tpm);
            r1.inflight == r.inflight + 1 && TokensIn(r2.recorded, now - WINDOW, WINDOW) == tpm + m
  {
    var r1 := Next(r, Check(0, now), 0, tpm);
    var r2 := Next(r1, Finish(m, now), 0, tpm);
    assert r2.recorded == r.recorded + [Sample(now, m)];
    TokensInAppend(r.recorded, Sample(now, m), now - WINDOW, WINDOW);
  }
}
