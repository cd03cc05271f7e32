/** The login limiter with exponential back-off and the per-token request limiter of keyhub/ratelimit.py. */
module RateLimit {
  import opened Prelude

  // ----- login attempts -----

  datatype Config = Config(maxFails: int, baseLock: int, maxLock: int)

  predicate Sensible(cfg: Config) {
    cfg.maxFails >= 1 && cfg.baseLock > 0 && cfg.maxLock > 0
  }

  datatype AttemptState = AttemptState(fails: int, lockedUntil: real)

  const UNTRIED := AttemptState(0, 0.0)

  function Pow2(n: nat): (p: int)
    ensures p >= 1
  {
    if n == 0 then 1 else 2 * Pow2(n - 1)
  }

  function Min(a: int, b: int): int {
    if a <= b then a else b
  }

  function LockSeconds(cfg: Config, fails: int): int
    requires fails >= cfg.maxFails
  {
    Min(cfg.baseLock * Pow2(fails - cfg.maxFails), cfg.maxLock)
  }

  function Whole(x: real): int {
    if x.Floor >= 0 then x.Floor else 0
  }

  /** State, whether locked, seconds left. */
  function IsLockedIn(cfg: Config, st: Option<AttemptState>, now: real): (Option<AttemptState>, bool, int) {
    if st.None? then (st, false, 0)
    else if st.value.lockedUntil > now then (st, true, Whole(st.value.lockedUntil - now))
    else if st.value.lockedUntil > 0.0 && st.value.fails >= cfg.maxFails then (Some(UNTRIED), false, 0)
    else (st, false, 0)
  }

  /** State, whether this failure locks, for how long. */
  function FailIn(cfg: Config, st: Option<AttemptState>, now: real): (AttemptState, bool, int) {
    var s := if st.None? then UNTRIED else st.value;
    var fails := s.fails + 1;
    if fails >= cfg.maxFails then
      var secs := LockSeconds(cfg, fails);
      (AttemptState(fails, now + secs as real), true, secs)
    else (s.(fails := fails), false, 0)
  }

  class LoginRateLimiter {
    const cfg: Config
    var state: map<string, AttemptState>

    constructor (cfg: Config)
      ensures this.cfg == cfg && state == map[]
    {
      this.cfg := cfg;
      state := map[];
    }

    ghost function At(ip: string): Option<AttemptState>
      reads this
    {
      if ip in state then Some(state[ip]) else None
    }

    method IsLocked(ip: string, now: real) returns (locked: bool, left: int)
      modifies this
      ensures (At(ip), locked, left) == IsLockedIn(cfg, old(At(ip)), now)
      ensures forall j :: j != ip ==> At(j) == old(At(j))
    {
      if ip !in state { return false, 0; }
      var st := state[ip];
      if st.lockedUntil > now {
        var x := (st.lockedUntil - now).Floor;
        return true, if x >= 0 then x else 0;
      }
      if st.lockedUntil > 0.0 && st.fails >= cfg.maxFails {
        state := state[ip := AttemptState(0, 0.0)];
      }
      return false, 0;
    }

    method RecordFailure(ip: string, now: real) returns (locks: bool, secs: int)
      modifies this
      ensures At(ip).Some? && (At(ip).value, locks, secs) == FailIn(cfg, old(At(ip)), now)
      ensures forall j :: j != ip ==> At(j) == old(At(j))
    {
      var st := if ip in state then state[ip] else AttemptState(0, 0.0);
      st := st.(fails := st.fails + 1);
      locks, secs := false, 0;
      if st.fails >= cfg.maxFails {
        var excess := st.fails - cfg.maxFails;
        var lock := cfg.baseLock * Pow2(excess);
        secs := if lock <= cfg.maxLock then lock else cfg.maxLock;
        st := st.(lockedUntil := now + secs as real);
        locks := true;
      }
      state := state[ip := st];
    }

    method RecordSuccess(ip: string)
      modifies this
      ensures At(ip) == None
      ensures forall j :: j != ip ==> At(j) == old(At(j))
    {
      state := state - {ip};
    }
  }

  /** The shortest lock there is. */
  function ShortestLock(cfg: Config): int {
    Min(cfg.baseLock, cfg.maxLock)
  }

  lemma LockLength(cfg: Config, st: Option<AttemptState>, now: real)
    requires Sensible(cfg)
    ensures var (s, locks, secs) := FailIn(cfg, st, now);
            locks ==> ShortestLock(cfg) <= secs <= cfg.maxLock && s.lockedUntil == now + secs as real
  {
    var s := if st.None? then UNTRIED else st.value;
    if s.fails + 1 >= cfg.maxFails {
      var p := Pow2(s.fails + 1 - cfg.maxFails);
      assert cfg.baseLock * p >= cfg.baseLock;
    }
  }

  /** The first lock of a cycle takes the base time, each failure on top of it doubles the lock, and the maximum caps
      both. */
  lemma BackOffDoubles(cfg: Config, fails: int)
    requires Sensible(cfg) && fails >= cfg.maxFails
    ensures LockSeconds(cfg, cfg.maxFails) == if cfg.baseLock <= cfg.maxLock then cfg.baseLock else cfg.maxLock
    ensures LockSeconds(cfg, fails + 1)
         == if 2 * LockSeconds(cfg, fails) <= cfg.maxLock then 2 * LockSeconds(cfg, fails) else cfg.maxLock
  {
    var p := Pow2(fails - cfg.maxFails);
    assert Pow2(fails + 1 - cfg.maxFails) == 2 * p;
    assert cfg.baseLock * (2 * p) == 2 * (cfg.baseLock * p);
  }

  /** An address is locked while its lock runs, and told the whole seconds that are left; a lock that has run out at
      or past the threshold starts the count over; nothing else changes. */
  lemma LockVerdict(cfg: Config, st: Option<AttemptState>, now: real)
    ensures var (st', locked, left) := IsLockedIn(cfg, st, now);
            && (locked <==> st.Some? && st.value.lockedUntil > now)
            && (locked ==> st' == st && left >= 0 && left as real <= st.value.lockedUntil - now < (left + 1) as real)
            && (!locked ==> left == 0)
            && (!locked && st.Some? && st.value.lockedUntil > 0.0 && st.value.fails >= cfg.maxFails ==>
                  st'.Some? && st'.value.fails == 0 && st'.value.lockedUntil == 0.0)
            && (!locked && (st.None? || st.value.lockedUntil <= 0.0 || st.value.fails < cfg.maxFails) ==> st' == st)
  {
  }

  /** A failure counts one, from none for an address not seen; it locks from the threshold on, and for how long. */
  lemma FailVerdict(cfg: Config, st: Option<AttemptState>, now: real)
    ensures var (s, locks, secs) := FailIn(cfg, st, now);
            && s.fails == 1 + (if st.Some? then st.value.fails else 0)
            && (locks <==> s.fails >= cfg.maxFails)
            && (locks ==> secs == LockSeconds(cfg, s.fails) && s.lockedUntil == now + secs as real)
            && (!locks ==> secs == 0 && s.lockedUntil == if st.Some? then st.value.lockedUntil else 0.0)
  {
  }

  // ----- any interleaving of attempts from one address -----

  datatype Event = Check(now: real) | Failure(now: real) | Success

  /** The address's state and the attempts that passed the check and have not ended. */
  datatype Traffic = Traffic(st: Option<AttemptState>, inflight: int)

  function Next(cfg: Config, t: Traffic, ev: Event): Traffic {
    match ev
    case Check(now) =>
      var (st, locked, _) := IsLockedIn(cfg, t.st, now);
      Traffic(st, if locked then t.inflight else t.inflight + 1)
    case Failure(now) => Traffic(Some(FailIn(cfg, t.st, now).0), t.inflight - 1)
    case Success => Traffic(None, t.inflight - 1)
  }

  function After(cfg: Config, evs: seq<Event>): Traffic {
    if evs == [] then Traffic(None, 0) else Next(cfg, After(cfg, evs[..|evs| - 1]), evs[|evs| - 1])
  }

  predicate Concurrency(cfg: Config, evs: seq<Event>, c: int) {
    && (forall i :: 0 <= i <= |evs| ==> 0 <= After(cfg, evs[..i]).inflight <= c)
    && (forall i :: 0 <= i < |evs| && !evs[i].Success? ==> evs[i].now >= 0.0)
  }

  /** An address is locked, now or in the past, exactly when its failures have reached the threshold; and
      past the threshold the attempts still in flight are counted in. */
  predicate Consistent(cfg: Config, t: Traffic, c: int) {
    t.st.Some? ==>
      && (t.st.value.lockedUntil > 0.0 <==> t.st.value.fails >= cfg.maxFails)
      && (t.st.value.fails >= cfg.maxFails ==> t.st.value.fails + t.inflight <= cfg.maxFails + c - 1)
  }

  lemma NextConsistent(cfg: Config, t: Traffic, ev: Event, c: int)
    requires Sensible(cfg) && c >= 1 && Consistent(cfg, t, c)
    requires 0 <= t.inflight <= c && 0 <= Next(cfg, t, ev).inflight <= c
    requires !ev.Success? ==> ev.now >= 0.0
    ensures Consistent(cfg, Next(cfg, t, ev), c)
  {
    if ev.Failure? { LockLength(cfg, t.st, ev.now); }
  }

  /** In every run: locked_until is positive exactly when the failures have reached the threshold, and with
      `c` attempts at a time a lock cycle counts at most max_fails + c - 1 failures. */
  lemma {:induction false} LoginLimiterIsConsistent(cfg: Config, evs: seq<Event>, c: int)
    requires Sensible(cfg) && c >= 1 && Concurrency(cfg, evs, c)
    ensures var t := After(cfg, evs);
            && Consistent(cfg, t, c)
            && (t.st.Some? ==> (t.st.value.lockedUntil > 0.0 <==> t.st.value.fails >= cfg.maxFails))
            && (t.st.Some? ==> t.st.value.fails <= cfg.maxFails + c - 1)
  {
    if evs != [] {
      var init := evs[..|evs| - 1];
      assert evs[..|evs|] == evs;
      forall i | 0 <= i <= |init| ensures 0 <= After(cfg, init[..i]).inflight <= c {
        assert init[..i] == evs[..i];
      }
      LoginLimiterIsConsistent(cfg, init, c);
      NextConsistent(cfg, After(cfg, init), evs[|evs| - 1], c);
    }
  }

  // ----- one attempt at a time -----

  /** A failed attempt: checked, let through, failed. */
  datatype Attempt = Attempt(checkedAt: real, failedAt: real)

  function StateAfter(cfg: Config, atts: seq<Attempt>): Option<AttemptState> {
    if atts == [] then None else
    var a := atts[|atts| - 1];
    Some(FailIn(cfg, IsLockedIn(cfg, StateAfter(cfg, atts[..|atts| - 1]), a.checkedAt).0, a.failedAt).0)
  }

  /** Attempts follow one another, and every one of them was told it was not locked. */
  predicate LetThrough(cfg: Config, atts: seq<Attempt>) {
    && (forall i :: 0 <= i < |atts| ==> 0.0 <= atts[i].checkedAt <= atts[i].failedAt)
    && (forall i :: 0 < i < |atts| ==> atts[i - 1].failedAt <= atts[i].checkedAt)
    && (forall i :: 0 <= i < |atts| ==> !IsLockedIn(cfg, StateAfter(cfg, atts[..i]), atts[i].checkedAt).1)
  }

  lemma LetThroughPrefix(cfg: Config, atts: seq<Attempt>, k: nat)
    requires LetThrough(cfg, atts) && k <= |atts|
    ensures LetThrough(cfg, atts[..k])
  {
    forall i | 0 <= i < k ensures atts[..k][..i] == atts[..i] {}
  }

  /** After each attempt the count is one up, or starts over at one after a lock that has been sat out. */
  lemma {:induction false} CountAfter(cfg: Config, atts: seq<Attempt>)
    requires Sensible(cfg) && LetThrough(cfg, atts) && atts != []
    ensures var st := StateAfter(cfg, atts);
            && 1 <= st.value.fails <= cfg.maxFails
            && (st.value.fails == cfg.maxFails ==>
                  st.value.lockedUntil >= atts[|atts| - 1].failedAt + ShortestLock(cfg) as real)
            && (st.value.lockedUntil > 0.0 <==> st.value.fails >= cfg.maxFails)
    ensures |atts| > 1 ==>
              var before := StateAfter(cfg, atts[..|atts| - 1]).value;
              if before.fails == cfg.maxFails
              then atts[|atts| - 1].failedAt >= atts[|atts| - 2].failedAt + ShortestLock(cfg) as real
              else StateAfter(cfg, atts).value.fails == before.fails + 1
  {
    var n := |atts| - 1;
    LetThroughPrefix(cfg, atts, n);
    if n > 0 { CountAfter(cfg, atts[..n]); }
    assert !IsLockedIn(cfg, StateAfter(cfg, atts[..n]), atts[n].checkedAt).1;
    LockLength(cfg, IsLockedIn(cfg, StateAfter(cfg, atts[..n]), atts[n].checkedAt).0, atts[n].failedAt);
  }

  /** `f` are the times of failures, `p` the counts right after them: the count goes up by one, and once it
      has reached `m` the next failure is at least `lock` later. */
  predicate CycleAt(f: seq<real>, p: seq<int>, m: int, lock: real, i: nat)
    requires |p| == |f|
  {
    i < |f| ==>
      && 1 <= p[i] <= m
      && (i + 1 < |f| ==>
            && f[i] <= f[i + 1]
            && if p[i] == m then f[i + 1] >= f[i] + lock else p[i + 1] == p[i] + 1)
  }

  predicate Cycles(f: seq<real>, p: seq<int>, m: int, lock: real) {
    |p| == |f| && forall i: nat :: i < |f| ==> CycleAt(f, p, m, lock, i)
  }

  function Times(atts: seq<Attempt>): seq<real> {
    seq(|atts|, i requires 0 <= i < |atts| => atts[i].failedAt)
  }

  function Counts(cfg: Config, atts: seq<Attempt>): seq<int> {
    seq(|atts|, i requires 0 <= i < |atts| => StateAfter(cfg, atts[..i + 1]).value.fails)
  }

  lemma AttemptsCycle(cfg: Config, atts: seq<Attempt>)
    requires Sensible(cfg) && LetThrough(cfg, atts)
    ensures Cycles(Times(atts), Counts(cfg, atts), cfg.maxFails, ShortestLock(cfg) as real)
  {
    var f, p, m, lock := Times(atts), Counts(cfg, atts), cfg.maxFails, ShortestLock(cfg) as real;
    forall i: nat | i < |f| ensures CycleAt(f, p, m, lock, i) {
      LetThroughPrefix(cfg, atts, i + 1);
      CountAfter(cfg, atts[..i + 1]);
      if i + 1 < |f| {
        CycleStep(cfg, atts, i);
      }
    }
  }

  lemma CycleStep(cfg: Config, atts: seq<Attempt>, i: nat)
    requires Sensible(cfg) && LetThrough(cfg, atts) && i + 1 < |atts|
    ensures atts[i].failedAt <= atts[i + 1].failedAt
    ensures var before := StateAfter(cfg, atts[..i + 1]).value.fails;
            if before == cfg.maxFails
            then atts[i + 1].failedAt >= atts[i].failedAt + ShortestLock(cfg) as real
            else StateAfter(cfg, atts[..i + 2]).value.fails == before + 1
  {
    LetThroughPrefix(cfg, atts, i + 2);
    CountAfter(cfg, atts[..i + 2]);
    assert atts[..i + 2][..i + 1] == atts[..i + 1];
    assert 0 < i + 1 && atts[i + 1 - 1].failedAt <= atts[i + 1].checkedAt;
  }

  lemma Monotone(f: seq<real>, p: seq<int>, m: int, lock: real, i: nat, j: nat)
    requires Cycles(f, p, m, lock) && i <= j < |f|
    ensures f[i] <= f[j]
  {
    if i < j {
      Monotone(f, p, m, lock, i, j - 1);
      assert CycleAt(f, p, m, lock, j - 1);
    }
  }

  /** Counting up from failure `i`, the threshold is reached within m failures. */
  lemma {:induction false} LockWithin(f: seq<real>, p: seq<int>, m: int, lock: real, i: nat, j: nat)
    requires Cycles(f, p, m, lock) && i <= j < |f| && j == i + m - p[i]
    ensures p[j] == m
    decreases j - i
  {
    assert CycleAt(f, p, m, lock, i);
    if i < j {
      LockWithin(f, p, m, lock, i + 1, j);
    }
  }

  /** Any failure and the one max_fails later are at least one shortest lock apart. */
  lemma Spacing(f: seq<real>, p: seq<int>, m: int, lock: real, i: nat)
    requires Cycles(f, p, m, lock) && 0 < m && i + m < |f|
    ensures f[i + m] >= f[i] + lock
  {
    assert CycleAt(f, p, m, lock, i);
    var j := i + m - p[i];
    LockWithin(f, p, m, lock, i, j);
    assert CycleAt(f, p, m, lock, j);
    Monotone(f, p, m, lock, i, j);
    Monotone(f, p, m, lock, j + 1, i + m);
  }

  lemma MulStep(q: nat, x: real, m: nat)
    ensures (q + 1) as real * x == q as real * x + x
    ensures m * (q + 1) == m * q + m >= m
  {
  }

  lemma {:induction false} SpanBound(f: seq<real>, p: seq<int>, m: int, lock: real, i: nat, k: nat, q: nat)
    requires Cycles(f, p, m, lock) && 0 < m && i <= k < |f|
    requires f[k] - f[i] < (q + 1) as real * lock
    ensures k - i + 1 <= m * (q + 1)
    decreases q
  {
    MulStep(q, lock, m);
    if k - i >= m {
      Spacing(f, p, m, lock, i);
      Monotone(f, p, m, lock, i + m, k);
      if q > 0 {
        SpanBound(f, p, m, lock, i + m, k, q - 1);
      }
    }
  }

  /** Guessing one password at a time, without a success in between, no span of `span` seconds holds more
      than max_fails * (span / shortest lock + 1) failures. */
  lemma GuessRate(cfg: Config, atts: seq<Attempt>, i: nat, k: nat, span: real)
    requires Sensible(cfg) && LetThrough(cfg, atts) && i <= k < |atts|
    requires atts[k].failedAt - atts[i].failedAt <= span
    ensures k - i + 1 <= cfg.maxFails * ((span / ShortestLock(cfg) as real).Floor + 1)
  {
    AttemptsCycle(cfg, atts);
    FailuresIn(Times(atts), Counts(cfg, atts), cfg.maxFails, ShortestLock(cfg) as real, i, k, span);
  }

  lemma FailuresIn(f: seq<real>, p: seq<int>, m: int, lock: real, i: nat, k: nat, span: real)
    requires Cycles(f, p, m, lock) && 0 < m && lock > 0.0 && i <= k < |f| && f[k] - f[i] <= span
    ensures k - i + 1 <= m * ((span / lock).Floor + 1)
  {
    Monotone(f, p, m, lock, i, k);
    DivFloor(span, lock);
    SpanBound(f, p, m, lock, i, k, (span / lock).Floor);
  }

  lemma DivFloor(x: real, y: real)
    requires x >= 0.0 && y > 0.0
    ensures (x / y).Floor >= 0 && x < ((x / y).Floor + 1) as real * y
  {
    var r := x / y;
    assert r * y == x;
    assert r < (r.Floor + 1) as real;
    assert r >= 0.0;
  }

  // ----- requests per token -----

  const WINDOW := 60.0

  function Within(ts: seq<real>, now: real): seq<real> {
    if ts == [] then []
    else if now - ts[0] < WINDOW then [ts[0]] + Within(ts[1..], now)
    else Within(ts[1..], now)
  }

  /** State, whether admitted, quota left. */
  function TokenCheckIn(reqs: seq<real>, rpm: int, now: real): (seq<real>, bool, int) {
    if rpm <= 0 then (reqs, true, -1) else
    var recent := Within(reqs, now);
    if |recent| >= rpm then (recent, false, 0) else (recent + [now], true, rpm - |recent| - 1)
  }

  class TokenRateLimiter {
    var requests: map<string, seq<real>>

    constructor ()
      ensures requests == map[]
    {
      requests := map[];
    }

    ghost function At(token: string): seq<real>
      reads this
    {
      if token in requests then requests[token] else []
    }

    method Check(token: string, rpm: int, now: real) returns (admitted: bool, left: int)
      modifies this
      ensures (At(token), admitted, left) == TokenCheckIn(old(At(token)), rpm, now)
      ensures forall j :: j != token ==> At(j) == old(At(j))
    {
      if rpm <= 0 { return true, -1; }
      var reqs := if token in requests then requests[token] else [];
      reqs := Within(reqs, now);
      if |reqs| >= rpm {
        requests := requests[token := reqs];
        return false, 0;
      }
      reqs := reqs + [now];
      requests := requests[token := reqs];
      return true, rpm - |reqs|;
    }
  }

  /** The stamps kept and the stamps ever admitted, after requests at the given times. */
  function TokenRun(times: seq<real>, rpm: int): (seq<real>, seq<real>) {
    if times == [] then ([], []) else
    var (kept, all) := TokenRun(times[..|times| - 1], rpm);
    var now := times[|times| - 1];
    var (kept', ok, _) := TokenCheckIn(kept, rpm, now);
    (kept', if ok then all + [now] else all)
  }

  /** A half-open interval of `len` seconds from `a` on, closed on the left or on the right. */
  predicate InSpan(t: real, a: real, len: real, closedLeft: bool) {
    if closedLeft then a <= t < a + len else a < t <= a + len
  }

  function CountSpan(ts: seq<real>, a: real, len: real, closedLeft: bool): nat {
    if ts == [] then 0
    else (if InSpan(ts[0], a, len, closedLeft) then 1 else 0) + CountSpan(ts[1..], a, len, closedLeft)
  }

  /** The clock is read before the lock is taken: readings may arrive out of order, by at most `skew`. */
  predicate Skewed(times: seq<real>, skew: real) {
    skew >= 0.0 && forall i, j :: 0 <= i < j < |times| ==> times[i] - skew <= times[j]
  }

  lemma CountAppend(ts: seq<real>, t: real, a: real, len: real, closedLeft: bool)
    ensures CountSpan(ts + [t], a, len, closedLeft)
         == CountSpan(ts, a, len, closedLeft) + if InSpan(t, a, len, closedLeft) then 1 else 0
  {
    if ts == [] {
      assert ts + [t] == [t];
    } else {
      assert (ts + [t])[1..] == ts[1..] + [t];
      CountAppend(ts[1..], t, a, len, closedLeft);
    }
  }

  /** At this reading nothing from `a` on is a minute old yet. */
  predicate TooEarlyToDrop(now: real, a: real, closedLeft: bool) {
    if closedLeft then now < a + WINDOW else now <= a + WINDOW
  }

  lemma CountWithin(ts: seq<real>, now: real, a: real, len: real, closedLeft: bool)
    requires TooEarlyToDrop(now, a, closedLeft)
    ensures CountSpan(Within(ts, now), a, len, closedLeft) == CountSpan(ts, a, len, closedLeft) <= |Within(ts, now)|
  {
    if ts != [] { CountWithin(ts[1..], now, a, len, closedLeft); }
  }

  /** As long as it is too early to drop anything from `a` on, what is kept and the full history agree on it. */
  lemma {:induction false} KeptIsRecent(times: seq<real>, rpm: int, a: real, len: real, closedLeft: bool)
    requires rpm > 0 && forall i :: 0 <= i < |times| ==> TooEarlyToDrop(times[i], a, closedLeft)
    ensures var (kept, all) := TokenRun(times, rpm);
            CountSpan(kept, a, len, closedLeft) == CountSpan(all, a, len, closedLeft)
  {
    if times != [] {
      var init, now := times[..|times| - 1], times[|times| - 1];
      var (kept, all) := TokenRun(init, rpm);
      KeptIsRecent(init, rpm, a, len, closedLeft);
      CountWithin(kept, now, a, len, closedLeft);
      CountAppend(Within(kept, now), now, a, len, closedLeft);
      CountAppend(all, now, a, len, closedLeft);
    }
  }

  /** No half-open interval of 60 seconds less the skew ever holds more admitted requests of a token than its
      limit, although stamps older than a minute are thrown away. */
  lemma {:induction false} TokenRpmBound(times: seq<real>, rpm: int, skew: real, a: real, closedLeft: bool)
    requires rpm > 0 && Skewed(times, skew)
    ensures CountSpan(TokenRun(times, rpm).1, a, WINDOW - skew, closedLeft) <= rpm
  {
    if times != [] {
      var init, now := times[..|times| - 1], times[|times| - 1];
      var (kept, all) := TokenRun(init, rpm);
      TokenRpmBound(init, rpm, skew, a, closedLeft);
      CountAppend(all, now, a, WINDOW - skew, closedLeft);
      if InSpan(now, a, WINDOW - skew, closedLeft) {
        forall i | 0 <= i < |init| ensures TooEarlyToDrop(init[i], a, closedLeft) {
          assert times[i] - skew <= times[|times| - 1];
        }
        KeptIsRecent(init, rpm, a, WINDOW - skew, closedLeft);
        CountWithin(kept, now, a, WINDOW - skew, closedLeft);
      }
    }
  }

  lemma {:induction false} WithinIsCount(kept: seq<real>, now: real)
    requires forall i :: 0 <= i < |kept| ==> kept[i] <= now
    ensures |Within(kept, now)| == CountSpan(kept, now - WINDOW, WINDOW, false)
  {
    if kept != [] { WithinIsCount(kept[1..], now); }
  }

  lemma {:induction false} KeptNotLater(times: seq<real>, rpm: int, now: real)
    requires rpm > 0 && forall i :: 0 <= i < |times| ==> times[i] <= now
    ensures forall t :: t in TokenRun(times, rpm).0 ==> t <= now
  {
    if times != [] {
      var init, at := times[..|times| - 1], times[|times| - 1];
      KeptNotLater(init, rpm, now);
      forall t | t in Within(TokenRun(init, rpm).0, at) ensures t <= now { WithinIn(TokenRun(init, rpm).0, at, t); }
    }
  }

  lemma WithinIn(ts: seq<real>, now: real, t: real)
    requires t in Within(ts, now)
    ensures t in ts
  {
    if ts != [] && t != ts[0] { WithinIn(ts[1..], now, t); }
  }

  /** A request is admitted if and only if fewer than the limit have been admitted in the minute before it, of all that
      ever were, and is told how many more may be; without a limit every request is, and nothing is kept. */
  lemma TokenVerdict(times: seq<real>, rpm: int, now: real)
    requires rpm > 0 ==> forall i :: 0 <= i < |times| ==> times[i] <= now
    ensures rpm <= 0 ==> TokenCheckIn(TokenRun(times, rpm).0, rpm, now) == (TokenRun(times, rpm).0, true, -1)
    ensures rpm > 0 ==>
              var (kept, all) := TokenRun(times, rpm);
              var (_, admitted, left) := TokenCheckIn(kept, rpm, now);
              var lately := CountSpan(all, now - 60.0, 60.0, false);
              && (admitted <==> lately < rpm)
              && left == if admitted then rpm - lately - 1 else 0
  {
    if rpm > 0 {
      var kept := TokenRun(times, rpm).0;
      KeptIsRecent(times, rpm, now - WINDOW, WINDOW, false);
      KeptNotLater(times, rpm, now);
      assert forall i :: 0 <= i < |kept| ==> kept[i] in kept;
      WithinIsCount(kept, now);
    }
  }

  // ----- and no longer interval -----

  lemma TokenStep(times: seq<real>, now: real, rpm: int)
    requires rpm > 0
    ensures var (kept, all) := TokenRun(times, rpm);
            TokenRun(times + [now], rpm)
            == if |Within(kept, now)| >= rpm then (Within(kept, now), all) else (Within(kept, now) + [now], all + [now])
  {
    assert (times + [now])[..|times|] == times;
  }

  function Zeros(n: nat): seq<real> {
    if n == 0 then [] else Zeros(n - 1) + [0.0]
  }

  lemma {:induction false} ZerosProps(n: nat, a: real, len: real, closedLeft: bool)
    ensures |Zeros(n)| == n
    ensures forall i :: 0 <= i < n ==> Zeros(n)[i] == 0.0
    ensures InSpan(0.0, a, len, closedLeft) ==> CountSpan(Zeros(n), a, len, closedLeft) == n
  {
    if n > 0 {
      ZerosProps(n - 1, a, len, closedLeft);
      CountAppend(Zeros(n - 1), 0.0, a, len, closedLeft);
    }
  }

  lemma AllRecent(ts: seq<real>, now: real)
    requires forall i :: 0 <= i < |ts| ==> now - ts[i] < WINDOW
    ensures Within(ts, now) == ts
  {
    if ts != [] { AllRecent(ts[1..], now); }
  }

  lemma NoneRecent(ts: seq<real>, now: real)
    requires forall i :: 0 <= i < |ts| ==> now - ts[i] >= WINDOW
    ensures Within(ts, now) == []
  {
    if ts != [] { NoneRecent(ts[1..], now); }
  }

  lemma {:induction false} ZerosAdmitted(n: nat, rpm: int)
    requires n <= rpm
    ensures TokenRun(Zeros(n), rpm) == (Zeros(n), Zeros(n))
  {
    if n > 0 {
      ZerosProps(n, 0.0, 1.0, true);
      ZerosProps(n - 1, 0.0, 1.0, true);
      assert Zeros(n)[..n - 1] == Zeros(n - 1);
      ZerosAdmitted(n - 1, rpm);
      AllRecent(Zeros(n - 1), 0.0);
    }
  }

  /** A full burst, a request a minute later that makes the limiter forget it, and one whose reading is older. */
  lemma OvertakingAdmitted(rpm: int, late: real)
    requires rpm >= 2 && 0.0 <= late <= WINDOW
    ensures TokenRun(Zeros(rpm) + [WINDOW, late], rpm).1 == Zeros(rpm) + [WINDOW] + [late]
  {
    var zeros := Zeros(rpm);
    var t1 := zeros + [WINDOW];
    ZerosProps(rpm, 0.0, 1.0, true);
    ZerosAdmitted(rpm, rpm);
    NoneRecent(zeros, WINDOW);
    assert t1 + [late] == zeros + [WINDOW, late];
    TokenStep(zeros, WINDOW, rpm);
    assert Within(zeros, WINDOW) + [WINDOW] == [WINDOW];
    TokenStep(t1, late, rpm);
    AllRecent([WINDOW], late);
  }

  /** No run with this skew admits more than the limit in a half-open interval of this length. */
  ghost predicate Limits(rpm: int, skew: real, len: real) {
    forall times, a, closedLeft :: Skewed(times, skew) ==> CountSpan(TokenRun(times, rpm).1, a, len, closedLeft) <= rpm
  }

  lemma {:induction false} CountShorter(ts: seq<real>, a: real, len: real, longer: real, closedLeft: bool)
    requires len <= longer
    ensures CountSpan(ts, a, len, closedLeft) <= CountSpan(ts, a, longer, closedLeft)
  {
    if ts != [] { CountShorter(ts[1..], a, len, longer, closedLeft); }
  }

  /** With a limit of one, stamps are a minute apart and in order, whatever the readings. */
  lemma {:induction false} OneAMinute(times: seq<real>)
    ensures var (kept, all) := TokenRun(times, 1);
            && (all == [] ==> kept == []) && (all != [] ==> kept == [all[|all| - 1]])
            && forall i, j :: 0 <= i < j < |all| ==> all[i] + WINDOW <= all[j]
  {
    if times != [] {
      var init, now := times[..|times| - 1], times[|times| - 1];
      var (kept, all) := TokenRun(init, 1);
      OneAMinute(init);
      if all != [] {
        assert [all[|all| - 1]][1..] == [];
        assert Within(kept, now) == if now - all[|all| - 1] < WINDOW then kept else [];
      }
    }
  }

  lemma SpacedCount(ts: seq<real>, a: real, len: real, closedLeft: bool)
    requires (forall i, j :: 0 <= i < j < |ts| ==> ts[i] + WINDOW <= ts[j]) && len <= WINDOW
    ensures CountSpan(ts, a, len, closedLeft) <= 1
    ensures (forall i :: 0 <= i < |ts| ==> !InSpan(ts[i], a, len, closedLeft)) ==>
              CountSpan(ts, a, len, closedLeft) == 0
  {
    if ts != [] { SpacedCount(ts[1..], a, len, closedLeft); }
  }

  /** The exact reach of the limit: intervals of 60 seconds less the skew, or, with a limit of one, of 60
      seconds.  So it holds over a full minute if and only if the limit is one or readings never arrive out
      of order. */
  lemma TokenRpmBoundIff(rpm: int, skew: real, len: real)
    requires rpm > 0 && skew >= 0.0 && len > 0.0
    ensures Limits(rpm, skew, len) <==> len <= if rpm == 1 then WINDOW else WINDOW - skew
  {
    if len <= if rpm == 1 then WINDOW else WINDOW - skew {
      forall times, a, closedLeft | Skewed(times, skew)
        ensures CountSpan(TokenRun(times, rpm).1, a, len, closedLeft) <= rpm
      {
        if rpm == 1 {
          OneAMinute(times);
          SpacedCount(TokenRun(times, 1).1, a, len, closedLeft);
        } else {
          TokenRpmBound(times, rpm, skew, a, closedLeft);
          CountShorter(TokenRun(times, rpm).1, a, len, WINDOW - skew, closedLeft);
        }
      }
    } else if rpm == 1 {
      TwoAMinuteApart(skew, len);
    } else {
      OneTooMany(rpm, skew, len);
    }
  }

  lemma TwoAMinuteApart(skew: real, len: real)
    requires skew >= 0.0 && len > WINDOW
    ensures !Limits(1, skew, len)
  {
    var times := [0.0, WINDOW];
    TokenStep([], 0.0, 1);
    TokenStep([0.0], WINDOW, 1);
    assert [] + [0.0] == [0.0] && [0.0] + [WINDOW] == times;
    NoneRecent([0.0], WINDOW);
    assert TokenRun(times, 1).1 == [0.0] + [WINDOW];
    CountAppend([0.0], WINDOW, 0.0, len, true);
    assert CountSpan([0.0], 0.0, len, true) == 1;
    assert Skewed(times, skew);
    assert CountSpan(TokenRun(times, 1).1, 0.0, len, true) == 2;
  }

  lemma OneTooMany(rpm: int, skew: real, len: real)
    requires rpm >= 2 && skew >= 0.0 && len > 0.0 && len > WINDOW - skew
    ensures !Limits(rpm, skew, len)
  {
    var late := if skew <= WINDOW then WINDOW - skew else 0.0;
    var times := Zeros(rpm) + [WINDOW, late];
    ZerosProps(rpm, 0.0, len, true);
    OvertakingAdmitted(rpm, late);
    CountAppend(Zeros(rpm), WINDOW, 0.0, len, true);
    CountAppend(Zeros(rpm) + [WINDOW], late, 0.0, len, true);
    assert Skewed(times, skew);
    assert CountSpan(TokenRun(times, rpm).1, 0.0, len, true) > rpm;
  }
}
