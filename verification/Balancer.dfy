/** The key balancer and circuit breaker of keyhub/llm/balancer.py: what its in-memory maps and the
    status column of the key table make of picks, successes, failures and the passing of time. */
module Balancer {
  import opened Prelude

  type KeyId = string

  datatype Status = Active | Disabled | RateLimited | Exhausted | Error | CircuitBreaker

  /** `latency` is the running average in milliseconds, 0 before the first call; `cost` is in micro-dollars. */
  datatype KeyRow = KeyRow(id: KeyId, provider: string, status: Status, cooldownUntil: Option<real>,
                           allowedModels: seq<string>, priority: int, latency: nat, cost: int)

  /** The breaker's maps. */
  datatype Breaker = Breaker(fails: map<KeyId, int>, openUntil: map<KeyId, real>, halfOpen: map<KeyId, real>)

  datatype World = World(mem: Breaker, cursors: map<string, nat>, inflight: map<KeyId, int>, rows: seq<KeyRow>)

  const RATE_LIMIT_COOLDOWN := 60.0
  const ERROR_COOLDOWN := 30.0
  const THRESHOLD := 5
  const COOLDOWN := 300.0

  // ----- the breaker of one key -----

  datatype Phase = Closed | Open | HalfOpen | Probing

  function PhaseOf(m: Breaker, k: KeyId, now: real): Phase {
    if k !in m.openUntil || now >= m.openUntil[k] then Closed
    else if now < m.openUntil[k] - COOLDOWN / 2.0 then Open
    else if k in m.halfOpen then Probing
    else HalfOpen
  }

  function FailsOf(m: Breaker, k: KeyId): int {
    if k in m.fails then m.fails[k] else 0
  }

  function OnFailure(m: Breaker, k: KeyId, now: real): (Breaker, bool) {
    var count := FailsOf(m, k) + 1;
    if count >= THRESHOLD
    then (Breaker(m.fails[k := count], m.openUntil[k := now + COOLDOWN], m.halfOpen - {k}), true)
    else (m.(fails := m.fails[k := count]), false)
  }

  function Forget(m: Breaker, ks: set<KeyId>): Breaker {
    Breaker(m.fails - ks, m.openUntil - ks, m.halfOpen - ks)
  }

  lemma ForgetOneMore(m: Breaker, ks: set<KeyId>, k: KeyId)
    ensures Forget(Forget(m, ks), {k}) == Forget(m, ks + {k})
  {
    assert forall x: map<KeyId, int> :: x - ks - {k} == x - (ks + {k});
    assert forall x: map<KeyId, real> :: x - ks - {k} == x - (ks + {k});
  }

  // ----- in-flight counts -----

  function InFlight(inflight: map<KeyId, int>, k: KeyId): int {
    if k in inflight then inflight[k] else 0
  }

  function Acquire(inflight: map<KeyId, int>, k: KeyId): map<KeyId, int> {
    inflight[k := InFlight(inflight, k) + 1]
  }

  function Release(inflight: map<KeyId, int>, k: KeyId): map<KeyId, int> {
    inflight[k := if InFlight(inflight, k) > 0 then InFlight(inflight, k) - 1 else 0]
  }

  // ----- clean-up and query -----

  function Expired(m: Breaker, now: real): set<KeyId> {
    set k | k in m.openUntil && now >= m.openUntil[k]
  }

  function Heal(r: KeyRow, expired: set<KeyId>): KeyRow {
    if r.id in expired && r.status.CircuitBreaker? then r.(status := Active, cooldownUntil := None) else r
  }

  function HealAll(rows: seq<KeyRow>, expired: set<KeyId>): (healed: seq<KeyRow>)
    ensures |healed| == |rows| && forall i :: 0 <= i < |rows| ==> healed[i] == Heal(rows[i], expired)
  {
    if rows == [] then [] else [Heal(rows[0], expired)] + HealAll(rows[1..], expired)
  }

  /** The database update may fail; the maps are cleaned regardless. */
  function Cleanup(w: World, now: real, commits: bool): World {
    var expired := Expired(w.mem, now);
    w.(mem := Forget(w.mem, expired), rows := if commits then HealAll(w.rows, expired) else w.rows)
  }

  predicate Cooled(r: KeyRow, wall: real) {
    r.cooldownUntil.None? || r.cooldownUntil.value < wall
  }

  /** The conditions of the query, on the state after clean-up. */
  predicate Selected(m: Breaker, r: KeyRow, provider: Option<string>, model: string, now: real, wall: real) {
    && (provider.None? || r.provider == provider.value)
    && ((r.status.Active? && Cooled(r, wall)) || (r.status.CircuitBreaker? && PhaseOf(m, r.id, now).HalfOpen?))
    && !PhaseOf(m, r.id, now).Open? && !PhaseOf(m, r.id, now).Probing?
    && (model == "" || r.allowedModels == [] || model in r.allowedModels)
  }

  function Filter(m: Breaker, rows: seq<KeyRow>, provider: Option<string>, model: string, now: real, wall: real)
    : (out: seq<KeyRow>)
    ensures forall r :: r in out <==> r in rows && Selected(m, r, provider, model, now, wall)
  {
    if rows == [] then []
    else (if Selected(m, rows[0], provider, model, now, wall) then [rows[0]] else [])
         + Filter(m, rows[1..], provider, model, now, wall)
  }

  function Query(w: World, provider: Option<string>, model: string, now: real, wall: real, commits: bool)
    : (World, seq<KeyRow>)
  {
    var c := Cleanup(w, now, commits);
    (c, Filter(c.mem, c.rows, provider, model, now, wall))
  }

  // ----- selection -----

  function TopPriority(rows: seq<KeyRow>): (p: int)
    requires rows != []
    ensures forall r :: r in rows ==> r.priority <= p
    ensures exists r :: r in rows && r.priority == p
  {
    if |rows| == 1 then assert rows[0] in rows; rows[0].priority else
    var rest := TopPriority(rows[1..]);
    if rows[0].priority > rest then assert rows[0] in rows; rows[0].priority else rest
  }

  function WithPriority(rows: seq<KeyRow>, p: int): (out: seq<KeyRow>)
    ensures forall r :: r in out <==> r in rows && r.priority == p
  {
    if rows == [] then []
    else (if rows[0].priority == p then [rows[0]] else []) + WithPriority(rows[1..], p)
  }

  function Tripped(rows: seq<KeyRow>): (out: seq<KeyRow>)
    ensures forall r :: r in out <==> r in rows && r.status.CircuitBreaker?
  {
    if rows == [] then []
    else (if rows[0].status.CircuitBreaker? then [rows[0]] else []) + Tripped(rows[1..])
  }

  /** The order in which Python sorts strings. */
  predicate Before(a: string, b: string) {
    b != "" && (a == "" || a[0] < b[0] || (a[0] == b[0] && Before(a[1..], b[1..])))
  }

  lemma BeforeTransitive(a: string, b: string, c: string)
    requires Before(a, b) && Before(b, c)
    ensures Before(a, c)
  {
    if a != "" && b != "" && a[0] == b[0] == c[0] { BeforeTransitive(a[1..], b[1..], c[1..]); }
  }

  lemma BeforeIrreflexive(a: string)
    ensures !Before(a, a)
  {
    if a != "" { BeforeIrreflexive(a[1..]); }
  }

  lemma BeforeTotal(a: string, b: string)
    ensures a == b || Before(a, b) || Before(b, a)
  {
    if a != "" && b != "" && a[0] == b[0] {
      BeforeTotal(a[1..], b[1..]);
      assert a == [a[0]] + a[1..] && b == [b[0]] + b[1..];
    }
  }

  /** A weighted draw may fall on any position of the group, since every weight counts at least one. */
  datatype Strategy = RoundRobin | Latency | Cost | LeastUsed | Weighted(choice: nat)

  const UNKNOWN_LATENCY := 999999

  function Score(inflight: map<KeyId, int>, r: KeyRow, strategy: Strategy): int {
    match strategy
    case Latency => if r.latency != 0 then r.latency else UNKNOWN_LATENCY
    case Cost => r.cost
    case LeastUsed => InFlight(inflight, r.id)
    case _ => 0
  }

  /** By score, and by identifier where scores are equal. */
  predicate Ahead(inflight: map<KeyId, int>, strategy: Strategy, r: KeyRow, s: KeyRow) {
    var x, y := Score(inflight, r, strategy), Score(inflight, s, strategy);
    x < y || (x == y && Before(r.id, s.id))
  }

  lemma AheadOfNone(inflight: map<KeyId, int>, strategy: Strategy, r: KeyRow, s: KeyRow, t: KeyRow)
    requires !Ahead(inflight, strategy, s, r) && Ahead(inflight, strategy, t, r)
    ensures Ahead(inflight, strategy, t, s)
  {
    BeforeTotal(r.id, s.id);
    if Before(t.id, r.id) && Before(r.id, s.id) { BeforeTransitive(t.id, r.id, s.id); }
  }

  function Best(inflight: map<KeyId, int>, rows: seq<KeyRow>, strategy: Strategy): (best: KeyRow)
    requires rows != []
    ensures best in rows
    ensures forall r :: r in rows ==> !Ahead(inflight, strategy, r, best)
  {
    BeforeIrreflexive(rows[0].id);
    if |rows| == 1 then rows[0] else
    var rest := Best(inflight, rows[1..], strategy);
    if Ahead(inflight, strategy, rest, rows[0]) then
      BeforeIrreflexive(rest.id);
      assert !Ahead(inflight, strategy, rows[0], rest) by {
        if Before(rows[0].id, rest.id) && Before(rest.id, rows[0].id) {
          BeforeTransitive(rows[0].id, rest.id, rows[0].id);
        }
      }
      rest
    else
      assert forall r :: r in rows[1..] ==> !Ahead(inflight, strategy, r, rows[0]) by {
        forall r | r in rows[1..] && Ahead(inflight, strategy, r, rows[0]) ensures false {
          AheadOfNone(inflight, strategy, rows[0], rest, r);
        }
      }
      rows[0]
  }

  /** The place that a cursor points to in a group of `m`: the remainder, by subtraction. */
  function Place(cursor: nat, m: nat): (p: nat)
    requires m > 0
    ensures p < m
  {
    if cursor < m then cursor else Place(cursor - m, m)
  }

  lemma {:induction false} PlaceIsRemainder(cursor: nat, m: nat)
    requires m > 0
    ensures Place(cursor, m) == cursor % m
  {
    if cursor >= m {
      PlaceIsRemainder(cursor - m, m);
      var q, r := (cursor - m) / m, (cursor - m) % m;
      assert cursor == (q + 1) * m + r;
      OneRemainder(cursor, m, q + 1, r);
    } else {
      OneRemainder(cursor, m, 0, cursor);
    }
  }

  lemma OneRemainder(a: int, m: int, q: int, r: int)
    requires m > 0 && a == q * m + r && 0 <= r < m
    ensures a % m == r
  {
    var d := a / m - q;
    assert d * m == r - a % m;
    assert d >= 1 ==> d * m >= m;
    assert d <= -1 ==> d * m <= -m;
  }

  function Cursor(w: World, provider: string): nat {
    if provider in w.cursors then w.cursors[provider] else 0
  }

  function Top(candidates: seq<KeyRow>): (top: seq<KeyRow>)
    requires candidates != []
    ensures top != []
  {
    var p := TopPriority(candidates);
    var top := WithPriority(candidates, p);
    assert exists r :: r in candidates && r.priority == p;
    assert exists r :: r in top;
    top
  }

  function SelectAmong(w: World, top: seq<KeyRow>, provider: string, strategy: Strategy, now: real): (World, KeyRow)
    requires top != []
  {
    var tripped := Tripped(top);
    if tripped != [] then
      var k := tripped[0].id;
      (if k in w.mem.halfOpen then w else w.(mem := w.mem.(halfOpen := w.mem.halfOpen[k := now])), tripped[0])
    else
      match strategy
      case Weighted(i) => (w, top[Place(i, |top|)])
      case RoundRobin =>
        (w.(cursors := w.cursors[provider := Place(Cursor(w, provider) + 1, |top|)]),
         top[Place(Cursor(w, provider), |top|)])
      case _ => (w, Best(w.inflight, top, strategy))
  }

  function Select(w: World, candidates: seq<KeyRow>, provider: string, strategy: Strategy, now: real): (World, KeyRow)
    requires candidates != []
  {
    SelectAmong(w, Top(candidates), provider, strategy, now)
  }

  /** Selection and the in-flight slot that goes with it. */
  function Take(w: World, candidates: seq<KeyRow>, provider: string, strategy: Strategy, now: real): (World, KeyRow)
    requires candidates != []
  {
    var (s, chosen) := Select(w, candidates, provider, strategy, now);
    (s.(inflight := Acquire(s.inflight, chosen.id)), chosen)
  }

  function Pick(w: World, provider: string, model: string, strategy: Strategy, now: real, wall: real, commits: bool)
    : (World, Option<KeyRow>)
  {
    var (c, candidates) := Query(w, Some(provider), model, now, wall, commits);
    if candidates == [] then (c, None) else
    var (s, chosen) := Take(c, candidates, provider, strategy, now);
    (s, Some(chosen))
  }

  function LeastProvider(rows: seq<KeyRow>): (p: string)
    requires rows != []
    ensures exists r :: r in rows && r.provider == p
    ensures forall r :: r in rows ==> !Before(r.provider, p)
  {
    BeforeIrreflexive(rows[0].provider);
    assert rows[0] in rows;
    if |rows| == 1 then rows[0].provider else
    var rest := LeastProvider(rows[1..]);
    if Before(rows[0].provider, rest) then
      assert forall r :: r in rows[1..] && Before(r.provider, rows[0].provider) ==> Before(r.provider, rest) by {
        forall r | r in rows[1..] && Before(r.provider, rows[0].provider) ensures Before(r.provider, rest) {
          BeforeTransitive(r.provider, rows[0].provider, rest);
        }
      }
      rows[0].provider
    else rest
  }

  function OfProvider(rows: seq<KeyRow>, p: string): (out: seq<KeyRow>)
    ensures forall r :: r in out <==> r in rows && r.provider == p
  {
    if rows == [] then []
    else (if rows[0].provider == p then [rows[0]] else []) + OfProvider(rows[1..], p)
  }

  /** `exclude` empty excludes nobody. */
  function Without(rows: seq<KeyRow>, exclude: string): (out: seq<KeyRow>)
    ensures forall r :: r in out <==> r in rows && (exclude == "" || r.provider != exclude)
  {
    if rows == [] then []
    else (if exclude == "" || rows[0].provider != exclude then [rows[0]] else []) + Without(rows[1..], exclude)
  }

  /** The fallback: a key of the first other provider that has one. */
  function PickCross(w: World, model: string, exclude: string, strategy: Strategy, now: real, wall: real, commits: bool)
    : (World, Option<KeyRow>)
  {
    var (c, found) := Query(w, None, model, now, wall, commits);
    var others := Without(found, exclude);
    if others == [] then (c, None) else
    var p := LeastProvider(others);
    var (s, chosen) := Take(c, OfProvider(others, p), p, strategy, now);
    (s, Some(chosen))
  }

  // ----- marks -----

  function SetStatus(rows: seq<KeyRow>, k: KeyId, status: Status, cooldown: Option<real>): (out: seq<KeyRow>)
    ensures |out| == |rows|
    ensures forall i :: 0 <= i < |rows| ==>
                          out[i] == if rows[i].id == k then rows[i].(status := status, cooldownUntil := cooldown)
                          else rows[i]
  {
    if rows == [] then []
    else [if rows[0].id == k then rows[0].(status := status, cooldownUntil := cooldown) else rows[0]]
         + SetStatus(rows[1..], k, status, cooldown)
  }

  /** `cooldown` is what a failure short of the threshold costs. */
  function MarkFailure(w: World, k: KeyId, status: Status, cooldown: real, now: real, wall: real, commits: bool)
    : World
  {
    var (m, tripped) := OnFailure(w.mem, k, now);
    var rows := if tripped then SetStatus(w.rows, k, CircuitBreaker, Some(wall + COOLDOWN))
                else SetStatus(w.rows, k, status, Some(wall + cooldown));
    w.(mem := m, rows := if commits then rows else w.rows, inflight := Release(w.inflight, k))
  }

  function MarkError(w: World, k: KeyId, now: real, wall: real, commits: bool): World {
    MarkFailure(w, k, Error, ERROR_COOLDOWN, now, wall, commits)
  }

  function Wait(retryAfter: Option<real>): real {
    if retryAfter.Some? && retryAfter.value > 0.0 then retryAfter.value else RATE_LIMIT_COOLDOWN
  }

  function MarkRateLimited(w: World, k: KeyId, retryAfter: Option<real>, now: real, wall: real, commits: bool): World {
    MarkFailure(w, k, RateLimited, Wait(retryAfter), now, wall, commits)
  }

  /** The running average after a call of `latency` milliseconds. */
  function Averaged(average: nat, latency: nat): nat {
    if average == 0 then latency else (7 * average + 3 * latency) / 10
  }

  function SetLatency(rows: seq<KeyRow>, k: KeyId, latency: nat): (out: seq<KeyRow>)
    ensures |out| == |rows|
    ensures forall i :: 0 <= i < |rows| ==>
                          out[i] == if rows[i].id == k then rows[i].(latency := Averaged(rows[i].latency, latency))
                          else rows[i]
  {
    seq(|rows|, i requires 0 <= i < |rows| =>
      if rows[i].id == k then rows[i].(latency := Averaged(rows[i].latency, latency)) else rows[i])
  }

  function MarkOk(w: World, k: KeyId, latency: Option<nat>, commits: bool): World {
    var rows := SetStatus(w.rows, k, Active, None);
    w.(mem := Forget(w.mem, {k}),
    rows := if !commits then w.rows else if latency.Some? then SetLatency(rows, k, latency.value) else rows,
    inflight := Release(w.inflight, k))
  }

  // ----- the object -----

  class KeyTable {
    var rows: seq<KeyRow>

    constructor (rows: seq<KeyRow>)
      ensures this.rows == rows
    {
      this.rows := rows;
    }
  }

  class KeyBalancer {
    const db: KeyTable
    var cursors: map<string, nat>
    var fails: map<KeyId, int>
    var openUntil: map<KeyId, real>
    var halfOpen: map<KeyId, real>
    var inflight: map<KeyId, int>

    constructor (db: KeyTable)
      ensures this.db == db && State() == World(Breaker(map[], map[], map[]), map[], map[], db.rows)
    {
      this.db := db;
      cursors, fails, openUntil, halfOpen, inflight := map[], map[], map[], map[], map[];
    }

    ghost function Mem(): Breaker
      reads this
    {
      Breaker(fails, openUntil, halfOpen)
    }

    ghost function State(): World
      reads this, db
    {
      World(Mem(), cursors, inflight, db.rows)
    }

    method CbState(k: KeyId, now: real) returns (p: Phase)
      ensures p == PhaseOf(Mem(), k, now)
    {
      if k !in openUntil { return Closed; }
      var until := openUntil[k];
      if now >= until { return Closed; }
      var halfOpenAt := until - COOLDOWN / 2.0;
      if now < halfOpenAt { return Open; }
      if k in halfOpen { return Probing; }
      return HalfOpen;
    }

    method RecordFailure(k: KeyId, now: real) returns (tripped: bool)
      modifies this
      ensures (Mem(), tripped) == OnFailure(old(Mem()), k, now)
      ensures cursors == old(cursors) && inflight == old(inflight)
    {
      var count := (if k in fails then fails[k] else 0) + 1;
      fails := fails[k := count];
      if count >= THRESHOLD {
        openUntil := openUntil[k := now + COOLDOWN];
        halfOpen := halfOpen - {k};
        return true;
      }
      return false;
    }

    method ReleaseSlot(k: KeyId)
      modifies this
      ensures inflight == Release(old(inflight), k)
      ensures Mem() == old(Mem()) && cursors == old(cursors)
    {
      var current := if k in inflight then inflight[k] else 0;
      if current > 0 {
        inflight := inflight[k := current - 1];
      } else {
        inflight := inflight[k := 0];
      }
    }

    method UpdateRows(k: KeyId, status: Status, cooldown: Option<real>)
      modifies db
      ensures db.rows == SetStatus(old(db.rows), k, status, cooldown)
    {
      ghost var target := SetStatus(db.rows, k, status, cooldown);
      var rows := db.rows;
      for i := 0 to |rows|
        invariant |rows| == |target|
        invariant forall j :: 0 <= j < i ==> rows[j] == target[j]
        invariant forall j :: i <= j < |rows| ==> rows[j] == db.rows[j]
      {
        if rows[i].id == k { rows := rows[i := rows[i].(status := status, cooldownUntil := cooldown)]; }
      }
      assert rows == target;
      db.rows := rows;
    }

    method CleanupExpired(now: real, commits: bool)
      modifies this, db
      ensures State() == Cleanup(old(State()), now, commits)
    {
      var expired := set k | k in openUntil && now >= openUntil[k];
      var todo := expired;
      while todo != {}
        invariant todo <= expired
        invariant Mem() == Forget(old(Mem()), expired - todo)
        invariant cursors == old(cursors) && inflight == old(inflight) && db.rows == old(db.rows)
        decreases todo
      {
        var k :| k in todo;
        ForgetOneMore(old(Mem()), expired - todo, k);
        assert expired - (todo - {k}) == expired - todo + {k};
        fails, openUntil, halfOpen := fails - {k}, openUntil - {k}, halfOpen - {k};
        todo := todo - {k};
      }
      assert expired - {} == expired == Expired(old(Mem()), now);
      if commits { HealRows(expired); }
    }

    method HealRows(expired: set<KeyId>)
      modifies db
      ensures db.rows == HealAll(old(db.rows), expired)
    {
      var rows := db.rows;
      for i := 0 to |rows|
        invariant |rows| == |db.rows|
        invariant forall j :: 0 <= j < i ==> rows[j] == Heal(db.rows[j], expired)
        invariant forall j :: i <= j < |rows| ==> rows[j] == db.rows[j]
      {
        if rows[i].id in expired && rows[i].status.CircuitBreaker? {
          rows := rows[i := rows[i].(status := Active, cooldownUntil := None)];
        }
      }
      assert rows == HealAll(db.rows, expired);
      db.rows := rows;
    }

    /** The keys with an opening that are out of the question, and those that have come up for a probe. */
    method SortOpenings(now: real) returns (broken: set<KeyId>, probeable: set<KeyId>)
      ensures forall k :: k in broken <==> PhaseOf(Mem(), k, now).Open? || PhaseOf(Mem(), k, now).Probing?
      ensures forall k :: k in probeable <==> PhaseOf(Mem(), k, now).HalfOpen?
    {
      broken, probeable := {}, {};
      var todo := openUntil.Keys;
      while todo != {}
        invariant todo <= openUntil.Keys
        invariant forall k :: k in broken <==>
                              k in openUntil.Keys - todo
                              && (PhaseOf(Mem(), k, now).Open? || PhaseOf(Mem(), k, now).Probing?)
        invariant forall k :: k in probeable <==> k in openUntil.Keys - todo && PhaseOf(Mem(), k, now).HalfOpen?
        decreases todo
      {
        var k :| k in todo;
        var p := CbState(k, now);
        if p == Open || p == Probing { broken := broken + {k}; } else if p == HalfOpen { probeable := probeable + {k}; }
        todo := todo - {k};
      }
    }

    method QueryActiveKeys(provider: Option<string>, model: string, now: real, wall: real, commits: bool)
      returns (found: seq<KeyRow>)
      modifies this, db
      ensures (State(), found) == Query(old(State()), provider, model, now, wall, commits)
    {
      CleanupExpired(now, commits);
      var broken, probeable := SortOpenings(now);
      found := [];
      ghost var m := Mem();
      var i := |db.rows|;
      while i > 0
        invariant 0 <= i <= |db.rows|
        invariant found == Filter(m, db.rows[i..], provider, model, now, wall)
      {
        i := i - 1;
        var r := db.rows[i];
        var active := r.status == Active && (r.cooldownUntil.None? || r.cooldownUntil.value < wall);
        var probe := r.status == CircuitBreaker && r.id in probeable;
        assert db.rows[i..][0] == r && db.rows[i..][1..] == db.rows[i + 1..];
        if (provider.None? || r.provider == provider.value) && (active || probe) && r.id !in broken
           && (model == "" || r.allowedModels == [] || model in r.allowedModels) {
          found := [r] + found;
        }
      }
      assert db.rows[0..] == db.rows;
    }

    method SelectKey(candidates: seq<KeyRow>, provider: string, strategy: Strategy, now: real) returns (chosen: KeyRow)
      requires candidates != []
      modifies this
      ensures (State(), chosen) == Select(old(State()), candidates, provider, strategy, now)
    {
      var top := Top(candidates);
      var tripped := Tripped(top);
      if tripped != [] {
        chosen := tripped[0];
        if chosen.id !in halfOpen { halfOpen := halfOpen[chosen.id := now]; }
      } else {
        match strategy {
          case Weighted(i) =>
            PlaceIsRemainder(i, |top|);
            chosen := top[i % |top|];
          case RoundRobin =>
            var at := if provider in cursors then cursors[provider] else 0;
            PlaceIsRemainder(at, |top|);
            PlaceIsRemainder(at + 1, |top|);
            chosen := top[at % |top|];
            cursors := cursors[provider := (at + 1) % |top|];
          case _ => chosen := Best(inflight, top, strategy);
        }
      }
    }

    method TakeKey(candidates: seq<KeyRow>, provider: string, strategy: Strategy, now: real) returns (key: KeyRow)
      requires candidates != []
      modifies this
      ensures (State(), key) == Take(old(State()), candidates, provider, strategy, now)
    {
      key := SelectKey(candidates, provider, strategy, now);
      inflight := inflight[key.id := (if key.id in inflight then inflight[key.id] else 0) + 1];
    }

    method PickKey(provider: string, model: string, strategy: Strategy, now: real, wall: real, commits: bool)
      returns (chosen: Option<KeyRow>)
      modifies this, db
      ensures (State(), chosen) == Pick(old(State()), provider, model, strategy, now, wall, commits)
    {
      var candidates := QueryActiveKeys(Some(provider), model, now, wall, commits);
      if candidates == [] { return None; }
      var key := TakeKey(candidates, provider, strategy, now);
      chosen := Some(key);
    }

    method PickCrossProvider(model: string, exclude: string, strategy: Strategy, now: real, wall: real, commits: bool)
      returns (chosen: Option<KeyRow>)
      modifies this, db
      ensures (State(), chosen) == PickCross(old(State()), model, exclude, strategy, now, wall, commits)
    {
      var found := QueryActiveKeys(None, model, now, wall, commits);
      var others := Without(found, exclude);
      if others == [] { return None; }
      var p := LeastProvider(others);
      var key := TakeKey(OfProvider(others, p), p, strategy, now);
      chosen := Some(key);
    }

    method MarkFailed(k: KeyId, status: Status, cooldown: real, now: real, wall: real, commits: bool)
      modifies this, db
      ensures State() == MarkFailure(old(State()), k, status, cooldown, now, wall, commits)
    {
      var tripped := RecordFailure(k, now);
      if commits {
        if tripped {
          UpdateRows(k, CircuitBreaker, Some(wall + COOLDOWN));
        } else {
          UpdateRows(k, status, Some(wall + cooldown));
        }
      }
      ReleaseSlot(k);
    }

    method MarkErrorOn(k: KeyId, now: real, wall: real, commits: bool)
      modifies this, db
      ensures State() == MarkError(old(State()), k, now, wall, commits)
    {
      MarkFailed(k, Error, ERROR_COOLDOWN, now, wall, commits);
    }

    method MarkRateLimitedOn(k: KeyId, retryAfter: Option<real>, now: real, wall: real, commits: bool)
      modifies this, db
      ensures State() == MarkRateLimited(old(State()), k, retryAfter, now, wall, commits)
    {
      var wait := if retryAfter.Some? && retryAfter.value > 0.0 then retryAfter.value else RATE_LIMIT_COOLDOWN;
      MarkFailed(k, RateLimited, wait, now, wall, commits);
    }

    method UpdateLatency(k: KeyId, latency: nat)
      modifies db
      ensures db.rows == SetLatency(old(db.rows), k, latency)
    {
      var rows := db.rows;
      for i := 0 to |rows|
        invariant |rows| == |db.rows|
        invariant forall j :: 0 <= j < i ==> rows[j] == SetLatency(db.rows, k, latency)[j]
        invariant forall j :: i <= j < |rows| ==> rows[j] == db.rows[j]
      {
        if rows[i].id == k { rows := rows[i := rows[i].(latency := Averaged(rows[i].latency, latency))]; }
      }
      assert rows == SetLatency(db.rows, k, latency);
      db.rows := rows;
    }

    method MarkOkOn(k: KeyId, latency: Option<nat>, commits: bool)
      modifies this, db
      ensures State() == MarkOk(old(State()), k, latency, commits)
    {
      fails, openUntil, halfOpen := fails - {k}, openUntil - {k}, halfOpen - {k};
      if commits {
        UpdateRows(k, Active, None);
        if latency.Some? { UpdateLatency(k, latency.value); }
      }
      ReleaseSlot(k);
    }
  }
}
