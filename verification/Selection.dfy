/** Which key a pick returns (keyhub/llm/balancer.py:170-276): what the queries and filters select, and in which
    order, and that priority decides before anything else. */
module Selection {
  import opened Prelude
  import opened Balancer
  import opened BreakerRuns

  // ----- filters -----

  /** `at` are the places of `rows` that satisfy `p`, in order, and `out` is what stands there. */
  ghost predicate Places(at: seq<nat>, out: seq<KeyRow>, rows: seq<KeyRow>, p: KeyRow -> bool) {
    && |at| == |out|
    && (forall i, j :: 0 <= i < j < |at| ==> at[i] < at[j])
    && (forall j :: 0 <= j < |at| ==> at[j] < |rows| && out[j] == rows[at[j]])
    && (forall i :: 0 <= i < |rows| ==> (i in at <==> p(rows[i])))
  }

  /** `out` is exactly the rows that satisfy `p`, each once and in their order. */
  ghost predicate Exactly(out: seq<KeyRow>, rows: seq<KeyRow>, p: KeyRow -> bool) {
    exists at :: Places(at, out, rows, p)
  }

  function Shift(at: seq<nat>): seq<nat> {
    seq(|at|, i requires 0 <= i < |at| => at[i] + 1)
  }

  lemma ShiftedIn(at: seq<nat>, i: nat)
    ensures i in Shift(at) <==> i > 0 && i - 1 in at
  {
    if i > 0 && i - 1 in at {
      var j :| 0 <= j < |at| && at[j] == i - 1;
      assert Shift(at)[j] == i;
    }
    if i in Shift(at) {
      var j :| 0 <= j < |at| && Shift(at)[j] == i;
      assert at[j] in at;
    }
  }

  lemma OneMore(rows: seq<KeyRow>, rest: seq<KeyRow>, p: KeyRow -> bool)
    requires rows != [] && Exactly(rest, rows[1..], p)
    ensures Exactly((if p(rows[0]) then [rows[0]] else []) + rest, rows, p)
  {
    var at :| Places(at, rest, rows[1..], p);
    Shifted(at, rest, rows, p);
    if p(rows[0]) {
      FirstIn(Shift(at), rest, rows, p);
    } else {
      FirstOut(Shift(at), rest, rows, p);
      assert [] + rest == rest;
    }
  }

  /** Places beyond the first row. */
  ghost predicate Beyond(s: seq<nat>, rest: seq<KeyRow>, rows: seq<KeyRow>, p: KeyRow -> bool) {
    && |s| == |rest|
    && (forall i, j :: 0 <= i < j < |s| ==> s[i] < s[j])
    && (forall j :: 0 <= j < |s| ==> 0 < s[j] < |rows| && rest[j] == rows[s[j]])
    && (forall i :: 0 < i < |rows| ==> (i in s <==> p(rows[i])))
  }

  lemma FirstIn(s: seq<nat>, rest: seq<KeyRow>, rows: seq<KeyRow>, p: KeyRow -> bool)
    requires rows != [] && p(rows[0]) && Beyond(s, rest, rows, p)
    ensures Exactly([rows[0]] + rest, rows, p)
  {
    InFront(s, rest, rows);
    FirstAndRest(s);
    assert Places([0] + s, [rows[0]] + rest, rows, p);
  }

  lemma InFront(s: seq<nat>, rest: seq<KeyRow>, rows: seq<KeyRow>)
    requires rows != [] && |s| == |rest| && forall i, j :: 0 <= i < j < |s| ==> s[i] < s[j]
    requires forall j :: 0 <= j < |s| ==> 0 < s[j] < |rows| && rest[j] == rows[s[j]]
    ensures var all, out := [0] + s, [rows[0]] + rest;
            && |all| == |out|
            && (forall i, j :: 0 <= i < j < |all| ==> all[i] < all[j])
            && forall j :: 0 <= j < |all| ==> all[j] < |rows| && out[j] == rows[all[j]]
  {
  }

  lemma FirstAndRest(s: seq<nat>)
    ensures forall i: nat :: i in [0] + s <==> i == 0 || i in s
  {
  }

  lemma FirstOut(s: seq<nat>, rest: seq<KeyRow>, rows: seq<KeyRow>, p: KeyRow -> bool)
    requires rows != [] && !p(rows[0]) && Beyond(s, rest, rows, p)
    ensures Exactly(rest, rows, p)
  {
    assert 0 !in s;
    assert Places(s, rest, rows, p);
  }

  lemma Shifted(at: seq<nat>, rest: seq<KeyRow>, rows: seq<KeyRow>, p: KeyRow -> bool)
    requires rows != [] && Places(at, rest, rows[1..], p)
    ensures Beyond(Shift(at), rest, rows, p)
  {
    ShiftedIn(at, 0);
    forall i | 0 < i < |rows| ensures i in Shift(at) <==> p(rows[i]) {
      ShiftedIn(at, i);
      assert rows[1..][i - 1] == rows[i];
    }
  }

  lemma NoneLeft(p: KeyRow -> bool)
    ensures Exactly([], [], p)
  {
    assert Places([], [], [], p);
  }

  function IsSelected(m: Breaker, provider: Option<string>, model: string, now: real, wall: real): KeyRow -> bool {
    r => Selected(m, r, provider, model, now, wall)
  }

  function HasPriority(n: int): KeyRow -> bool {
    (r: KeyRow) => r.priority == n
  }

  function IsTripped(): KeyRow -> bool {
    (r: KeyRow) => r.status.CircuitBreaker?
  }

  function IsOf(q: string): KeyRow -> bool {
    (r: KeyRow) => r.provider == q
  }

  function IsAllowed(exclude: string): KeyRow -> bool {
    (r: KeyRow) => Allowed(r, exclude)
  }

  function IsHighest(candidates: seq<KeyRow>): KeyRow -> bool {
    (r: KeyRow) => Highest(candidates, r)
  }

  predicate Allowed(r: KeyRow, exclude: string) {
    exclude == "" || r.provider != exclude
  }

  lemma {:induction false} FilterExactly(m: Breaker, rows: seq<KeyRow>, provider: Option<string>, model: string,
                                         now: real,
                                         wall: real)
    ensures Exactly(Filter(m, rows, provider, model, now, wall), rows,
                    IsSelected(m, provider, model, now, wall))
  {
    var p := IsSelected(m, provider, model, now, wall);
    if rows == [] {
      NoneLeft(p);
    } else {
      FilterExactly(m, rows[1..], provider, model, now, wall);
      OneMore(rows, Filter(m, rows[1..], provider, model, now, wall), p);
    }
  }

  lemma {:induction false} WithPriorityExactly(rows: seq<KeyRow>, n: int)
    ensures Exactly(WithPriority(rows, n), rows, HasPriority(n))
  {
    var p := HasPriority(n);
    if rows == [] {
      NoneLeft(p);
    } else {
      WithPriorityExactly(rows[1..], n);
      OneMore(rows, WithPriority(rows[1..], n), p);
    }
  }

  lemma {:induction false} TrippedExactly(rows: seq<KeyRow>)
    ensures Exactly(Tripped(rows), rows, IsTripped())
  {
    var p := IsTripped();
    if rows == [] {
      NoneLeft(p);
    } else {
      TrippedExactly(rows[1..]);
      OneMore(rows, Tripped(rows[1..]), p);
    }
  }

  lemma {:induction false} OfProviderExactly(rows: seq<KeyRow>, q: string)
    ensures Exactly(OfProvider(rows, q), rows, IsOf(q))
  {
    var p := IsOf(q);
    if rows == [] {
      NoneLeft(p);
    } else {
      OfProviderExactly(rows[1..], q);
      OneMore(rows, OfProvider(rows[1..], q), p);
    }
  }

  lemma {:induction false} WithoutExactly(rows: seq<KeyRow>, exclude: string)
    ensures Exactly(Without(rows, exclude), rows, IsAllowed(exclude))
  {
    var p := IsAllowed(exclude);
    if rows == [] {
      NoneLeft(p);
    } else {
      WithoutExactly(rows[1..], exclude);
      OneMore(rows, Without(rows[1..], exclude), p);
    }
  }

  lemma SameTest(out: seq<KeyRow>, rows: seq<KeyRow>, p: KeyRow -> bool, q: KeyRow -> bool)
    requires Exactly(out, rows, p) && forall r :: r in rows ==> p(r) == q(r)
    ensures Exactly(out, rows, q)
  {
    var at :| Places(at, out, rows, p);
    assert Places(at, out, rows, q);
  }

  // ----- priority -----

  /** No candidate has a higher priority. */
  predicate Highest(candidates: seq<KeyRow>, r: KeyRow) {
    forall s :: s in candidates ==> s.priority <= r.priority
  }

  /** The group selected among is exactly the candidates of highest priority, each once and in table order. */
  lemma TopIsHighest(candidates: seq<KeyRow>)
    requires candidates != []
    ensures Exactly(Top(candidates), candidates, IsHighest(candidates))
    ensures forall r :: r in Top(candidates) <==> r in candidates && Highest(candidates, r)
  {
    var n := TopPriority(candidates);
    var best :| best in candidates && best.priority == n;
    WithPriorityExactly(candidates, n);
    forall r | r in candidates ensures r.priority == n <==> Highest(candidates, r) {
      if Highest(candidates, r) { assert best.priority <= r.priority; }
    }
    SameTest(Top(candidates), candidates, HasPriority(n), IsHighest(candidates));
  }

  /** The key selected is a candidate of the highest priority there is. */
  lemma SelectsHighest(w: World, candidates: seq<KeyRow>, provider: string, strategy: Strategy, now: real)
    requires candidates != []
    ensures var r := Select(w, candidates, provider, strategy, now).1;
            r in candidates && forall s :: s in candidates ==> s.priority <= r.priority
  {
    SelectedAmong(w, Top(candidates), provider, strategy, now);
    TopIsHighest(candidates);
    assert Highest(candidates, Select(w, candidates, provider, strategy, now).1);
  }

  // ----- within the group -----

  /** What a strategy goes by. */
  function LatencyOf(r: KeyRow): int {
    if r.latency == 0 then 999999 else r.latency
  }

  /** Less, or equal and first by identifier. */
  predicate NotBehind(x: int, id: KeyId, y: int, id': KeyId) {
    x < y || (x == y && !Before(id', id))
  }

  /** A tripped key comes first, the first of the group, and is claimed if it is not yet; the cursor stays. */
  lemma TrippedComesFirst(w: World, top: seq<KeyRow>, provider: string, strategy: Strategy, now: real, i: nat)
    requires i < |top| && top[i].status.CircuitBreaker?
    requires forall j :: 0 <= j < i ==> !top[j].status.CircuitBreaker?
    ensures var (s, r) := SelectAmong(w, top, provider, strategy, now);
            && r == top[i] && s.cursors == w.cursors && s.inflight == w.inflight && s.rows == w.rows
            && s.mem.fails == w.mem.fails && s.mem.openUntil == w.mem.openUntil
            && r.id in s.mem.halfOpen
            && (forall k :: k in w.mem.halfOpen ==> k in s.mem.halfOpen && s.mem.halfOpen[k] == w.mem.halfOpen[k])
            && (r.id !in w.mem.halfOpen ==> s.mem.halfOpen[r.id] == now)
            && (forall k :: k in s.mem.halfOpen ==> k in w.mem.halfOpen || k == r.id)
  {
    FirstTripped(top, i);
  }

  lemma {:induction false} FirstTripped(rows: seq<KeyRow>, i: nat)
    requires i < |rows| && rows[i].status.CircuitBreaker?
    requires forall j :: 0 <= j < i ==> !rows[j].status.CircuitBreaker?
    ensures Tripped(rows) != [] && Tripped(rows)[0] == rows[i]
    decreases i
  {
    if i > 0 {
      forall j | 0 <= j < i - 1 ensures !rows[1..][j].status.CircuitBreaker? { assert rows[1..][j] == rows[j + 1]; }
      FirstTripped(rows[1..], i - 1);
    }
  }

  /** With no tripped key in the group, each strategy returns a key that is least by its own measure, equal ones in
      order of their identifiers, and only round robin changes anything: its provider's cursor. */
  lemma StrategyDecides(w: World, top: seq<KeyRow>, provider: string, strategy: Strategy, now: real)
    requires top != [] && forall r :: r in top ==> !r.status.CircuitBreaker?
    ensures var (s, c) := SelectAmong(w, top, provider, strategy, now);
            && c in top && s.mem == w.mem && s.inflight == w.inflight && s.rows == w.rows
            && (!strategy.RoundRobin? ==> s.cursors == w.cursors)
            && (forall q :: q != provider && q in w.cursors ==> q in s.cursors && s.cursors[q] == w.cursors[q])
            && (strategy.Latency? ==> forall r :: r in top ==> NotBehind(LatencyOf(c), c.id, LatencyOf(r), r.id))
            && (strategy.Cost? ==> forall r :: r in top ==> NotBehind(c.cost, c.id, r.cost, r.id))
            && (strategy.LeastUsed? ==> forall r :: r in top ==>
                                                      NotBehind(InFlight(w.inflight, c.id), c.id,
                                                                InFlight(w.inflight, r.id), r.id))
            && (strategy.RoundRobin? ==>
                  c == top[Cursor(w, provider) % |top|] && Cursor(s, provider) == (Cursor(w, provider) + 1) % |top|)
  {
    NothingTripped(top);
    PlaceIsRemainder(Cursor(w, provider), |top|);
    PlaceIsRemainder(Cursor(w, provider) + 1, |top|);
    SelectedAmong(w, top, provider, strategy, now);
    if strategy.Latency? || strategy.Cost? || strategy.LeastUsed? {
      var c := Best(w.inflight, top, strategy);
      assert forall r :: r in top ==> !Ahead(w.inflight, strategy, r, c);
    }
  }

  lemma NothingTripped(rows: seq<KeyRow>)
    requires forall r :: r in rows ==> !r.status.CircuitBreaker?
    ensures Tripped(rows) == []
  {
    if rows != [] {
      assert forall r :: r in rows[1..] ==> r in rows;
      NothingTripped(rows[1..]);
    }
  }

  // ----- picks -----

  /** A pick returns nothing only if no key of the provider is eligible; otherwise it returns an eligible one, and
      no eligible key of the provider has a higher priority. */
  lemma PickIsHighest(w: World, provider: string, model: string, strategy: Strategy, now: real, wall: real,
                      commits: bool)
    ensures var r := Pick(w, provider, model, strategy, now, wall, commits).1;
            && (r.None? <==> forall x :: x in w.rows ==> !Eligible(w.mem, x, Some(provider), model, now, wall, commits))
            && (r.Some? ==>
                  && r.value.provider == provider
                  && (exists x :: x in w.rows && Eligible(w.mem, x, Some(provider), model, now, wall, commits)
                                  && r.value == Seen(w.mem, x, now, commits))
                  && forall x :: x in w.rows && Eligible(w.mem, x, Some(provider), model, now, wall, commits) ==>
                                   x.priority <= r.value.priority)
  {
    var (c, found) := Query(w, Some(provider), model, now, wall, commits);
    QueryFinds(w, Some(provider), model, now, wall, commits);
    FoundOrNot(w, Some(provider), model, now, wall, commits, found);
    if found != [] {
      SelectsHighest(c, found, provider, strategy, now);
      HighestFound(w, provider, model, now, wall, commits, found, Select(c, found, provider, strategy, now).1);
    }
  }

  lemma HighestFound(w: World, provider: string, model: string, now: real, wall: real, commits: bool,
                     found: seq<KeyRow>, r: KeyRow)
    requires Finds(w, Some(provider), model, now, wall, commits, found) && r in found && Highest(found, r)
    ensures r.provider == provider
    ensures exists x :: x in w.rows && Eligible(w.mem, x, Some(provider), model, now, wall, commits)
                        && r == Seen(w.mem, x, now, commits)
    ensures forall x :: x in w.rows && Eligible(w.mem, x, Some(provider), model, now, wall, commits) ==>
                          x.priority <= r.priority
  {
    var x := Source(w, Some(provider), model, now, wall, commits, found, r);
    forall y | y in w.rows && Eligible(w.mem, y, Some(provider), model, now, wall, commits)
      ensures y.priority <= r.priority
    {
      assert Seen(w.mem, y, now, commits) in found;
    }
  }

  /** The rows found are those of the eligible rows. */
  ghost predicate Finds(w: World, provider: Option<string>, model: string, now: real, wall: real, commits: bool,
                        found: seq<KeyRow>) {
    && (forall r :: r in w.rows ==>
                      (Seen(w.mem, r, now, commits) in found
                       <==> Eligible(w.mem, r, provider, model, now, wall, commits)))
    && (forall x :: x in found ==> exists r :: r in w.rows && x == Seen(w.mem, r, now, commits))
  }

  lemma QueryFinds(w: World, provider: Option<string>, model: string, now: real, wall: real, commits: bool)
    ensures Finds(w, provider, model, now, wall, commits, Query(w, provider, model, now, wall, commits).1)
  {
    QueryIsEligibility(w, provider, model, now, wall, commits);
  }

  /** What the fallback comes to. */
  lemma FallbackSelects(w: World, model: string, exclude: string, strategy: Strategy, now: real, wall: real,
                        commits: bool)
    ensures var (c, found) := Query(w, None, model, now, wall, commits);
            var others := Without(found, exclude);
            PickCross(w, model, exclude, strategy, now, wall, commits).1
            == if others == [] then None
            else Some(Select(c, OfProvider(others, LeastProvider(others)), LeastProvider(others), strategy, now).1)
  {
  }

  lemma FoundOrNot(w: World, provider: Option<string>, model: string, now: real, wall: real, commits: bool,
                   found: seq<KeyRow>)
    requires Finds(w, provider, model, now, wall, commits, found)
    ensures found == [] <==> forall x :: x in w.rows ==> !Eligible(w.mem, x, provider, model, now, wall, commits)
  {
    if found != [] {
      var x := Source(w, provider, model, now, wall, commits, found, found[0]);
    }
  }

  lemma Source(w: World, provider: Option<string>, model: string, now: real, wall: real, commits: bool,
               found: seq<KeyRow>, r: KeyRow) returns (x: KeyRow)
    requires Finds(w, provider, model, now, wall, commits, found) && r in found
    ensures x in w.rows && r == Seen(w.mem, x, now, commits) && x.provider == r.provider && x.priority == r.priority
    ensures Eligible(w.mem, x, provider, model, now, wall, commits)
  {
    x :| x in w.rows && r == Seen(w.mem, x, now, commits);
  }

  /** The fallback returns nothing only if no key of another provider is eligible; otherwise it returns one of the
      first provider, in sorted order, that has any, and no eligible key of that provider has a higher priority. */
  lemma FallbackIsHighest(w: World, model: string, exclude: string, strategy: Strategy, now: real, wall: real,
                          commits: bool)
    ensures var r := PickCross(w, model, exclude, strategy, now, wall, commits).1;
            && (r.None? <==> forall x :: x in w.rows && Allowed(x, exclude) ==>
                                           !Eligible(w.mem, x, None, model, now, wall, commits))
            && (r.Some? ==>
                  && Allowed(r.value, exclude)
                  && (exists x :: x in w.rows && Eligible(w.mem, x, None, model, now, wall, commits)
                                  && r.value == Seen(w.mem, x, now, commits))
                  && forall x :: x in w.rows && Allowed(x, exclude)
                                 && Eligible(w.mem, x, None, model, now, wall, commits) ==>
                                   && !Before(x.provider, r.value.provider)
                                   && (x.provider == r.value.provider ==> x.priority <= r.value.priority))
  {
    var (c, found) := Query(w, None, model, now, wall, commits);
    var others := Without(found, exclude);
    QueryFinds(w, None, model, now, wall, commits);
    FallbackSelects(w, model, exclude, strategy, now, wall, commits);
    OthersOrNot(w, model, exclude, now, wall, commits, found);
    if others != [] {
      var q := LeastProvider(others);
      var group := OfProvider(others, q);
      SelectsHighest(c, group, q, strategy, now);
      HighestOther(w, model, exclude, now, wall, commits, found, q, Select(c, group, q, strategy, now).1);
    }
  }

  lemma OthersOrNot(w: World, model: string, exclude: string, now: real, wall: real, commits: bool, found: seq<KeyRow>)
    requires Finds(w, None, model, now, wall, commits, found)
    ensures Without(found, exclude) == []
       <==> forall x :: x in w.rows && Allowed(x, exclude) ==> !Eligible(w.mem, x, None, model, now, wall, commits)
  {
    var others := Without(found, exclude);
    if others != [] {
      assert others[0] in others;
      var x := Source(w, None, model, now, wall, commits, found, others[0]);
    }
    if x :| x in w.rows && Allowed(x, exclude) && Eligible(w.mem, x, None, model, now, wall, commits) {
      assert Seen(w.mem, x, now, commits) in others;
    }
  }

  lemma HighestOther(w: World, model: string, exclude: string, now: real, wall: real, commits: bool,
                     found: seq<KeyRow>, q: string, r: KeyRow)
    requires Finds(w, None, model, now, wall, commits, found)
    requires var others := Without(found, exclude);
             && r in OfProvider(others, q) && Highest(OfProvider(others, q), r)
             && forall s :: s in others ==> !Before(s.provider, q)
    ensures Allowed(r, exclude) && r.provider == q
    ensures exists x :: x in w.rows && Eligible(w.mem, x, None, model, now, wall, commits)
                        && r == Seen(w.mem, x, now, commits)
    ensures forall x :: x in w.rows && Allowed(x, exclude) && Eligible(w.mem, x, None, model, now, wall, commits) ==>
                          !Before(x.provider, q) && (x.provider == q ==> x.priority <= r.priority)
  {
    var others := Without(found, exclude);
    var x := Source(w, None, model, now, wall, commits, found, r);
    forall y | y in w.rows && Allowed(y, exclude) && Eligible(w.mem, y, None, model, now, wall, commits)
      ensures !Before(y.provider, q) && (y.provider == q ==> y.priority <= r.priority)
    {
      var seen := Seen(w.mem, y, now, commits);
      assert seen in others && seen.provider == y.provider && seen.priority == y.priority;
      if y.provider == q { assert seen in OfProvider(others, q); }
    }
  }
}
