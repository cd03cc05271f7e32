/** Round-robin selection (keyhub/llm/balancer.py:218-242): over calls that see the same candidates, every
    candidate of the highest priority gets its turn.  `top` is that group, what `Select` selects among. */
module Fairness {
  import opened Balancer

  /** The state after `n` calls in a row that select among `top`. */
  function AfterTurns(w: World, top: seq<KeyRow>, provider: string, now: real, n: nat): World
    requires top != []
  {
    if n == 0 then w else SelectAmong(AfterTurns(w, top, provider, now, n - 1), top, provider, RoundRobin, now).0
  }

  /** The row that call number `i` selects. */
  function Turn(w: World, top: seq<KeyRow>, provider: string, now: real, i: nat): KeyRow
    requires top != []
  {
    SelectAmong(AfterTurns(w, top, provider, now, i), top, provider, RoundRobin, now).1
  }

  predicate NoneTripped(rows: seq<KeyRow>) {
    forall r :: r in rows ==> !r.status.CircuitBreaker?
  }

  lemma NothingTripped(rows: seq<KeyRow>)
    requires NoneTripped(rows)
    ensures Tripped(rows) == []
  {
    if rows != [] {
      assert forall r :: r in rows[1..] ==> r in rows;
      NothingTripped(rows[1..]);
    }
  }

  /** `d` places further round. */
  function Onward(p: nat, d: nat, m: nat): (q: nat)
    requires p < m && d <= m
    ensures q < m
  {
    if p + d < m then p + d else p + d - m
  }

  lemma {:induction false} NextPlace(cursor: nat, m: nat)
    requires m > 0
    ensures Place(cursor + 1, m) == Onward(Place(cursor, m), 1, m)
  {
    if cursor >= m { NextPlace(cursor - m, m); }
  }

  lemma {:induction false} PlacesInARound(cursor: nat, m: nat, i: nat)
    requires i < m
    ensures Place(cursor + i, m) == Onward(Place(cursor, m), i, m)
  {
    if i > 0 {
      PlacesInARound(cursor, m, i - 1);
      NextPlace(cursor + i - 1, m);
    }
  }

  /** One call selects the row the cursor points to and moves the cursor one place on. */
  lemma OneTurn(w: World, top: seq<KeyRow>, provider: string, now: real, x: nat)
    requires top != [] && NoneTripped(top) && Place(Cursor(w, provider), |top|) == Place(x, |top|)
    ensures var (s, r) := SelectAmong(w, top, provider, RoundRobin, now);
            r == top[Place(x, |top|)] && Place(Cursor(s, provider), |top|) == Place(x + 1, |top|)
  {
    NothingTripped(top);
    NextPlace(Cursor(w, provider), |top|);
    NextPlace(x, |top|);
  }

  /** Modulo the size of the group, the cursor counts the calls. */
  lemma {:induction false} CursorCounts(w: World, top: seq<KeyRow>, provider: string, now: real, n: nat)
    requires top != [] && NoneTripped(top)
    ensures Place(Cursor(AfterTurns(w, top, provider, now, n), provider), |top|)
         == Place(Cursor(w, provider) + n, |top|)
  {
    if n > 0 {
      var v := AfterTurns(w, top, provider, now, n - 1);
      CursorCounts(w, top, provider, now, n - 1);
      OneTurn(v, top, provider, now, Cursor(w, provider) + n - 1);
      assert AfterTurns(w, top, provider, now, n) == SelectAmong(v, top, provider, RoundRobin, now).0;
    }
  }

  /** Call number n selects the row n places after the cursor, round and round. */
  lemma TurnsGoRound(w: World, top: seq<KeyRow>, provider: string, now: real, n: nat)
    requires top != [] && NoneTripped(top)
    ensures Turn(w, top, provider, now, n) == top[Place(Cursor(w, provider) + n, |top|)]
  {
    CursorCounts(w, top, provider, now, n);
    OneTurn(AfterTurns(w, top, provider, now, n), top, provider, now, Cursor(w, provider) + n);
  }

  /** How many calls after position `p` the turn of `j` comes. */
  function TurnOf(p: nat, m: nat, j: nat): (d: nat)
    requires p < m && j < m
    ensures d < m && Onward(p, d, m) == j
  {
    if j >= p then j - p else j + m - p
  }

  /** Call number `i` of a round selects place `j` if and only if it is the turn of `j`. */
  lemma TurnInARound(w: World, top: seq<KeyRow>, provider: string, now: real, i: nat) returns (j: nat)
    requires top != [] && NoneTripped(top) && i < |top|
    ensures j < |top| && Turn(w, top, provider, now, i) == top[j]
    ensures i == TurnOf(Place(Cursor(w, provider), |top|), |top|, j)
  {
    TurnsGoRound(w, top, provider, now, i);
    PlacesInARound(Cursor(w, provider), |top|, i);
    j := Onward(Place(Cursor(w, provider), |top|), i, |top|);
  }

  /** In any |top| calls in a row each member of the group is selected exactly once, wherever the cursor stood. */
  lemma EveryoneGetsOneTurn(w: World, candidates: seq<KeyRow>, provider: string, now: real, j: nat)
    requires candidates != [] && NoneTripped(Top(candidates)) && j < |Top(candidates)|
    ensures Select(w, candidates, provider, RoundRobin, now)
         == SelectAmong(w, Top(candidates), provider, RoundRobin, now)
    ensures var top := Top(candidates);
            var i := TurnOf(Place(Cursor(w, provider), |top|), |top|, j);
            && Turn(w, top, provider, now, i) == top[j]
            && forall i' :: 0 <= i' < |top| && i' != i ==> TakesOther(w, top, provider, now, i', j)
  {
    var top := Top(candidates);
    var i := TurnOf(Place(Cursor(w, provider), |top|), |top|, j);
    var _ := TurnInARound(w, top, provider, now, i);
    forall i' | 0 <= i' < |top| && i' != i ensures TakesOther(w, top, provider, now, i', j) {
      var j' := TurnInARound(w, top, provider, now, i');
      assert j' != j && Turn(w, top, provider, now, i') == top[j'];
    }
  }

  /** Call number `i` selects some place other than `j`. */
  predicate TakesOther(w: World, top: seq<KeyRow>, provider: string, now: real, i: nat, j: nat) {
    exists j' :: 0 <= j' < |top| && j' != j && Turn(w, top, provider, now, i) == top[j']
  }
}
