/** What one proxied call takes and gives back: a permit of the global semaphore and an in-flight slot of
    a key.  A call's history is its sequence of such actions; calls interleave action by action. */
module Slots {
  import Balancer

  type KeyId = Balancer.KeyId

  /** A pick finds a key, finds none, or fails in the database. */
  datatype PickResult = Picked(key: KeyId) | NoKey | PickRaises

  /** The same across providers; `known` is whether the provider of the key found is configured. */
  datatype CrossResult = Crossed(key: KeyId, known: bool) | NoCross | CrossRaises

  /** Fallback is tried at most once in a call. */
  predicate StillFallback(permit: bool, pick: PickResult, fallback: bool) {
    fallback && !(permit && pick.NoKey?)
  }

  datatype Act = TakePermit | GivePermit | TakeSlot(key: KeyId) | GiveSlot(key: KeyId)

  /** What one action adds to the permits, to the slots of `k` and to all slots held. */
  function PermitOf(a: Act): int {
    if a.TakePermit? then 1 else if a.GivePermit? then -1 else 0
  }

  function SlotOf(a: Act, k: KeyId): int {
    if a == TakeSlot(k) then 1 else if a == GiveSlot(k) then -1 else 0
  }

  function AnySlot(a: Act): int {
    if a.TakeSlot? then 1 else if a.GiveSlot? then -1 else 0
  }

  function Permits(tr: seq<Act>): int {
    if tr == [] then 0 else Permits(tr[..|tr| - 1]) + PermitOf(tr[|tr| - 1])
  }

  function SlotsOf(tr: seq<Act>, k: KeyId): int {
    if tr == [] then 0 else SlotsOf(tr[..|tr| - 1], k) + SlotOf(tr[|tr| - 1], k)
  }

  function AllSlots(tr: seq<Act>): int {
    if tr == [] then 0 else AllSlots(tr[..|tr| - 1]) + AnySlot(tr[|tr| - 1])
  }

  predicate CanDo(tr: seq<Act>, a: Act) {
    (a.GivePermit? ==> Permits(tr) > 0) && (a.GiveSlot? ==> SlotsOf(tr, a.key) > 0)
  }

  /** Nothing is given back that is not held. */
  predicate Lawful(tr: seq<Act>) {
    tr == [] || (Lawful(tr[..|tr| - 1]) && CanDo(tr[..|tr| - 1], tr[|tr| - 1]))
  }

  /** At every point at most one permit is held, and a slot only together with it. */
  predicate Orderly(tr: seq<Act>) {
    tr == [] || (Orderly(tr[..|tr| - 1]) && 0 <= AllSlots(tr) <= Permits(tr) <= 1)
  }

  ghost predicate Balanced(tr: seq<Act>) {
    Permits(tr) == 0 && forall k :: SlotsOf(tr, k) == 0
  }

  lemma Extend(tr: seq<Act>, a: Act)
    ensures Permits(tr + [a]) == Permits(tr) + PermitOf(a)
    ensures AllSlots(tr + [a]) == AllSlots(tr) + AnySlot(a)
    ensures forall k :: SlotsOf(tr + [a], k) == SlotsOf(tr, k) + SlotOf(a, k)
    ensures Lawful(tr + [a]) <==> Lawful(tr) && CanDo(tr, a)
    ensures Orderly(tr + [a]) <==> Orderly(tr) && 0 <= AllSlots(tr + [a]) <= Permits(tr + [a]) <= 1
  {
    assert (tr + [a])[..|tr|] == tr;
  }

  // ----- interleaved calls -----

  datatype Step = Step(call: nat, act: Act)

  /** What call `c` has done in the run. */
  function Project(run: seq<Step>, c: nat): seq<Act> {
    if run == [] then []
    else Project(run[..|run| - 1], c) + if run[|run| - 1].call == c then [run[|run| - 1].act] else []
  }

  datatype Shared = Shared(permits: int, inflight: map<KeyId, int>)

  /** The semaphore and the balancer's counters, which never go below zero. */
  function Replay(s: Shared, run: seq<Step>): Shared {
    if run == [] then s else
    var t := Replay(s, run[..|run| - 1]);
    match run[|run| - 1].act
    case TakePermit => t.(permits := t.permits - 1)
    case GivePermit => t.(permits := t.permits + 1)
    case TakeSlot(k) => t.(inflight := Balancer.Acquire(t.inflight, k))
    case GiveSlot(k) => t.(inflight := Balancer.Release(t.inflight, k))
  }

  function SumPermits(run: seq<Step>, n: nat): int {
    if n == 0 then 0 else SumPermits(run, n - 1) + Permits(Project(run, n - 1))
  }

  function SumSlots(run: seq<Step>, n: nat, k: KeyId): int {
    if n == 0 then 0 else SumSlots(run, n - 1, k) + SlotsOf(Project(run, n - 1), k)
  }

  ghost predicate CallsBelow(run: seq<Step>, n: nat) {
    forall i :: 0 <= i < |run| ==> run[i].call < n
  }

  /** Each call, seen alone, gives back only what it holds. */
  ghost predicate EachLawful(run: seq<Step>, n: nat) {
    forall c :: 0 <= c < n ==> Lawful(Project(run, c))
  }

  lemma LawfulNonNegative(tr: seq<Act>, k: KeyId)
    requires Lawful(tr)
    ensures SlotsOf(tr, k) >= 0 && Permits(tr) >= 0
  {
    if tr != [] { LawfulNonNegative(tr[..|tr| - 1], k); }
  }

  lemma ProjectStep(run: seq<Step>, c: nat, k: KeyId)
    requires run != []
    ensures var s, init := run[|run| - 1], run[..|run| - 1];
            && Permits(Project(run, c)) == Permits(Project(init, c)) + (if s.call == c then PermitOf(s.act) else 0)
            && SlotsOf(Project(run, c), k) == SlotsOf(Project(init, c), k)
                                              + (if s.call == c then SlotOf(s.act, k) else 0)
  {
    var s, before := run[|run| - 1], Project(run[..|run| - 1], c);
    Extend(before, s.act);
    assert Project(run, c) == before + if s.call == c then [s.act] else [];
    assert before + [] == before;
  }

  lemma {:induction false} SumsStep(run: seq<Step>, init: seq<Step>, s: Step, n: nat, k: KeyId)
    requires run != [] && init == run[..|run| - 1] && s == run[|run| - 1]
    ensures SumPermits(run, n) == SumPermits(init, n) + if s.call < n then PermitOf(s.act) else 0
    ensures SumSlots(run, n, k) == SumSlots(init, n, k) + if s.call < n then SlotOf(s.act, k) else 0
  {
    if n > 0 {
      var m := n - 1;
      SumsStep(run, init, s, m, k);
      ProjectStep(run, m, k);
      assert SumPermits(run, n) == SumPermits(run, m) + Permits(Project(run, m));
      assert SumPermits(init, n) == SumPermits(init, m) + Permits(Project(init, m));
      assert SumSlots(run, n, k) == SumSlots(run, m, k) + SlotsOf(Project(run, m), k);
      assert SumSlots(init, n, k) == SumSlots(init, m, k) + SlotsOf(Project(init, m), k);
    }
  }

  lemma SumAtLeast(run: seq<Step>, n: nat, k: KeyId, c: nat)
    requires EachLawful(run, n)
    ensures SumSlots(run, n, k) >= 0
    ensures c < n ==> SumSlots(run, n, k) >= SlotsOf(Project(run, c), k)
  {
    if n > 0 {
      SumAtLeast(run, n - 1, k, c);
      LawfulNonNegative(Project(run, n - 1), k);
    }
  }

  lemma EachLawfulPrefix(run: seq<Step>, n: nat)
    requires run != [] && EachLawful(run, n)
    ensures EachLawful(run[..|run| - 1], n)
  {
    var s, init := run[|run| - 1], run[..|run| - 1];
    forall c | 0 <= c < n ensures Lawful(Project(init, c)) {
      assert Lawful(Project(run, c));
      if s.call == c {
        Extend(Project(init, c), s.act);
      } else {
        assert Project(run, c) == Project(init, c);
      }
    }
  }

  /** Whatever the interleaving, the in-flight count of a key is the number of slots the calls hold on it at
      that moment, and the permits out are the permits they hold. */
  lemma {:induction false} InterleavedCounts(run: seq<Step>, n: nat, start: Shared, k: KeyId)
    requires CallsBelow(run, n) && EachLawful(run, n) && Balancer.InFlight(start.inflight, k) == 0
    ensures Balancer.InFlight(Replay(start, run).inflight, k) == SumSlots(run, n, k)
    ensures Replay(start, run).permits == start.permits - SumPermits(run, n)
  {
    if run == [] {
      EmptySums(n, k);
    } else {
      var s, init := run[|run| - 1], run[..|run| - 1];
      EachLawfulPrefix(run, n);
      InterleavedCounts(init, n, start, k);
      SumsStep(run, init, s, n, k);
      if s.act == GiveSlot(k) {
        assert Lawful(Project(run, s.call));
        Extend(Project(init, s.call), s.act);
        SumAtLeast(init, n, k, s.call);
      }
    }
  }

  lemma EmptySums(n: nat, k: KeyId)
    ensures SumSlots([], n, k) == 0 && SumPermits([], n) == 0
  {
  }

  /** When every call has come to a balanced end, all counts are back where they were. */
  lemma {:induction false} AllReturned(run: seq<Step>, n: nat, start: Shared, k: KeyId)
    requires CallsBelow(run, n) && EachLawful(run, n) && Balancer.InFlight(start.inflight, k) == 0
    requires forall c :: 0 <= c < n ==> Balanced(Project(run, c))
    ensures Balancer.InFlight(Replay(start, run).inflight, k) == 0 && Replay(start, run).permits == start.permits
  {
    InterleavedCounts(run, n, start, k);
    BalancedSums(run, n, k);
  }

  lemma {:induction false} BalancedSums(run: seq<Step>, n: nat, k: KeyId)
    requires forall c :: 0 <= c < n ==> Balanced(Project(run, c))
    ensures SumSlots(run, n, k) == 0 && SumPermits(run, n) == 0
  {
    if n > 0 {
      BalancedSums(run, n - 1, k);
      assert Balanced(Project(run, n - 1));
    }
  }
}
