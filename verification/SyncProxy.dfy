/** The non-streaming retry loop of keyhub/llm/proxy.py.  Unlike the streaming one it does not always give
    back what it took; this is exactly when it does. */
module SyncProxy {
  import opened Prelude
  import opened Slots

  datatype Reply =
    | RequestError           // a request error, or an answer that is not JSON
    | OtherRaise             // any other exception around the request
    | Status429
    | StatusBad
    | Answer(recorded: bool) // whether recording the usage went through

  datatype Attempt =
    Attempt(permit: bool, pick: PickResult, cross: CrossResult, overBudget: bool, auditRaises: bool,
            rowRaises: bool, rowFound: bool, limited: bool, decrypts: bool, reply: Reply)

  // ----- what an attempt comes to -----

  /** Fallback found a key: the permit has already been given back, and will be given back again. */
  predicate FallsBack(a: Attempt, fallback: bool) {
    a.permit && a.pick.NoKey? && fallback && a.cross.Crossed?
  }

  /** With a key in hand, an exception that no handler catches. */
  predicate Escapes(a: Attempt) {
    if a.overBudget then a.auditRaises
    else a.rowRaises || (a.rowFound && !a.limited
                         && (!a.decrypts || a.reply.OtherRaise? || (a.reply.Answer? && !a.reply.recorded)))
  }

  predicate Answers(a: Attempt) {
    !a.overBudget && !a.rowRaises && a.rowFound && !a.limited && a.decrypts && a.reply.Answer? && a.reply.recorded
  }

  predicate Next(a: Attempt, fallback: bool) {
    StillFallback(a.permit, a.pick, fallback)
  }

  /** The next attempt is made. */
  predicate Continues(a: Attempt, fallback: bool) {
    !a.permit || ((a.pick.Picked? || (FallsBack(a, fallback) && a.cross.known)) && !Escapes(a) && !Answers(a))
  }

  /** The attempt ends up with a key in hand. */
  predicate HasKey(a: Attempt, fallback: bool) {
    a.permit && (a.pick.Picked? || (FallsBack(a, fallback) && a.cross.known))
  }

  /** The attempt ends in an answer. */
  predicate GetsAnswer(a: Attempt, fallback: bool) {
    HasKey(a, fallback) && Answers(a)
  }

  /** The attempt that answers, if the call comes to one. */
  function AnswerOf(script: seq<Attempt>, fallback: bool): (r: Option<nat>)
    ensures r.Some? ==> r.value < |script|
  {
    if script == [] then None
    else if GetsAnswer(script[0], fallback) then Some(0)
    else if !Continues(script[0], fallback) then None
    else match AnswerOf(script[1..], Next(script[0], fallback))
         case None => None
         case Some(i) => Some(i + 1)
  }

  predicate Faulty(a: Attempt, fallback: bool) {
    FallsBack(a, fallback) || (a.permit && (a.pick.PickRaises? || (a.pick.Picked? && Escapes(a))))
  }

  /** Some attempt that is reached falls back to another provider, or lets an exception escape. */
  predicate CallFaulty(script: seq<Attempt>, fallback: bool) {
    script != [] &&
    (Faulty(script[0], fallback)
     || (Continues(script[0], fallback) && CallFaulty(script[1..], Next(script[0], fallback))))
  }

  /** The call ends, with no fallback left, in a pick that raises. */
  predicate EndsInRaise(script: seq<Attempt>) {
    script != [] &&
    ((script[0].permit && script[0].pick.PickRaises?) || (Continues(script[0], false) && EndsInRaise(script[1..])))
  }

  /** A fallback that gives one permit too many, and later a pick that raises and gives one too few. */
  predicate Cancels(script: seq<Attempt>, fallback: bool) {
    script != [] && Continues(script[0], fallback) &&
    if FallsBack(script[0], fallback) then EndsInRaise(script[1..]) else Cancels(script[1..], Next(script[0], fallback))
  }

  // ----- what a call takes and gives -----

  /** From the budget check on. */
  function Ended(a: Attempt, k: KeyId): seq<Act> {
    if Escapes(a) then [] else [GiveSlot(k), GivePermit]
  }

  function Acts(a: Attempt, fallback: bool): seq<Act> {
    if !a.permit then [] else
    match a.pick
    case Picked(k) => [TakePermit, TakeSlot(k)] + Ended(a, k)
    case PickRaises => [TakePermit]
    case NoKey =>
      [TakePermit, GivePermit]
      + FallbackActs(a, fallback)
  }

  function FallbackActs(a: Attempt, fallback: bool): seq<Act> {
    if !FallsBack(a, fallback) then []
    else [TakeSlot(a.cross.key)] + if a.cross.known then Ended(a, a.cross.key) else []
  }

  function CallActs(script: seq<Attempt>, fallback: bool): seq<Act> {
    if script == [] then []
    else Acts(script[0], fallback)
         + if Continues(script[0], fallback) then CallActs(script[1..], Next(script[0], fallback)) else []
  }

  datatype Fate = Retry | Done | Raise

  class SyncCall {
    var trace: seq<Act>
    var fallback: bool

    constructor (fallbackEnabled: bool)
      ensures trace == [] && fallback == fallbackEnabled
    {
      trace, fallback := [], fallbackEnabled;
    }

    method GiveBack(k: KeyId)
      modifies `trace
      ensures trace == old(trace) + [GiveSlot(k), GivePermit]
    {
      trace := trace + [GiveSlot(k)];
      trace := trace + [GivePermit];
    }

    /** From the budget check on. */
    method UseKey(a: Attempt, k: KeyId) returns (fate: Fate)
      modifies `trace
      ensures trace == old(trace) + Ended(a, k)
      ensures fate.Retry? <==> !Escapes(a) && !Answers(a)
      ensures fate.Done? <==> Answers(a)
    {
      if a.overBudget {
        if a.auditRaises { return Raise; }
        GiveBack(k);
        return Retry;
      }
      if a.rowRaises { return Raise; }
      if !a.rowFound || a.limited {
        GiveBack(k);
        return Retry;
      }
      if !a.decrypts || a.reply.OtherRaise? { return Raise; }
      if a.reply.RequestError? || a.reply.Status429? || a.reply.StatusBad? {
        GiveBack(k);
        return Retry;
      }
      if !a.reply.recorded { return Raise; }
      GiveBack(k);
      fate := Done;
    }

    method RunAttempt(a: Attempt) returns (fate: Fate)
      modifies this
      ensures fallback == Next(a, old(fallback))
      ensures trace == old(trace) + Acts(a, old(fallback))
      ensures fate.Retry? <==> Continues(a, old(fallback))
      ensures fate.Done? <==> GetsAnswer(a, old(fallback))
    {
      if !a.permit { return Retry; }
      trace := trace + [TakePermit];
      match a.pick {
        case Picked(k) =>
          trace := trace + [TakeSlot(k)];
          fate := UseKey(a, k);
        case PickRaises => fate := Raise;
        case NoKey =>
          trace := trace + [GivePermit];
          if !fallback { return Raise; }
          fallback := false;
          if !a.cross.Crossed? { return Raise; }
          trace := trace + [TakeSlot(a.cross.key)];
          if !a.cross.known { return Raise; }
          fate := UseKey(a, a.cross.key);
      }
    }

    /** Everything taken is given back exactly once, and nothing that is not held, if and only if no attempt that
        is reached falls back or lets an exception escape.  The totals alone also come out right when a fallback
        that gave a permit too many is followed by a pick that raises. */
    method Chat(script: seq<Attempt>) returns (answer: Option<nat>)
      requires trace == []
      modifies this
      ensures trace == CallActs(script, old(fallback)) && answer == AnswerOf(script, old(fallback))
      ensures Lawful(trace) && Balanced(trace) <==> !CallFaulty(script, old(fallback))
      ensures !CallFaulty(script, old(fallback)) ==> Orderly(trace)
      ensures Balanced(trace) <==> !CallFaulty(script, old(fallback)) || Cancels(script, old(fallback))
    {
      ghost var fallback0 := fallback;
      answer := TryAll(script);
      CallBalance(script, fallback0);
    }

    /** The loop over the attempts. */
    method TryAll(script: seq<Attempt>) returns (answer: Option<nat>)
      requires trace == []
      modifies this
      ensures trace == CallActs(script, old(fallback)) && answer == AnswerOf(script, old(fallback))
    {
      ghost var fallback0 := fallback;
      for i := 0 to |script|
        invariant ComesTo(script, fallback0, trace, i, CallActs(script[i..], fallback), AnswerOf(script[i..], fallback))
      {
        ComesToStep(script, fallback0, trace, i, fallback);
        var fate := RunAttempt(script[i]);
        if fate.Done? { return Some(i); }
        if fate.Raise? { return None; }
      }
      answer := None;
    }
  }

  // ----- which attempt answers -----

  /** What leaves the question open: no permit; or, with a key in hand, a budget used up, a row that is gone, a rate
      limit, or a reply that is an error. */
  predicate Inconclusive(a: Attempt, fallback: bool) {
    !a.permit
    || (&& (a.pick.Picked? || (a.pick.NoKey? && fallback && a.cross.Crossed? && a.cross.known))
        && ((a.overBudget && !a.auditRaises)
            || (!a.overBudget && !a.rowRaises && !a.rowFound)
            || (!a.overBudget && !a.rowRaises && a.limited)
            || (!a.overBudget && !a.rowRaises && a.decrypts
                && (a.reply.RequestError? || a.reply.Status429? || a.reply.StatusBad?))))
  }

  /** Exactly that leads to another attempt. */
  lemma ContinuesIff(a: Attempt, fallback: bool)
    ensures Continues(a, fallback) <==> Inconclusive(a, fallback)
  {
  }

  /** An attempt with a key in hand answers, is inconclusive or lets an exception escape: one of the three. */
  lemma OneOfThree(a: Attempt, fallback: bool)
    requires HasKey(a, fallback)
    ensures GetsAnswer(a, fallback) ==> !Inconclusive(a, fallback) && !Escapes(a) && a.reply == Answer(true)
    ensures Inconclusive(a, fallback) ==> !Escapes(a)
    ensures GetsAnswer(a, fallback) || Inconclusive(a, fallback) || Escapes(a)
  {
  }

  /** Fallback has not been used up before attempt `i`. */
  predicate FallbackLeft(script: seq<Attempt>, fallback: bool, i: nat)
    requires i <= |script|
  {
    fallback && forall j :: 0 <= j < i ==> !(script[j].permit && script[j].pick.NoKey?)
  }

  lemma AnswerStep(script: seq<Attempt>, i: nat, fallback: bool)
    requires i < |script|
    ensures AnswerOf(script[i..], fallback)
         == if GetsAnswer(script[i], fallback) then Some(0)
            else if !Continues(script[i], fallback) then None
            else match AnswerOf(script[i + 1..], Next(script[i], fallback))
                 case None => None
                 case Some(j) => Some(j + 1)
  {
    assert script[i..][0] == script[i] && script[i..][1..] == script[i + 1..];
  }

  lemma ActsStep(tr: seq<Act>, script: seq<Attempt>, i: nat, fallback: bool)
    requires i < |script|
    ensures var next := tr + Acts(script[i], fallback);
            tr + CallActs(script[i..], fallback)
            == if Continues(script[i], fallback) then next + CallActs(script[i + 1..], Next(script[i], fallback))
            else next
  {
    assert script[i..][0] == script[i] && script[i..][1..] == script[i + 1..];
    CallStep(tr, script[i..], fallback);
    assert tr + Acts(script[i], fallback) + [] == tr + Acts(script[i], fallback);
  }

  /** The call has come to attempt `i` with `tr` behind it and `acts` and `answer` to come. */
  ghost predicate ComesTo(script: seq<Attempt>, fallback: bool, tr: seq<Act>, i: nat, acts: seq<Act>,
                          answer: Option<nat>) {
    && CallActs(script, fallback) == tr + acts
    && AnswerOf(script, fallback) == if answer.None? then None else Some(i + answer.value)
  }

  lemma ComesToStep(script: seq<Attempt>, fallback0: bool, tr: seq<Act>, i: nat, fallback: bool)
    requires i < |script|
    requires ComesTo(script, fallback0, tr, i, CallActs(script[i..], fallback), AnswerOf(script[i..], fallback))
    ensures var a, tr', next := script[i], tr + Acts(script[i], fallback), Next(script[i], fallback);
            && (Continues(a, fallback) && !GetsAnswer(a, fallback) ==>
                  ComesTo(script, fallback0, tr', i + 1,
                          CallActs(script[i + 1..], next), AnswerOf(script[i + 1..], next)))
            && (!Continues(a, fallback) ==>
                  && CallActs(script, fallback0) == tr'
                  && AnswerOf(script, fallback0) == if GetsAnswer(a, fallback) then Some(i) else None)
  {
    ActsStep(tr, script, i, fallback);
    AnswerStep(script, i, fallback);
  }

  lemma FallbackLeftRest(script: seq<Attempt>, fallback: bool, i: nat)
    requires script != [] && i < |script|
    ensures FallbackLeft(script, fallback, i + 1) <==> FallbackLeft(script[1..], Next(script[0], fallback), i)
  {
    assert forall j :: 0 < j <= i ==> script[j] == script[1..][j - 1];
  }

  /** All before `i` were inconclusive. */
  ghost predicate OpenUntil(script: seq<Attempt>, fallback: bool, i: nat)
    requires i <= |script|
  {
    forall j :: 0 <= j < i ==> Inconclusive(script[j], FallbackLeft(script, fallback, j))
  }

  /** The call answers with the first attempt that gets an answer, all before it having been inconclusive; and it
      raises only if all attempts were, or after some that were one neither was nor answered. */
  lemma {:induction false} AnswerIsFirst(script: seq<Attempt>, fallback: bool)
    ensures var r := AnswerOf(script, fallback);
            && (r.Some? ==> OpenUntil(script, fallback, r.value)
                            && GetsAnswer(script[r.value], FallbackLeft(script, fallback, r.value)))
            && (r.None? ==> OpenUntil(script, fallback, |script|) || exists i :: FailsAt(script, fallback, i))
    decreases |script|
  {
    if script != [] {
      var a, rest, next := script[0], script[1..], Next(script[0], fallback);
      ContinuesIff(a, fallback);
      AnswerIsFirst(rest, next);
      var r := AnswerOf(rest, next);
      if Continues(a, fallback) && !GetsAnswer(a, fallback) {
        if r.Some? {
          OpenOneMore(script, fallback, r.value);
          FallbackLeftRest(script, fallback, r.value);
        } else if OpenUntil(rest, next, |rest|) {
          OpenOneMore(script, fallback, |rest|);
        } else {
          var i: nat :| FailsAt(rest, next, i);
          OpenOneMore(script, fallback, i);
          FallbackLeftRest(script, fallback, i);
          assert FailsAt(script, fallback, i + 1);
        }
      } else if !GetsAnswer(a, fallback) {
        assert FailsAt(script, fallback, 0);
      }
    }
  }

  /** The call breaks off at attempt `i`. */
  ghost predicate FailsAt(script: seq<Attempt>, fallback: bool, i: nat) {
    && i < |script| && OpenUntil(script, fallback, i)
    && !Inconclusive(script[i], FallbackLeft(script, fallback, i))
    && !GetsAnswer(script[i], FallbackLeft(script, fallback, i))
  }

  lemma OpenOneMore(script: seq<Attempt>, fallback: bool, i: nat)
    requires script != [] && i <= |script[1..]|
    requires Inconclusive(script[0], fallback) && OpenUntil(script[1..], Next(script[0], fallback), i)
    ensures OpenUntil(script, fallback, i + 1)
  {
    forall j | 0 <= j < i + 1 ensures Inconclusive(script[j], FallbackLeft(script, fallback, j)) {
      if j > 0 {
        FallbackLeftRest(script, fallback, j - 1);
        assert script[j] == script[1..][j - 1];
      }
    }
  }

  // ----- when it balances -----

  function PermitShift(a: Attempt, fallback: bool): int {
    if !a.permit then 0
    else if a.pick.PickRaises? || (a.pick.Picked? && Escapes(a)) then 1
    else if FallsBack(a, fallback) && a.cross.known && !Escapes(a) then -1
    else 0
  }

  function SlotShift(a: Attempt, fallback: bool, k: KeyId): int {
    if a.permit && a.pick.Picked? && Escapes(a) && a.pick.key == k then 1
    else if FallsBack(a, fallback) && (!a.cross.known || Escapes(a)) && a.cross.key == k then 1
    else 0
  }

  lemma EndedEffect(tr: seq<Act>, a: Attempt, k: KeyId)
    ensures var tr' := tr + Ended(a, k);
            && Permits(tr') == Permits(tr) - (if Escapes(a) then 0 else 1)
            && (forall j :: SlotsOf(tr', j) == SlotsOf(tr, j) - if j == k && !Escapes(a) then 1 else 0)
            && AllSlots(tr') == AllSlots(tr) - (if Escapes(a) then 0 else 1)
            && (Lawful(tr') <==> Lawful(tr) && (Escapes(a) || (SlotsOf(tr, k) > 0 && Permits(tr) > 0)))
            && (Orderly(tr) && AllSlots(tr) == 1 && Permits(tr) == 1 ==> Orderly(tr'))
  {
    if Escapes(a) {
      assert tr + [] == tr;
    } else {
      Extend(tr, GiveSlot(k));
      Extend(tr + [GiveSlot(k)], GivePermit);
      assert tr + Ended(a, k) == tr + [GiveSlot(k)] + [GivePermit];
    }
  }

  /** What one attempt makes of the history `tr`, at whose end no slot is held. */
  ghost predicate Effect(tr: seq<Act>, tr': seq<Act>, a: Attempt, fallback: bool) {
    && Permits(tr') == Permits(tr) + PermitShift(a, fallback)
    && (forall k :: SlotsOf(tr', k) == SlotShift(a, fallback, k))
    && (Lawful(tr') ==> Lawful(tr))
    && (Permits(tr) == 0 && Lawful(tr) ==> (Lawful(tr') <==> PermitShift(a, fallback) != -1))
    && (AllSlots(tr) == 0 && Permits(tr) == 0 && Orderly(tr) && !Faulty(a, fallback) ==>
          AllSlots(tr') == 0 && Orderly(tr'))
  }

  lemma PickedEffect(tr: seq<Act>, a: Attempt, fallback: bool)
    requires (forall k :: SlotsOf(tr, k) == 0) && a.permit && a.pick.Picked?
    ensures Effect(tr, tr + Acts(a, fallback), a, fallback)
  {
    var t1 := tr + [TakePermit];
    var t2 := t1 + [TakeSlot(a.pick.key)];
    Extend(tr, TakePermit);
    Extend(t1, TakeSlot(a.pick.key));
    EndedEffect(t2, a, a.pick.key);
    assert tr + Acts(a, fallback) == t2 + Ended(a, a.pick.key);
  }

  lemma AttemptEffect(tr: seq<Act>, a: Attempt, fallback: bool)
    requires forall k :: SlotsOf(tr, k) == 0
    ensures Effect(tr, tr + Acts(a, fallback), a, fallback)
  {
    if !a.permit {
      assert tr + [] == tr;
    } else if a.pick.Picked? {
      PickedEffect(tr, a, fallback);
    } else if a.pick.PickRaises? {
      Extend(tr, TakePermit);
    } else {
      NoKeyEffect(tr, a, fallback);
    }
  }

  /** A permit taken and given back at once leaves everything as it was. */
  lemma TakeAndGive(tr: seq<Act>)
    ensures var t2 := tr + [TakePermit] + [GivePermit];
            && Permits(t2) == Permits(tr) && AllSlots(t2) == AllSlots(tr)
            && (forall k :: SlotsOf(t2, k) == SlotsOf(tr, k))
            && (Lawful(t2) ==> Lawful(tr)) && (Lawful(tr) && Permits(tr) == 0 ==> Lawful(t2))
            && (Orderly(tr) && AllSlots(tr) == 0 && Permits(tr) == 0 ==> Orderly(t2))
  {
    Extend(tr, TakePermit);
    Extend(tr + [TakePermit], GivePermit);
  }

  lemma NoKeyEffect(tr: seq<Act>, a: Attempt, fallback: bool)
    requires (forall k :: SlotsOf(tr, k) == 0) && a.permit && a.pick.NoKey?
    ensures Effect(tr, tr + Acts(a, fallback), a, fallback)
  {
    var t2 := tr + [TakePermit] + [GivePermit];
    TakeAndGive(tr);
    FallbackEffect(t2, a, fallback);
    assert tr + Acts(a, fallback) == t2 + FallbackActs(a, fallback);
  }

  lemma FallbackEffect(tr: seq<Act>, a: Attempt, fallback: bool)
    requires forall k :: SlotsOf(tr, k) == 0
    requires a.permit && a.pick.NoKey?
    ensures var tr' := tr + FallbackActs(a, fallback);
            && Permits(tr') == Permits(tr) + PermitShift(a, fallback)
            && (forall k :: SlotsOf(tr', k) == SlotShift(a, fallback, k))
            && (Lawful(tr') ==> Lawful(tr))
            && (Permits(tr) == 0 && Lawful(tr) ==> (Lawful(tr') <==> PermitShift(a, fallback) != -1))
            && (!FallsBack(a, fallback) ==> tr' == tr)
  {
    if FallsBack(a, fallback) {
      var k := a.cross.key;
      Extend(tr, TakeSlot(k));
      EndedEffect(tr + [TakeSlot(k)], a, k);
      if a.cross.known { assert tr + FallbackActs(a, fallback) == tr + [TakeSlot(k)] + Ended(a, k); }
    } else {
      assert tr + [] == tr;
    }
  }

  lemma CallStep(tr: seq<Act>, script: seq<Attempt>, fallback: bool)
    requires script != []
    ensures tr + CallActs(script, fallback)
         == tr + Acts(script[0], fallback)
            + if Continues(script[0], fallback) then CallActs(script[1..], Next(script[0], fallback)) else []
  {
  }

  ghost predicate Fresh(tr: seq<Act>) {
    Lawful(tr) && Orderly(tr) && Permits(tr) == 0 && AllSlots(tr) == 0 && forall k :: SlotsOf(tr, k) == 0
  }

  /** What the history `tr` of a call that began afresh says about it. */
  ghost predicate Settled(tr: seq<Act>, script: seq<Attempt>, fallback: bool) {
    && (Lawful(tr) && Balanced(tr) <==> !CallFaulty(script, fallback))
    && (!CallFaulty(script, fallback) ==> Orderly(tr))
    && (Balanced(tr) <==> !CallFaulty(script, fallback) || Cancels(script, fallback))
  }

  lemma {:induction false} ChatBalance(tr: seq<Act>, script: seq<Attempt>, fallback: bool)
    requires Fresh(tr)
    ensures Settled(tr + CallActs(script, fallback), script, fallback)
    decreases |script|
  {
    if script == [] {
      assert tr + [] == tr;
    } else {
      var a, rest, next := script[0], script[1..], Next(script[0], fallback);
      var t1 := tr + Acts(a, fallback);
      AttemptEffect(tr, a, fallback);
      CallStep(tr, script, fallback);
      if !Continues(a, fallback) {
        assert t1 + [] == t1;
        StopSettles(tr, t1, script, fallback);
      } else if FallsBack(a, fallback) {
        AfterFallback(t1, rest);
        FallbackSettles(t1 + CallActs(rest, next), script, fallback);
      } else {
        ChatBalance(t1, rest, next);
        RestSettles(t1 + CallActs(rest, next), script, fallback);
      }
    }
  }

  lemma CallBalance(script: seq<Attempt>, fallback: bool)
    ensures Settled(CallActs(script, fallback), script, fallback)
  {
    ChatBalance([], script, fallback);
    assert [] + CallActs(script, fallback) == CallActs(script, fallback);
  }

  lemma StopSettles(tr: seq<Act>, t1: seq<Act>, script: seq<Attempt>, fallback: bool)
    requires script != [] && Fresh(tr) && Effect(tr, t1, script[0], fallback) && !Continues(script[0], fallback)
    ensures Settled(t1, script, fallback)
  {
    if Faulty(script[0], fallback) {
      StopIsUnbalanced(t1, script[0], fallback);
    } else {
      assert forall k :: SlotsOf(t1, k) == SlotShift(script[0], fallback, k) == 0;
    }
  }

  lemma FallbackSettles(tr: seq<Act>, script: seq<Attempt>, fallback: bool)
    requires script != [] && Continues(script[0], fallback) && FallsBack(script[0], fallback)
    requires !Lawful(tr) && (Balanced(tr) <==> EndsInRaise(script[1..]))
    ensures Settled(tr, script, fallback)
  {
  }

  lemma RestSettles(tr: seq<Act>, script: seq<Attempt>, fallback: bool)
    requires script != [] && Continues(script[0], fallback) && !FallsBack(script[0], fallback)
    requires Settled(tr, script[1..], Next(script[0], fallback))
    ensures Settled(tr, script, fallback)
  {
  }

  lemma StopIsUnbalanced(tr: seq<Act>, a: Attempt, fallback: bool)
    requires Faulty(a, fallback) && !Continues(a, fallback)
    requires forall k :: SlotsOf(tr, k) == SlotShift(a, fallback, k)
    requires Permits(tr) == PermitShift(a, fallback)
    ensures !Balanced(tr)
  {
    if !a.pick.PickRaises? {
      var k := if a.pick.Picked? then a.pick.key else a.cross.key;
      assert SlotsOf(tr, k) == SlotShift(a, fallback, k);
    }
  }

  /** After a fallback one permit too many is out, and only a pick that raises makes up for it. */
  lemma {:induction false} AfterFallback(tr: seq<Act>, script: seq<Attempt>)
    requires !Lawful(tr) && Permits(tr) == -1 && forall k :: SlotsOf(tr, k) == 0
    ensures var tr' := tr + CallActs(script, false);
            !Lawful(tr') && (Balanced(tr') <==> EndsInRaise(script))
    decreases |script|
  {
    if script == [] {
      assert tr + [] == tr;
    } else {
      var a := script[0];
      var t1 := tr + Acts(a, false);
      AttemptEffect(tr, a, false);
      CallStep(tr, script, false);
      if Continues(a, false) {
        AfterFallback(t1, script[1..]);
      } else {
        assert t1 + [] == t1;
        StopAfterFallback(tr, t1, a);
      }
    }
  }

  lemma StopAfterFallback(tr: seq<Act>, t1: seq<Act>, a: Attempt)
    requires Permits(tr) == -1 && Effect(tr, t1, a, false) && !Continues(a, false)
    ensures Balanced(t1) <==> a.permit && a.pick.PickRaises?
  {
    if a.permit && a.pick.Picked? { assert SlotsOf(t1, a.pick.key) == SlotShift(a, false, a.pick.key); }
  }

  /** What falling back costs: every call whose first attempt falls back and is answered leaves the semaphore one
      permit too many, with fallback switched off it does not. */
  lemma FallbackGivesTwice(a: Attempt, rest: seq<Attempt>)
    requires FallsBack(a, true) && a.cross.known && Answers(a)
    ensures Permits(CallActs([a] + rest, true)) == -1 && !Lawful(CallActs([a] + rest, true))
    ensures forall k :: SlotsOf(CallActs([a] + rest, true), k) == 0
    ensures Balanced(CallActs([a] + rest, false)) && Lawful(CallActs([a] + rest, false))
  {
    AttemptEffect([], a, true);
    AttemptEffect([], a, false);
    assert [] + Acts(a, true) == CallActs([a] + rest, true);
    assert [] + Acts(a, false) == CallActs([a] + rest, false);
  }

  /** What a pick that raises costs: the permit. */
  lemma RaisingPickKeepsPermit(a: Attempt, rest: seq<Attempt>, fallback: bool)
    requires a.permit && a.pick.PickRaises?
    ensures Permits(CallActs([a] + rest, fallback)) == 1
  {
    AttemptEffect([], a, fallback);
    assert [] + Acts(a, fallback) == CallActs([a] + rest, fallback);
  }
}
