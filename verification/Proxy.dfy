/** The streaming retry loop of keyhub/llm/proxy.py.  What the outside world answers (database, upstream,
    consumer) is a script handed to the call; the call walks through it the way the source does. */
module Proxy {
  import opened Prelude
  import opened Slots

  // ----- what the outside world does -----

  datatype Line = Blank | Text(text: string) | ErrorChunk | Late

  datatype StreamEnd = Eof | HttpFailure | OtherFailure

  datatype Upstream =
    | ConnectFails
    | OpenRaises
    | Status429
    | StatusBad
    | Stream(lines: seq<Line>, end: StreamEnd, recorded: bool)

  datatype Attempt =
    Attempt(permit: bool, pick: PickResult, cross: CrossResult, overBudget: bool, auditRaises: bool,
            rowRaises: bool, rowFound: bool, limited: bool, decrypts: bool, upstream: Upstream)

  datatype Item = Data(attempt: nat, text: string) | Newline(attempt: nat) | Report(attempt: nat)

  datatype Ending = Returned | Raised | Closed

  // ----- which attempt gets through to an upstream, and which leaves something behind -----

  /** The attempt ends up with a key in hand. */
  predicate HasKey(a: Attempt, fallback: bool) {
    a.permit && (a.pick.Picked? || (a.pick.NoKey? && fallback && a.cross.Crossed? && a.cross.known))
  }

  predicate Starts(a: Attempt, fallback: bool) {
    HasKey(a, fallback) && !a.overBudget && !a.rowRaises && a.rowFound && !a.limited && a.decrypts && a.upstream.Stream?
  }

  /** What keeps an attempt with a key in hand from its upstream, and nothing else does: a budget used up, a row that
      cannot be read or is gone, a rate limit, a key that does not decrypt, and an upstream that cannot be reached or
      answers with an error. */
  lemma KeptFromStarting(a: Attempt, fallback: bool)
    requires HasKey(a, fallback)
    ensures !Starts(a, fallback)
       <==> || a.overBudget || a.rowRaises || !a.rowFound || a.limited || !a.decrypts
            || a.upstream.ConnectFails? || a.upstream.OpenRaises? || a.upstream.Status429? || a.upstream.StatusBad?
  {
  }

  /** Whether fallback is still to be had when attempt `i` begins. */
  predicate FallbackBefore(script: seq<Attempt>, fallback: bool, i: nat)
    requires i <= |script|
  {
    if i == 0 then fallback
    else FallbackBefore(script[1..], StillFallback(script[0].permit, script[0].pick, fallback), i - 1)
  }

  /** It is as long as it was enabled and no attempt before has found its provider without a key. */
  lemma {:induction false} FallbackOnce(script: seq<Attempt>, fallback: bool, i: nat)
    requires i <= |script|
    ensures FallbackBefore(script, fallback, i)
       <==> fallback && forall j :: 0 <= j < i ==> !(script[j].permit && script[j].pick.NoKey?)
  {
    if i > 0 {
      var rest := script[1..];
      FallbackOnce(rest, StillFallback(script[0].permit, script[0].pick, fallback), i - 1);
      assert forall j :: 0 < j < i ==> script[j] == rest[j - 1];
    }
  }

  predicate StartsAt(script: seq<Attempt>, fallback: bool, i: nat)
    requires i < |script|
  {
    Starts(script[i], FallbackBefore(script, fallback, i))
  }

  /** The attempt that gets through to an upstream. */
  function FirstStart(script: seq<Attempt>, fallback: bool): (r: Option<nat>)
    ensures r.Some? ==> r.value < |script| && script[r.value].upstream.Stream?
  {
    if script == [] then None
    else if Starts(script[0], fallback) then Some(0)
    else match FirstStart(script[1..], StillFallback(script[0].permit, script[0].pick, fallback))
         case None => None
         case Some(i) => Some(i + 1)
  }

  lemma FirstStartStep(script: seq<Attempt>, i: nat, fallback: bool)
    requires i < |script|
    ensures FirstStart(script[i..], fallback)
         == if Starts(script[i], fallback) then Some(0)
            else match FirstStart(script[i + 1..], StillFallback(script[i].permit, script[i].pick, fallback))
                 case None => None
                 case Some(j) => Some(j + 1)
  {
    assert script[i..][0] == script[i] && script[i..][1..] == script[i + 1..];
  }

  /** It is the first that starts, and there is none only if no attempt starts. */
  lemma {:induction false} FirstStartIsFirst(script: seq<Attempt>, fallback: bool)
    ensures var r := FirstStart(script, fallback);
            && (r.Some? ==> StartsAt(script, fallback, r.value))
            && forall i :: 0 <= i < (if r.Some? then r.value else |script|) ==> !StartsAt(script, fallback, i)
  {
    if script != [] && !Starts(script[0], fallback) {
      var next := StillFallback(script[0].permit, script[0].pick, fallback);
      FirstStartIsFirst(script[1..], next);
      forall i | 0 < i < |script| ensures StartsAt(script, fallback, i) == StartsAt(script[1..], next, i - 1) {}
    }
  }

  function Texts(lines: seq<Line>): seq<string> {
    if lines == [] then [] else (if lines[0].Text? then [lines[0].text] else []) + Texts(lines[1..])
  }

  predicate Smooth(lines: seq<Line>) {
    forall i :: 0 <= i < |lines| ==> lines[i].Blank? || lines[i].Text?
  }

  /** The slot of a fallback key whose provider is not configured. */
  predicate LeaksSlot(a: Attempt, fallback: bool) {
    a.permit && a.pick.NoKey? && fallback && a.cross.Crossed? && !a.cross.known
  }

  /** The stream broke off, or recording it failed, and the consumer goes away at the very report of that. */
  predicate LeaksPermit(u: Upstream, closeAt: Option<nat>)
    requires u.Stream?
  {
    Smooth(u.lines) && (!u.end.Eof? || !u.recorded) && closeAt == Some(2 * |Texts(u.lines)|)
  }

  predicate CallLeaks(script: seq<Attempt>, fallback: bool, closeAt: Option<nat>) {
    script != [] &&
    (LeaksSlot(script[0], fallback)
     || if Starts(script[0], fallback) then LeaksPermit(script[0].upstream, closeAt)
     else CallLeaks(script[1..], StillFallback(script[0].permit, script[0].pick, fallback), closeAt))
  }

  lemma CallLeaksStep(script: seq<Attempt>, i: nat, fallback: bool, closeAt: Option<nat>)
    requires i < |script|
    ensures CallLeaks(script[i..], fallback, closeAt)
       <==> LeaksSlot(script[i], fallback)
            || if Starts(script[i], fallback) then LeaksPermit(script[i].upstream, closeAt)
            else CallLeaks(script[i + 1..], StillFallback(script[i].permit, script[i].pick, fallback), closeAt)
  {
    assert script[i..][0] == script[i] && script[i..][1..] == script[i + 1..];
  }

  // ----- the output -----

  function DataOf(out: seq<Item>): seq<string> {
    if out == [] then []
    else DataOf(out[..|out| - 1]) + if out[|out| - 1].Data? then [out[|out| - 1].text] else []
  }

  predicate AllFrom(out: seq<Item>, i: nat) {
    forall j :: 0 <= j < |out| ==> out[j].attempt == i
  }

  lemma DataExtend(out: seq<Item>, it: Item)
    ensures DataOf(out + [it]) == DataOf(out) + if it.Data? then [it.text] else []
  {
    assert (out + [it])[..|out|] == out;
  }

  /** The first line that is an error or late; the number of lines if there is none. */
  function FirstBreak(lines: seq<Line>): (j: nat)
    ensures j <= |lines| && Smooth(lines[..j])
    ensures j < |lines| ==> lines[j].ErrorChunk? || lines[j].Late?
    ensures j == |lines| <==> Smooth(lines)
  {
    if lines == [] then 0
    else if lines[0].ErrorChunk? || lines[0].Late? then 0
    else
      var j := FirstBreak(lines[1..]);
      assert forall i :: 0 < i < |lines| ==> lines[i] == lines[1..][i - 1];
      j + 1
  }

  /** What the consumer gets of these lines: each text, and a newline after it. */
  function Passed(i: nat, lines: seq<Line>): seq<Item> {
    if lines == [] then []
    else Passed(i, lines[..|lines| - 1])
         + if lines[|lines| - 1].Text? then [Data(i, lines[|lines| - 1].text), Newline(i)] else []
  }

  /** The lines up to the first break, and a report of it. */
  function LinesOutput(i: nat, lines: seq<Line>): seq<Item> {
    var j := FirstBreak(lines);
    Passed(i, lines[..j]) + if j < |lines| then [Report(i)] else []
  }

  /** All that a consumer who stays gets of an upstream: the lines up to the first break, and one report if there is
      a break in the lines or after them, or the usage is not recorded. */
  function StreamOutput(i: nat, u: Upstream): seq<Item>
    requires u.Stream?
  {
    var j := FirstBreak(u.lines);
    Passed(i, u.lines[..j]) + if j < |u.lines| || !u.end.Eof? || !u.recorded then [Report(i)] else []
  }

  /** The consumer leaves before it has got everything. */
  predicate Leaves(full: seq<Item>, closeAt: Option<nat>) {
    closeAt.Some? && closeAt.value < |full|
  }

  /** What it gets then. */
  function UpTo(full: seq<Item>, closeAt: Option<nat>): seq<Item> {
    if Leaves(full, closeAt) then full[..closeAt.value + 1] else full
  }

  lemma TextsLast(lines: seq<Line>)
    requires lines != []
    ensures var last := lines[|lines| - 1];
            Texts(lines) == Texts(lines[..|lines| - 1]) + if last.Text? then [last.text] else []
  {
    TextsConcat(lines[..|lines| - 1], [lines[|lines| - 1]]);
    assert lines[..|lines| - 1] + [lines[|lines| - 1]] == lines;
    assert [lines[|lines| - 1]][1..] == [];
  }

  lemma TextsConcat(a: seq<Line>, b: seq<Line>)
    ensures Texts(a + b) == Texts(a) + Texts(b)
  {
    if a == [] {
      assert a + b == b;
    } else {
      assert (a + b)[1..] == a[1..] + b;
      TextsConcat(a[1..], b);
    }
  }

  lemma TextAdded(p: seq<Item>, i: nat, text: string)
    ensures DataOf(p + [Data(i, text), Newline(i)]) == DataOf(p) + [text]
  {
    DataExtend(p, Data(i, text));
    DataExtend(p + [Data(i, text)], Newline(i));
    assert p + [Data(i, text), Newline(i)] == p + [Data(i, text)] + [Newline(i)];
  }

  lemma {:induction false} PassedProps(i: nat, lines: seq<Line>)
    ensures DataOf(Passed(i, lines)) == Texts(lines) && AllFrom(Passed(i, lines), i)
    ensures |Passed(i, lines)| == 2 * |Texts(lines)|
  {
    if lines != [] {
      var init, last := lines[..|lines| - 1], lines[|lines| - 1];
      PassedProps(i, init);
      TextsLast(lines);
      var p := Passed(i, init);
      if last.Text? {
        TextAdded(p, i, last.text);
        assert Passed(i, lines) == p + [Data(i, last.text), Newline(i)];
      } else {
        assert Passed(i, lines) == p + [] == p;
      }
    }
  }

  lemma {:induction false} DataPrefix(out: seq<Item>, n: nat)
    requires n <= |out|
    ensures DataOf(out[..n]) <= DataOf(out)
  {
    if n < |out| {
      var init := out[..|out| - 1];
      assert init[..n] == out[..n];
      DataPrefix(init, n);
    } else {
      assert out[..n] == out;
    }
  }

  /** All of it is of that one upstream, and its data are the texts before the first break, in order: complete for a
      consumer who stays, a prefix for one who leaves. */
  lemma OutputData(i: nat, u: Upstream, closeAt: Option<nat>)
    requires u.Stream?
    ensures var full, out, j := StreamOutput(i, u), UpTo(StreamOutput(i, u), closeAt), FirstBreak(u.lines);
            && AllFrom(out, i) && DataOf(out) <= Texts(u.lines[..j]) <= Texts(u.lines)
            && (!Leaves(full, closeAt) ==> DataOf(out) == Texts(u.lines[..j]))
            && (Smooth(u.lines) ==> Texts(u.lines[..j]) == Texts(u.lines))
  {
    var j := FirstBreak(u.lines);
    FullData(i, u);
    PartData(i, StreamOutput(i, u), closeAt);
    TextsPrefix(u.lines, j);
    if Smooth(u.lines) { assert u.lines[..j] == u.lines; }
  }

  lemma PartData(i: nat, full: seq<Item>, closeAt: Option<nat>)
    requires AllFrom(full, i)
    ensures AllFrom(UpTo(full, closeAt), i) && DataOf(UpTo(full, closeAt)) <= DataOf(full)
    ensures !Leaves(full, closeAt) ==> UpTo(full, closeAt) == full
  {
    if Leaves(full, closeAt) { DataPrefix(full, closeAt.value + 1); }
  }

  lemma FullData(i: nat, u: Upstream)
    requires u.Stream?
    ensures var full := StreamOutput(i, u);
            AllFrom(full, i) && DataOf(full) == Texts(u.lines[..FirstBreak(u.lines)])
  {
    var j := FirstBreak(u.lines);
    PassedProps(i, u.lines[..j]);
    MaybeReport(Passed(i, u.lines[..j]), i, j < |u.lines| || !u.end.Eof? || !u.recorded);
  }

  lemma MaybeReport(p: seq<Item>, i: nat, broken: bool)
    requires AllFrom(p, i)
    ensures var full := p + if broken then [Report(i)] else [];
            AllFrom(full, i) && DataOf(full) == DataOf(p)
  {
    if broken { DataExtend(p, Report(i)); } else { assert p + [] == p; }
  }

  lemma TextsPrefix(lines: seq<Line>, j: nat)
    requires j <= |lines|
    ensures Texts(lines[..j]) <= Texts(lines)
  {
    TextsConcat(lines[..j], lines[j..]);
    assert lines[..j] + lines[j..] == lines;
  }

  lemma UpToPart(part: seq<Item>, full: seq<Item>, closeAt: Option<nat>)
    requires part <= full && Leaves(part, closeAt)
    ensures Leaves(full, closeAt) && UpTo(full, closeAt) == part[..closeAt.value + 1]
  {
    assert full[..|part|] == part;
  }

  /** What the consumer gets of one line. */
  function LineOutput(i: nat, line: Line): seq<Item> {
    match line
    case Blank => []
    case Text(text) => [Data(i, text), Newline(i)]
    case ErrorChunk => [Report(i)]
    case Late => [Report(i)]
  }

  /** One line more, and what is still to come. */
  lemma PassedStep(i: nat, lines: seq<Line>, n: nat)
    requires n < |lines| && n <= FirstBreak(lines)
    ensures n < FirstBreak(lines) <==> lines[n].Blank? || lines[n].Text?
    ensures n < FirstBreak(lines) ==> Passed(i, lines[..n + 1]) == Passed(i, lines[..n]) + LineOutput(i, lines[n])
    ensures Passed(i, lines[..n]) + LineOutput(i, lines[n]) <= LinesOutput(i, lines)
    ensures n == FirstBreak(lines) ==> LinesOutput(i, lines) == Passed(i, lines[..n]) + LineOutput(i, lines[n])
  {
    var j := FirstBreak(lines);
    assert lines[..n + 1][..n] == lines[..n];
    if n < j {
      assert lines[..j][n] == lines[n];
      PassedPrefix(i, lines[..j], n + 1);
      assert lines[..j][..n + 1] == lines[..n + 1];
    }
  }

  lemma {:induction false} PassedPrefix(i: nat, lines: seq<Line>, n: nat)
    requires n <= |lines|
    ensures Passed(i, lines[..n]) <= Passed(i, lines)
  {
    if n < |lines| {
      var init := lines[..|lines| - 1];
      assert init[..n] == lines[..n];
      PassedPrefix(i, init, n);
    } else {
      assert lines[..n] == lines;
    }
  }

  /** The output of a stream is that of its lines, and one report more if only its end is a break. */
  lemma StreamIsLines(i: nat, u: Upstream)
    requires u.Stream?
    ensures !Smooth(u.lines) || (u.end.Eof? && u.recorded) ==> StreamOutput(i, u) == LinesOutput(i, u.lines)
    ensures Smooth(u.lines) && !(u.end.Eof? && u.recorded) ==>
              StreamOutput(i, u) == LinesOutput(i, u.lines) + [Report(i)]
    ensures Smooth(u.lines) ==> |LinesOutput(i, u.lines)| == 2 * |Texts(u.lines)|
  {
    if Smooth(u.lines) {
      assert u.lines[..|u.lines|] == u.lines;
      PassedProps(i, u.lines);
    }
  }

  datatype Exit = NextAttempt | Finished | HttpError | OtherError | GeneratorExit

  class StreamCall {
    const closeAt: Option<nat>
    var trace: seq<Act>
    var out: seq<Item>
    var fallback: bool
    var semHeld: bool
    var started: bool
    var key: Option<KeyId>

    constructor (fallbackEnabled: bool, closeAt: Option<nat>)
      ensures this.closeAt == closeAt && fallback == fallbackEnabled
      ensures trace == [] && out == [] && !semHeld && !started && key.None?
    {
      this.closeAt := closeAt;
      fallback := fallbackEnabled;
      trace, out, semHeld, started, key := [], [], false, false, None;
    }

    /** Slots held now beyond those in `base`: one of `key`, if there is one. */
    ghost predicate HoldsOver(base: seq<Act>, held: Option<KeyId>)
      reads this
    {
      && Lawful(base) && Lawful(trace)
      && Permits(base) == 0 && Permits(trace) == (if semHeld then 1 else 0)
      && (forall k :: SlotsOf(trace, k) == SlotsOf(base, k) + if held == Some(k) then 1 else 0)
      && AllSlots(trace) == AllSlots(base) + (if held.Some? then 1 else 0)
      && (Orderly(base) && AllSlots(base) == 0 && (held.Some? ==> semHeld) ==> Orderly(trace))
    }

    method TakeSem(ghost base: seq<Act>)
      requires HoldsOver(base, None) && !semHeld
      modifies `trace, `semHeld
      ensures HoldsOver(base, None) && semHeld
    {
      Extend(trace, TakePermit);
      trace := trace + [TakePermit];
      semHeld := true;
    }

    method CleanUp(ghost base: seq<Act>, ghost held: Option<KeyId>)
      requires HoldsOver(base, held)
      modifies `trace, `semHeld
      ensures HoldsOver(base, held) && !semHeld
    {
      if semHeld {
        Extend(trace, GivePermit);
        trace := trace + [GivePermit];
        semHeld := false;
      }
    }

    method Acquire(k: KeyId, ghost base: seq<Act>)
      requires HoldsOver(base, None) && semHeld
      modifies `trace
      ensures HoldsOver(base, Some(k))
    {
      Extend(trace, TakeSlot(k));
      trace := trace + [TakeSlot(k)];
    }

    /** Every mark gives the slot back (`Marks.EndCounts`); so does the balancer's own release. */
    method Release(k: KeyId, ghost base: seq<Act>)
      requires HoldsOver(base, Some(k)) && SlotsOf(base, k) >= 0 && semHeld
      modifies `trace
      ensures HoldsOver(base, None)
    {
      Extend(trace, GiveSlot(k));
      trace := trace + [GiveSlot(k)];
    }

    method Yield(it: Item) returns (closed: bool)
      modifies `out
      ensures out == old(out) + [it] && closed == (closeAt == Some(|old(out)|))
    {
      closed := closeAt == Some(|out|);
      out := out + [it];
    }

    /** The text and a newline, unless the consumer goes at one of them. */
    method PassText(i: nat, text: string) returns (closed: bool)
      modifies `out
      ensures closed <==> closeAt.Some? && |old(out)| <= closeAt.value < |old(out)| + 2
      ensures !closed ==> out == old(out) + [Data(i, text), Newline(i)]
      ensures closed ==> out == (old(out) + [Data(i, text), Newline(i)])[..closeAt.value + 1]
    {
      closed := Yield(Data(i, text));
      if closed { return; }
      closed := Yield(Newline(i));
    }

    /** What one line makes the consumer get, unless it goes in the middle of it. */
    method PassLine(i: nat, line: Line) returns (broken: bool, closed: bool)
      modifies `out
      ensures broken <==> line.ErrorChunk? || line.Late?
      ensures closed <==> closeAt.Some? && |old(out)| <= closeAt.value < |old(out)| + |LineOutput(i, line)|
      ensures !closed ==> out == old(out) + LineOutput(i, line)
      ensures closed ==> out == (old(out) + LineOutput(i, line))[..closeAt.value + 1]
    {
      broken, closed := line.Late? || line.ErrorChunk?, false;
      if broken {
        closed := Yield(Report(i));
      } else if line.Text? {
        closed := PassText(i, line.text);
      } else {
        assert out + [] == out;
      }
    }

    /** Passes the upstream's lines on, until they end, one is an error or late, or the consumer goes. */
    method PassLines(i: nat, lines: seq<Line>) returns (broken: bool, closed: bool)
      requires out == []
      modifies `out
      ensures out == UpTo(LinesOutput(i, lines), closeAt)
      ensures closed <==> Leaves(LinesOutput(i, lines), closeAt)
      ensures !closed ==> (broken <==> !Smooth(lines))
    {
      broken, closed := false, false;
      var n := 0;
      while n < |lines|
        invariant n <= FirstBreak(lines)
        invariant out == Passed(i, lines[..n]) && !broken && !closed
        invariant closeAt.Some? ==> |out| <= closeAt.value
      {
        PassedStep(i, lines, n);
        ghost var sofar := out + LineOutput(i, lines[n]);
        broken, closed := PassLine(i, lines[n]);
        if closed { UpToPart(sofar, LinesOutput(i, lines), closeAt); }
        if broken || closed { return; }
        n := n + 1;
      }
      assert FirstBreak(lines) == |lines| && LinesOutput(i, lines) == Passed(i, lines[..n]) + [];
    }

    /** Picking a key, with the fallback to another provider. */
    method ObtainKey(a: Attempt, ghost base: seq<Act>) returns (got: bool, ghost owed: Option<KeyId>)
      requires a.permit && HoldsOver(base, None) && semHeld && key.None?
      modifies `trace, `semHeld, `fallback, `key
      ensures fallback == StillFallback(a.permit, a.pick, old(fallback)) && HoldsOver(base, owed)
      ensures got <==> HasKey(a, old(fallback))
      ensures got ==> key.Some? && owed == key && semHeld && !LeaksSlot(a, old(fallback))
      ensures !got ==> key.None? && owed == if LeaksSlot(a, old(fallback)) then Some(a.cross.key) else None
    {
      owed := None;
      got := false;
      match a.pick {
        case Picked(k) =>
          Acquire(k, base);
          key, owed, got := Some(k), Some(k), true;
        case PickRaises => CleanUp(base, None);
        case NoKey =>
          if !fallback {
            CleanUp(base, None);
            return;
          }
          fallback := false;
          match a.cross {
            case NoCross => CleanUp(base, None);
            case CrossRaises => CleanUp(base, None);
            case Crossed(k, known) =>
              Acquire(k, base);
              owed := Some(k);
              if known { key, got := Some(k), true; }
          }
      }
    }

    method GiveUp(k: KeyId, ghost base: seq<Act>)
      requires HoldsOver(base, Some(k)) && SlotsOf(base, k) >= 0 && semHeld
      modifies `trace, `semHeld
      ensures HoldsOver(base, None) && !semHeld
    {
      Release(k, base);
      CleanUp(base, None);
    }

    /** The attempt once it has a key: budget, row, rate limit, decryption, upstream. */
    method UseKey(i: nat, a: Attempt, k: KeyId, ghost base: seq<Act>) returns (exit: Exit)
      requires HoldsOver(base, Some(k)) && semHeld && out == [] && !started && SlotsOf(base, k) >= 0
      requires HasKey(a, true)
      modifies `trace, `semHeld, `started, `out
      ensures exit.NextAttempt? || exit.Finished? ==> HoldsOver(base, None) && !semHeld
      ensures !exit.NextAttempt? && !exit.Finished? ==> HoldsOver(base, Some(k)) && semHeld
      ensures started <==> Starts(a, true)
      ensures !started ==> out == [] && !exit.Finished? && !exit.GeneratorExit?
      ensures started ==> !exit.NextAttempt? && FromStream(i, a.upstream, exit)
    {
      if a.overBudget {
        if a.auditRaises { return OtherError; }
        GiveUp(k, base);
        return NextAttempt;
      }
      if a.rowRaises { return OtherError; }
      if !a.rowFound || a.limited {
        GiveUp(k, base);
        return NextAttempt;
      }
      if !a.decrypts { return OtherError; }
      match a.upstream {
        case ConnectFails => return HttpError;
        case OpenRaises => return OtherError;
        case Status429 =>
          GiveUp(k, base);
          return NextAttempt;
        case StatusBad =>
          GiveUp(k, base);
          return NextAttempt;
        case Stream(lines, end, recorded) =>
          started := true;
          exit := Consume(i, a.upstream);
          if exit.Finished? { GiveUp(k, base); }
      }
    }

    /** What an attempt whose upstream has started has put out when its stream is over. */
    ghost predicate FromStream(i: nat, u: Upstream, exit: Exit)
      requires u.Stream?
      reads this
    {
      var full := StreamOutput(i, u);
      && (exit.GeneratorExit? ==> Leaves(full, closeAt) && out == UpTo(full, closeAt) && !LeaksPermit(u, closeAt))
      && (exit.Finished? ==> !Leaves(full, closeAt) && out == full && !LeaksPermit(u, closeAt))
      && (exit.HttpError? || exit.OtherError? ==>
            full == out + [Report(i)] && !Leaves(out, closeAt)
            && (LeaksPermit(u, closeAt) <==> closeAt == Some(|out|)))
    }

    method Consume(i: nat, u: Upstream) returns (exit: Exit)
      requires u.Stream? && out == []
      modifies `out
      ensures FromStream(i, u, exit) && !exit.NextAttempt?
    {
      StreamIsLines(i, u);
      var broken, closed := PassLines(i, u.lines);
      if closed { return GeneratorExit; }
      if !broken && u.end.HttpFailure? { return HttpError; }
      if !broken && (u.end.OtherFailure? || !u.recorded) { return OtherError; }
      exit := Finished;
    }

    /** One attempt: the body of the `try` block and its handlers. */
    method RunAttempt(i: nat, a: Attempt) returns (ending: Option<Ending>)
      requires HoldsOver(trace, None) && !semHeld && out == []
      requires forall k :: SlotsOf(trace, k) >= 0
      modifies this
      ensures fallback == StillFallback(a.permit, a.pick, old(fallback))
      ensures Lawful(trace)
      ensures forall k :: SlotsOf(trace, k) == SlotsOf(old(trace), k)
                                               + if LeaksSlot(a, old(fallback)) && a.cross.key == k then 1 else 0
      ensures Permits(trace) == if Starts(a, old(fallback)) && LeaksPermit(a.upstream, closeAt) then 1 else 0
      ensures AllSlots(trace) == AllSlots(old(trace)) + if LeaksSlot(a, old(fallback)) then 1 else 0
      ensures Orderly(old(trace)) && AllSlots(old(trace)) == 0 && !LeaksSlot(a, old(fallback)) ==> Orderly(trace)
      ensures ending.Some? <==> Starts(a, old(fallback))
      ensures ending.Some? ==> !ending.value.Raised?
      ensures ending.None? ==> out == [] && !semHeld
      ensures ending.Some? ==> out == UpTo(StreamOutput(i, a.upstream), closeAt)
      ensures ending == Some(Closed) <==> ending.Some? && Leaves(StreamOutput(i, a.upstream), closeAt)
    {
      semHeld, started, key := false, false, None;
      if !a.permit { return None; }
      ghost var base := trace;
      TakeSem(base);
      var got; ghost var owed;
      got, owed := ObtainKey(a, base);
      if !got {
        CleanUp(base, owed);
        return None;
      }
      var exit := UseKey(i, a, key.value, base);
      ending := Handle(i, a, key.value, exit, base);
    }

    method Handle(i: nat, a: Attempt, k: KeyId, exit: Exit, ghost base: seq<Act>) returns (ending: Option<Ending>)
      requires exit.NextAttempt? || exit.Finished? ==> HoldsOver(base, None) && !semHeld
      requires !exit.NextAttempt? && !exit.Finished? ==> HoldsOver(base, Some(k)) && semHeld && SlotsOf(base, k) >= 0
      requires !started ==> out == [] && !exit.Finished? && !exit.GeneratorExit?
      requires started ==> a.upstream.Stream? && !exit.NextAttempt? && FromStream(i, a.upstream, exit)
      modifies `trace, `semHeld, `out
      ensures ending.Some? <==> started
      ensures ending.Some? ==> !ending.value.Raised?
      ensures ending.None? ==> HoldsOver(base, None) && !semHeld && out == []
      ensures Lawful(trace) && (Orderly(base) && AllSlots(base) == 0 ==> Orderly(trace))
      ensures (forall j :: SlotsOf(trace, j) == SlotsOf(base, j)) && AllSlots(trace) == AllSlots(base)
      ensures Permits(trace) == if started && LeaksPermit(a.upstream, closeAt) then 1 else 0
      ensures ending.Some? ==> out == UpTo(StreamOutput(i, a.upstream), closeAt)
      ensures ending == Some(Closed) <==> ending.Some? && Leaves(StreamOutput(i, a.upstream), closeAt)
    {
      match exit {
        case NextAttempt => ending := None;
        case Finished => ending := Some(Returned);
        case GeneratorExit =>
          GiveUp(k, base);
          ending := Some(Closed);
        case HttpError =>
          Release(k, base);
          ending := ReportBreak(i, base);
        case OtherError =>
          Release(k, base);
          ending := ReportBreak(i, base);
      }
    }

    /** After a failure: the end of the call if the upstream had started, which the consumer is told; else
        the next attempt.  A consumer that goes at the report leaves the permit behind. */
    method ReportBreak(i: nat, ghost base: seq<Act>) returns (ending: Option<Ending>)
      requires HoldsOver(base, None)
      modifies `trace, `semHeld, `out
      ensures Lawful(trace) && (Orderly(base) && AllSlots(base) == 0 ==> Orderly(trace))
      ensures forall k :: SlotsOf(trace, k) == SlotsOf(base, k)
      ensures AllSlots(trace) == AllSlots(base)
      ensures ending.None? <==> !started
      ensures ending.None? ==> out == old(out) && !semHeld && HoldsOver(base, None)
      ensures ending.Some? ==> out == old(out) + [Report(i)]
      ensures ending.Some? ==> ending == Some(if closeAt == Some(|old(out)|) then Closed else Returned)
      ensures started && closeAt == Some(|old(out)|) ==> Permits(trace) == old(Permits(trace))
      ensures !(started && closeAt == Some(|old(out)|)) ==> Permits(trace) == 0
    {
      if started {
        var closed := Yield(Report(i));
        if closed { return Some(Closed); }
        CleanUp(base, None);
        return Some(Returned);
      }
      CleanUp(base, None);
      ending := None;
    }

    /** Between two attempts: nothing is held but what has leaked, of which one slot is of `stuck`. */
    ghost predicate Between(leaked: bool, stuck: KeyId)
      reads this
    {
      && out == [] && !semHeld && Lawful(trace) && Permits(trace) == 0
      && (forall k :: SlotsOf(trace, k) >= 0)
      && (leaked ==> SlotsOf(trace, stuck) > 0)
      && (!leaked ==> (forall k :: SlotsOf(trace, k) == 0) && AllSlots(trace) == 0 && Orderly(trace))
    }

    /** One attempt, from between two attempts to the next, or to the end of the call. */
    method MakeAttempt(i: nat, a: Attempt, ghost leaked: bool, ghost stuck: KeyId)
      returns (ending: Option<Ending>, ghost lost: bool, ghost missing: KeyId)
      requires Between(leaked, stuck)
      modifies this
      ensures fallback == StillFallback(a.permit, a.pick, old(fallback))
      ensures lost <==> leaked || LeaksSlot(a, old(fallback))
      ensures ending.Some? <==> Starts(a, old(fallback))
      ensures ending.None? ==> Between(lost, missing)
      ensures Lawful(trace)
      ensures ending.Some? ==>
                && !ending.value.Raised?
                && (Balanced(trace) <==> !lost && !LeaksPermit(a.upstream, closeAt))
                && (!lost && !LeaksPermit(a.upstream, closeAt) ==> Orderly(trace))
                && out == UpTo(StreamOutput(i, a.upstream), closeAt)
                && (ending == Some(Closed) <==> Leaves(StreamOutput(i, a.upstream), closeAt))
    {
      var before := fallback;
      ending := RunAttempt(i, a);
      lost := leaked || LeaksSlot(a, before);
      missing := if LeaksSlot(a, before) then a.cross.key else stuck;
      assert lost ==> SlotsOf(trace, missing) > 0;
    }

    /** The whole call.  Everything taken is given back exactly once if and only if no fallback key of an
        unconfigured provider was picked and the consumer did not leave at the report of a broken stream.
        The consumer gets exactly the output of the one attempt whose upstream started, up to the point where it
        leaves: the texts before the first break, in order, and one report if there was a break. */
    method ChatStream(script: seq<Attempt>) returns (ending: Ending)
      requires trace == [] && out == []
      modifies this
      ensures Lawful(trace)
      ensures Balanced(trace) <==> !CallLeaks(script, old(fallback), closeAt)
      ensures !CallLeaks(script, old(fallback), closeAt) ==> Orderly(trace)
      ensures ending.Raised? <==> FirstStart(script, old(fallback)).None?
      ensures ending.Raised? ==> out == []
      ensures !ending.Raised? ==>
                var a := FirstStart(script, old(fallback)).value;
                var lines, full := script[a].upstream.lines, StreamOutput(a, script[a].upstream);
                && out == UpTo(full, closeAt) && (ending.Closed? <==> Leaves(full, closeAt))
                && AllFrom(out, a) && DataOf(out) <= Texts(lines[..FirstBreak(lines)]) <= Texts(lines)
                && (ending.Returned? ==> DataOf(out) == Texts(lines[..FirstBreak(lines)]))
                && (ending.Returned? && Smooth(lines) ==> DataOf(out) == Texts(lines))
    {
      ghost var fallback0 := fallback;
      ending := TryAll(script);
      if !ending.Raised? {
        OutputData(FirstStart(script, fallback0).value, script[FirstStart(script, fallback0).value].upstream, closeAt);
      }
    }

    /** The loop over the attempts. */
    method TryAll(script: seq<Attempt>) returns (ending: Ending)
      requires trace == [] && out == []
      modifies this
      ensures Lawful(trace)
      ensures Balanced(trace) <==> !CallLeaks(script, old(fallback), closeAt)
      ensures !CallLeaks(script, old(fallback), closeAt) ==> Orderly(trace)
      ensures ending.Raised? <==> FirstStart(script, old(fallback)).None?
      ensures ending.Raised? ==> out == []
      ensures !ending.Raised? ==>
                var a := FirstStart(script, old(fallback)).value;
                var full := StreamOutput(a, script[a].upstream);
                out == UpTo(full, closeAt) && (ending.Closed? <==> Leaves(full, closeAt))
    {
      semHeld := false;
      ghost var fallback0, leaked, stuck := fallback, false, "";
      for i := 0 to |script|
        invariant Between(leaked, stuck)
        invariant CallLeaks(script, fallback0, closeAt) <==> leaked || CallLeaks(script[i..], fallback, closeAt)
        invariant FirstStart(script, fallback0) ==
                  match FirstStart(script[i..], fallback) case None => None case Some(j) => Some(i + j)
      {
        FirstStartStep(script, i, fallback);
        CallLeaksStep(script, i, fallback, closeAt);
        var e;
        e, leaked, stuck := MakeAttempt(i, script[i], leaked, stuck);
        if e.Some? { return e.value; }
      }
      ending := Raised;
    }
  }
}
