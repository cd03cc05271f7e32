/** Usage accounting of keyhub/llm/tracker.py and the budget check of keyhub/llm/proxy.py.  Money is in
    micro-dollars, the precision the source rounds to. */
module Tracker {
  type KeyId = string

  datatype Log = Log(key: KeyId, prompt: int, completion: int, cost: int, success: bool)

  datatype Totals = Totals(requests: int, prompt: int, completion: int, cost: int)

  datatype KeyRow = KeyRow(id: KeyId, provider: string, totals: Totals)

  const NOTHING := Totals(0, 0, 0, 0)

  function Add(t: Totals, l: Log): Totals {
    Totals(t.requests + 1, t.prompt + l.prompt, t.completion + l.completion, t.cost + l.cost)
  }

  function Plus(a: Totals, b: Totals): Totals {
    Totals(a.requests + b.requests, a.prompt + b.prompt, a.completion + b.completion, a.cost + b.cost)
  }

  /** What the log says about one key. */
  function LoggedFor(logs: seq<Log>, k: KeyId): Totals {
    if logs == [] then NOTHING else
    var t := LoggedFor(logs[..|logs| - 1], k);
    if logs[|logs| - 1].key == k then Add(t, logs[|logs| - 1]) else t
  }

  predicate Known(rows: seq<KeyRow>, k: KeyId) {
    exists i :: 0 <= i < |rows| && rows[i].id == k
  }

  predicate UniqueIds(rows: seq<KeyRow>) {
    forall i, j :: 0 <= i < j < |rows| ==> rows[i].id != rows[j].id
  }

  /** The running totals of every key are the sums over its usage log. */
  predicate Agrees(rows: seq<KeyRow>, logs: seq<Log>) {
    && UniqueIds(rows)
    && (forall i :: 0 <= i < |rows| ==> rows[i].totals == LoggedFor(logs, rows[i].id))
    && (forall i :: 0 <= i < |logs| ==> Known(rows, logs[i].key))
  }

  /** Tokens, cost and calls a provider's log entries add up to, joined with the key table. */
  function ProviderLogged(rows: seq<KeyRow>, logs: seq<Log>, provider: string): Totals {
    if logs == [] then NOTHING else
    var t := ProviderLogged(rows, logs[..|logs| - 1], provider);
    if Serves(rows, logs[|logs| - 1].key, provider) then Add(t, logs[|logs| - 1]) else t
  }

  predicate Serves(rows: seq<KeyRow>, k: KeyId, provider: string) {
    exists i :: 0 <= i < |rows| && rows[i].id == k && rows[i].provider == provider
  }

  /** The running totals of a provider's keys. */
  function ProviderTotals(rows: seq<KeyRow>, provider: string): Totals {
    if rows == [] then NOTHING else
    var t := ProviderTotals(rows[..|rows| - 1], provider);
    if rows[|rows| - 1].provider == provider then Plus(t, rows[|rows| - 1].totals) else t
  }

  // ----- recording -----

  datatype Ledger = Ledger(rows: seq<KeyRow>, logs: seq<Log>)

  predicate Sound(g: Ledger) {
    Agrees(g.rows, g.logs)
  }

  function Bump(r: KeyRow, l: Log): KeyRow {
    if r.id == l.key then r.(totals := Add(r.totals, l)) else r
  }

  function BumpAll(rows: seq<KeyRow>, l: Log): (out: seq<KeyRow>)
    ensures |out| == |rows| && forall i :: 0 <= i < |rows| ==> out[i] == Bump(rows[i], l)
  {
    seq(|rows|, i requires 0 <= i < |rows| => Bump(rows[i], l))
  }

  /** One transaction: the log entry and the increments, or, for a key that is not there, neither. */
  function RecordIn(g: Ledger, l: Log): (Ledger, bool) {
    if Known(g.rows, l.key) then (Ledger(BumpAll(g.rows, l), g.logs + [l]), true) else (g, false)
  }

  /** Recording keeps the running totals equal to the sums over the log. */
  lemma RecordKeepsSound(g: Ledger, l: Log)
    requires Sound(g)
    ensures Sound(RecordIn(g, l).0)
    ensures forall k :: Known(g.rows, k) <==> Known(RecordIn(g, l).0.rows, k)
  {
    var g' := RecordIn(g, l).0;
    if Known(g.rows, l.key) {
      assert g'.logs[..|g.logs|] == g.logs;
      forall k ensures Known(g.rows, k) <==> Known(g'.rows, k) { SameIds(g.rows, g'.rows, k); }
    }
  }

  lemma SameIds(a: seq<KeyRow>, b: seq<KeyRow>, k: KeyId)
    requires |a| == |b| && forall i :: 0 <= i < |a| ==> a[i].id == b[i].id
    ensures Known(a, k) <==> Known(b, k)
  {
    if Known(a, k) {
      var i :| 0 <= i < |a| && a[i].id == k;
      assert b[i].id == k;
    }
    if Known(b, k) {
      var i :| 0 <= i < |b| && b[i].id == k;
      assert a[i].id == k;
    }
  }

  /** Where the row of a key is. */
  ghost function IndexOf(rows: seq<KeyRow>, k: KeyId): (i: nat)
    requires Known(rows, k)
    ensures i < |rows| && rows[i].id == k
  {
    var i :| 0 <= i < |rows| && rows[i].id == k;
    i
  }

  /** The provider has used something. */
  predicate Used(rows: seq<KeyRow>, logs: seq<Log>, provider: string) {
    exists i :: 0 <= i < |logs| && Serves(rows, logs[i].key, provider)
  }

  // ----- the sums, field by field -----

  function Entries(logs: seq<Log>, k: KeyId): nat {
    if logs == [] then 0 else Entries(logs[..|logs| - 1], k) + if logs[|logs| - 1].key == k then 1 else 0
  }

  function PromptSum(logs: seq<Log>, k: KeyId): int {
    if logs == [] then 0
    else PromptSum(logs[..|logs| - 1], k) + if logs[|logs| - 1].key == k then logs[|logs| - 1].prompt else 0
  }

  function CompletionSum(logs: seq<Log>, k: KeyId): int {
    if logs == [] then 0
    else CompletionSum(logs[..|logs| - 1], k) + if logs[|logs| - 1].key == k then logs[|logs| - 1].completion else 0
  }

  function CostSum(logs: seq<Log>, k: KeyId): int {
    if logs == [] then 0
    else CostSum(logs[..|logs| - 1], k) + if logs[|logs| - 1].key == k then logs[|logs| - 1].cost else 0
  }

  /** These are the sums of each field over the entries of the key. */
  predicate SumsOf(t: Totals, logs: seq<Log>, k: KeyId) {
    && t.requests == Entries(logs, k) && t.prompt == PromptSum(logs, k)
    && t.completion == CompletionSum(logs, k) && t.cost == CostSum(logs, k)
  }

  lemma {:induction false} LoggedSums(logs: seq<Log>, k: KeyId)
    ensures SumsOf(LoggedFor(logs, k), logs, k)
  {
    if logs != [] { LoggedSums(logs[..|logs| - 1], k); }
  }

  /** In a sound ledger the running totals of a key are the number of its entries and the sums of their prompt tokens,
      completion tokens and cost. */
  lemma TotalsAreSums(g: Ledger, i: nat)
    requires Sound(g) && i < |g.rows|
    ensures SumsOf(g.rows[i].totals, g.logs, g.rows[i].id)
  {
    LoggedSums(g.logs, g.rows[i].id);
  }

  /** What one recording adds to the row of its key, and to no other. */
  lemma RecordAdds(g: Ledger, l: Log, i: nat)
    requires i < |g.rows| && Known(g.rows, l.key)
    ensures var r, r' := g.rows[i], RecordIn(g, l).0.rows[i];
            && r'.id == r.id && r'.provider == r.provider
            && (r.id != l.key ==> r' == r)
            && (r.id == l.key ==>
                  && r'.totals.requests == r.totals.requests + 1 && r'.totals.prompt == r.totals.prompt + l.prompt
                  && r'.totals.completion == r.totals.completion + l.completion
                  && r'.totals.cost == r.totals.cost + l.cost)
  {
  }

  /** The sums over a provider's keys, field by field. */
  function ProviderEntries(rows: seq<KeyRow>, logs: seq<Log>, p: string): nat {
    if logs == [] then 0
    else ProviderEntries(rows, logs[..|logs| - 1], p) + if Serves(rows, logs[|logs| - 1].key, p) then 1 else 0
  }

  function ProviderTokens(rows: seq<KeyRow>, logs: seq<Log>, p: string): int {
    if logs == [] then 0
    else
      var l := logs[|logs| - 1];
      ProviderTokens(rows, logs[..|logs| - 1], p) + if Serves(rows, l.key, p) then l.prompt + l.completion else 0
  }

  function ProviderPrompt(rows: seq<KeyRow>, logs: seq<Log>, p: string): int {
    if logs == [] then 0
    else
      var l := logs[|logs| - 1];
      ProviderPrompt(rows, logs[..|logs| - 1], p) + if Serves(rows, l.key, p) then l.prompt else 0
  }

  function ProviderCost(rows: seq<KeyRow>, logs: seq<Log>, p: string): int {
    if logs == [] then 0
    else
      var l := logs[|logs| - 1];
      ProviderCost(rows, logs[..|logs| - 1], p) + if Serves(rows, l.key, p) then l.cost else 0
  }

  predicate ProviderSumsOf(t: Totals, rows: seq<KeyRow>, logs: seq<Log>, p: string) {
    && t.requests == ProviderEntries(rows, logs, p) && t.cost == ProviderCost(rows, logs, p)
    && t.prompt == ProviderPrompt(rows, logs, p) && t.prompt + t.completion == ProviderTokens(rows, logs, p)
  }

  lemma {:induction false} ProviderLoggedSums(rows: seq<KeyRow>, logs: seq<Log>, p: string)
    ensures ProviderSumsOf(ProviderLogged(rows, logs, p), rows, logs, p)
  {
    if logs != [] { ProviderLoggedSums(rows, logs[..|logs| - 1], p); }
  }

  class UsageTracker {
    var rows: seq<KeyRow>
    var logs: seq<Log>

    constructor (rows: seq<KeyRow>)
      requires UniqueIds(rows) && forall i :: 0 <= i < |rows| ==> rows[i].totals == NOTHING
      ensures this.rows == rows && logs == [] && Agrees(rows, logs)
    {
      this.rows := rows;
      logs := [];
    }

    method RecordUsage(k: KeyId, prompt: int, completion: int, cost: int, success: bool) returns (ok: bool)
      requires Agrees(rows, logs)
      modifies this
      ensures Agrees(rows, logs)
      ensures (Ledger(rows, logs), ok) == RecordIn(old(Ledger(rows, logs)), Log(k, prompt, completion, cost, success))
      ensures ok <==> Known(old(rows), k)
      ensures |rows| == |old(rows)|
      ensures forall i :: 0 <= i < |rows| ==>
                            var t, t' := old(rows)[i].totals, rows[i].totals;
                            if ok && rows[i].id == k
                            then t'.requests == t.requests + 1 && t'.prompt == t.prompt + prompt
                                 && t'.completion == t.completion + completion && t'.cost == t.cost + cost
                            else rows[i] == old(rows)[i]
    {
      var entry := Log(k, prompt, completion, cost, success);
      RecordKeepsSound(Ledger(rows, logs), entry);
      if !Known(rows, k) { return false; }
      logs := logs + [entry];
      var updated := rows;
      for i := 0 to |rows|
        invariant |updated| == |rows|
        invariant forall j :: 0 <= j < i ==> updated[j] == Bump(rows[j], entry)
        invariant forall j :: i <= j < |rows| ==> updated[j] == rows[j]
      {
        if rows[i].id == k {
          var t := rows[i].totals;
          updated := updated[i := rows[i].(totals := Totals(t.requests + 1, t.prompt + prompt,
                                                            t.completion + completion, t.cost + cost))];
        }
      }
      assert updated == BumpAll(rows, entry);
      rows := updated;
      ok := true;
    }

    /** The provider of the key that a log entry is about. */
    method ProviderOf(k: KeyId) returns (p: string)
      requires UniqueIds(rows) && Known(rows, k)
      ensures forall q :: Serves(rows, k, q) <==> q == p
    {
      ghost var at := IndexOf(rows, k);
      var i := 0;
      while rows[i].id != k
        invariant i <= at
        decreases |rows| - i
      {
        i := i + 1;
      }
      p := rows[i].provider;
      assert Serves(rows, k, p);
    }

    /** By provider, over all of them or the one asked for: those that have used anything, with what they used. */
    method AggregateCost(provider: string) returns (sums: map<string, Totals>)
      requires Agrees(rows, logs)
      ensures forall p :: p in sums <==> (provider == "" || p == provider) && Used(rows, logs, p)
      ensures forall p :: p in sums ==> sums[p] == ProviderTotals(rows, p)
      ensures forall p :: p in sums ==> ProviderSumsOf(sums[p], rows, logs, p)
    {
      sums := map[];
      for i := 0 to |logs|
        invariant Summed(sums, rows, logs[..i], provider)
      {
        var p := ProviderOf(logs[i].key);
        SummedStep(sums, rows, logs, i, provider, p);
        if provider == "" || p == provider {
          sums := sums[p := Add(if p in sums then sums[p] else NOTHING, logs[i])];
        }
      }
      assert logs[..|logs|] == logs;
      forall p | p in sums ensures sums[p] == ProviderTotals(rows, p) && ProviderSumsOf(sums[p], rows, logs, p) {
        ProvidersAgree(rows, logs, p);
        ProviderLoggedSums(rows, logs, p);
      }
    }
  }

  /** The providers asked for that have used anything, each with what its entries add up to. */
  ghost predicate Summed(sums: map<string, Totals>, rows: seq<KeyRow>, logs: seq<Log>, provider: string) {
    && (forall p :: p in sums <==> (provider == "" || p == provider) && Used(rows, logs, p))
    && (forall p :: p in sums ==> sums[p] == ProviderLogged(rows, logs, p))
  }

  lemma SummedStep(sums: map<string, Totals>, rows: seq<KeyRow>, logs: seq<Log>, i: nat, provider: string, p: string)
    requires i < |logs| && Summed(sums, rows, logs[..i], provider)
    requires forall q :: Serves(rows, logs[i].key, q) <==> q == p
    ensures Summed(if provider == "" || p == provider
                   then sums[p := Add(if p in sums then sums[p] else NOTHING, logs[i])] else sums,
                   rows, logs[..i + 1], provider)
  {
    if p !in sums && (provider == "" || p == provider) { UnusedLogsNothing(rows, logs[..i], p); }
    forall q
      ensures Used(rows, logs[..i + 1], q) <==> Used(rows, logs[..i], q) || q == p
      ensures ProviderLogged(rows, logs[..i + 1], q)
           == if q == p then Add(ProviderLogged(rows, logs[..i], q), logs[i])
              else ProviderLogged(rows, logs[..i], q)
    {
      UsedStep(rows, logs, i, q);
      assert logs[..i + 1][..i] == logs[..i];
    }
  }

  lemma UsedStep(rows: seq<KeyRow>, logs: seq<Log>, i: nat, p: string)
    requires i < |logs|
    ensures Used(rows, logs[..i + 1], p) <==> Used(rows, logs[..i], p) || Serves(rows, logs[i].key, p)
  {
    var a, b := logs[..i], logs[..i + 1];
    if Used(rows, b, p) {
      var j :| 0 <= j < |b| && Serves(rows, b[j].key, p);
      if j < i { assert a[j] == b[j]; }
    }
    if Used(rows, a, p) {
      var j :| 0 <= j < |a| && Serves(rows, a[j].key, p);
      assert b[j] == a[j];
    }
    if Serves(rows, logs[i].key, p) { assert b[i] == logs[i]; }
  }

  lemma {:induction false} UnusedLogsNothing(rows: seq<KeyRow>, logs: seq<Log>, p: string)
    requires !Used(rows, logs, p)
    ensures ProviderLogged(rows, logs, p) == NOTHING
  {
    if logs != [] {
      UsedStep(rows, logs, |logs| - 1, p);
      assert logs[..|logs| - 1 + 1] == logs;
      UnusedLogsNothing(rows, logs[..|logs| - 1], p);
    }
  }

  // ----- the two ways of adding up agree -----

  function SumLogged(rows: seq<KeyRow>, logs: seq<Log>, provider: string): Totals {
    if rows == [] then NOTHING else
    var t := SumLogged(rows[..|rows| - 1], logs, provider);
    if rows[|rows| - 1].provider == provider then Plus(t, LoggedFor(logs, rows[|rows| - 1].id)) else t
  }

  lemma SumLoggedStep(rows: seq<KeyRow>, logs: seq<Log>, l: Log, provider: string)
    requires UniqueIds(rows)
    ensures SumLogged(rows, logs + [l], provider)
         == if Serves(rows, l.key, provider) then Add(SumLogged(rows, logs, provider), l)
            else SumLogged(rows, logs, provider)
  {
    if rows != [] {
      var init, r := rows[..|rows| - 1], rows[|rows| - 1];
      SumLoggedStep(init, logs, l, provider);
      assert (logs + [l])[..|logs|] == logs;
      if r.id == l.key {
        assert forall i :: 0 <= i < |init| ==> init[i].id != l.key;
      }
      assert Serves(rows, l.key, provider) <==> Serves(init, l.key, provider)
                                                || (r.id == l.key && r.provider == provider) by {
        if Serves(init, l.key, provider) {
          var i :| 0 <= i < |init| && init[i].id == l.key && init[i].provider == provider;
          assert rows[i] == init[i];
        }
        if r.id == l.key && r.provider == provider {
          assert rows[|rows| - 1] == r;
        }
      }
    }
  }

  lemma {:induction false} SumLoggedIsProviderLogged(rows: seq<KeyRow>, logs: seq<Log>, provider: string)
    requires UniqueIds(rows)
    ensures SumLogged(rows, logs, provider) == ProviderLogged(rows, logs, provider)
  {
    if logs == [] {
      NothingLogged(rows, provider);
    } else {
      var init, l := logs[..|logs| - 1], logs[|logs| - 1];
      assert logs == init + [l];
      SumLoggedIsProviderLogged(rows, init, provider);
      SumLoggedStep(rows, init, l, provider);
    }
  }

  lemma NothingLogged(rows: seq<KeyRow>, provider: string)
    ensures SumLogged(rows, [], provider) == NOTHING
  {
  }

  lemma TotalsAreLogged(rows: seq<KeyRow>, logs: seq<Log>, provider: string)
    requires forall i :: 0 <= i < |rows| ==> rows[i].totals == LoggedFor(logs, rows[i].id)
    ensures ProviderTotals(rows, provider) == SumLogged(rows, logs, provider)
  {
    if rows != [] { TotalsAreLogged(rows[..|rows| - 1], logs, provider); }
  }

  /** A provider's keys together have used what its log entries add up to: nothing is lost or counted twice. */
  lemma ProvidersAgree(rows: seq<KeyRow>, logs: seq<Log>, provider: string)
    requires Agrees(rows, logs)
    ensures ProviderTotals(rows, provider) == ProviderLogged(rows, logs, provider)
  {
    TotalsAreLogged(rows, logs, provider);
    SumLoggedIsProviderLogged(rows, logs, provider);
  }
}

/** The budget of one key over runs of concurrent calls, on the usage that the tracker keeps. */
module Budget {
  import opened Prelude
  import opened Balancer
  import Tracker

  type Ledger = Tracker.Ledger

  /** `inflight` counts the admitted calls on the key that have not ended. */
  datatype State = State(ledger: Ledger, status: Status, inflight: int, admitted: nat)

  /** A pick of the key, which a tripped key is open to only as a probe; the end of an admitted call, with what
      it records, if recording goes through, and the status a failure leaves; usage of another key; and any
      other change of status: a cooldown, the healing of a tripped key, the hand of an administrator. */
  datatype Event =
    | Picking(probing: bool)
    | Ending(prompt: int, completion: int, cost: int, success: bool, recorded: bool, failed: Status)
    | Elsewhere(entry: Tracker.Log)
    | Restating(status: Status)

  function CostOf(rows: seq<Tracker.KeyRow>, k: KeyId): int {
    if rows == [] then 0 else if rows[0].id == k then rows[0].totals.cost else CostOf(rows[1..], k)
  }

  function Next(s: State, ev: Event, k: KeyId, budget: int): State {
    match ev
    case Picking(probing) =>
      if !(s.status.Active? || (s.status.CircuitBreaker? && probing)) then s
      else if budget > 0 && CostOf(s.ledger.rows, k) >= budget then s.(status := Exhausted)
      else s.(inflight := s.inflight + 1, admitted := s.admitted + 1)
    case Ending(prompt, completion, cost, success, recorded, failed) =>
      var entry := Tracker.Log(k, prompt, completion, cost, success);
      State(if recorded then Tracker.RecordIn(s.ledger, entry).0 else s.ledger,
            if success && recorded then Active else failed, s.inflight - 1, s.admitted)
    case Elsewhere(entry) => s.(ledger := Tracker.RecordIn(s.ledger, entry).0)
    case Restating(status) => s.(status := status)
  }

  function After(s: State, evs: seq<Event>, k: KeyId, budget: int): State {
    if evs == [] then s else Next(After(s, evs[..|evs| - 1], k, budget), evs[|evs| - 1], k, budget)
  }

  predicate Allowed(ev: Event, k: KeyId, m: int) {
    (ev.Ending? ==> 0 <= ev.cost <= m) && (ev.Elsewhere? ==> ev.entry.key != k)
  }

  /** At most `c` admitted calls at a time, each recording between 0 and `m`. */
  predicate Bounded(s: State, evs: seq<Event>, k: KeyId, budget: int, c: int, m: int) {
    && (forall i :: 0 <= i < |evs| ==> Allowed(evs[i], k, m))
    && (forall i :: 0 <= i <= |evs| ==> 0 <= After(s, evs[..i], k, budget).inflight <= c)
  }

  lemma BoundedPrefix(s: State, evs: seq<Event>, k: KeyId, budget: int, c: int, m: int)
    requires evs != [] && Bounded(s, evs, k, budget, c, m)
    ensures Bounded(s, evs[..|evs| - 1], k, budget, c, m)
    ensures 0 <= After(s, evs[..|evs| - 1], k, budget).inflight <= c && 0 <= After(s, evs, k, budget).inflight <= c
  {
    var init := evs[..|evs| - 1];
    assert evs[..|evs|] == evs;
    forall i | 0 <= i <= |init| ensures 0 <= After(s, init[..i], k, budget).inflight <= c {
      assert init[..i] == evs[..i];
    }
    assert init[..|init|] == init;
  }

  // ----- the cost that the budget is compared with -----

  predicate Kept(s: State, k: KeyId) {
    Tracker.Sound(s.ledger) && Tracker.Known(s.ledger.rows, k)
  }

  lemma CostIsRowCost(rows: seq<Tracker.KeyRow>, k: KeyId)
    requires Tracker.Known(rows, k)
    ensures exists i :: 0 <= i < |rows| && rows[i].id == k && rows[i].totals.cost == CostOf(rows, k)
  {
    if rows[0].id != k {
      var i :| 0 <= i < |rows| && rows[i].id == k;
      assert rows[1..][i - 1].id == k;
      CostIsRowCost(rows[1..], k);
      var j :| 0 <= j < |rows[1..]| && rows[1..][j].id == k && rows[1..][j].totals.cost == CostOf(rows[1..], k);
      assert rows[j + 1].id == k;
    }
  }

  /** The cost of a key is what its log entries add up to. */
  lemma CostIsLogged(g: Ledger, k: KeyId)
    requires Tracker.Sound(g) && Tracker.Known(g.rows, k)
    ensures CostOf(g.rows, k) == Tracker.LoggedFor(g.logs, k).cost
  {
    CostIsRowCost(g.rows, k);
  }

  lemma RecordCost(g: Ledger, l: Tracker.Log, k: KeyId)
    requires Tracker.Sound(g) && Tracker.Known(g.rows, k)
    ensures CostOf(Tracker.RecordIn(g, l).0.rows, k) == CostOf(g.rows, k) + if l.key == k then l.cost else 0
  {
    var g' := Tracker.RecordIn(g, l).0;
    Tracker.RecordKeepsSound(g, l);
    CostIsLogged(g, k);
    CostIsLogged(g', k);
    if Tracker.Known(g.rows, l.key) { assert g'.logs[..|g.logs|] == g.logs; }
  }

  /** The cost grows by what an ending call on the key records, and by nothing else. */
  lemma NextCost(s: State, ev: Event, k: KeyId, budget: int, m: int)
    requires Kept(s, k) && Allowed(ev, k, m)
    ensures Kept(Next(s, ev, k, budget), k)
    ensures CostOf(Next(s, ev, k, budget).ledger.rows, k)
         == CostOf(s.ledger.rows, k) + if ev.Ending? && ev.recorded then ev.cost else 0
  {
    if ev.Ending? && ev.recorded {
      var entry := Tracker.Log(k, ev.prompt, ev.completion, ev.cost, ev.success);
      Tracker.RecordKeepsSound(s.ledger, entry);
      RecordCost(s.ledger, entry, k);
    } else if ev.Elsewhere? {
      Tracker.RecordKeepsSound(s.ledger, ev.entry);
      RecordCost(s.ledger, ev.entry, k);
    }
  }

  // ----- overspending -----

  predicate Covered(s: State, k: KeyId, budget: int, c: int, m: int) {
    CostOf(s.ledger.rows, k) + s.inflight * m < budget + c * m
  }

  lemma NextCovered(s: State, ev: Event, k: KeyId, budget: int, c: int, m: int)
    requires budget > 0 && m >= 0 && Kept(s, k) && Allowed(ev, k, m) && Covered(s, k, budget, c, m)
    requires Next(s, ev, k, budget).inflight <= c
    ensures Covered(Next(s, ev, k, budget), k, budget, c, m)
  {
    var s' := Next(s, ev, k, budget);
    NextCost(s, ev, k, budget, m);
    if ev.Picking? {
      MulMono(s'.inflight, c, m);
    } else if ev.Ending? {
      assert s.inflight * m == s'.inflight * m + m;
    }
  }

  /** The recorded cost, plus what the calls in flight may still record, stays below the budget plus one
      round of concurrent calls, and the ledger stays sound. */
  lemma {:induction false} SpendingIsCovered(s: State, evs: seq<Event>, k: KeyId, budget: int, c: int, m: int)
    requires budget > 0 && c >= 0 && m >= 0 && Bounded(s, evs, k, budget, c, m)
    requires Kept(s, k) && Covered(s, k, budget, c, m)
    ensures Kept(After(s, evs, k, budget), k) && Covered(After(s, evs, k, budget), k, budget, c, m)
  {
    if evs != [] {
      var init, ev := evs[..|evs| - 1], evs[|evs| - 1];
      BoundedPrefix(s, evs, k, budget, c, m);
      SpendingIsCovered(s, init, k, budget, c, m);
      NextCost(After(s, init, k, budget), ev, k, budget, m);
      NextCovered(After(s, init, k, budget), ev, k, budget, c, m);
    }
  }

  /** Budget and usage agree: over every run, with keys tripping, healing, probed and restated, the cost the
      budget is compared with is the sum over the usage log, and it never reaches budget plus c times m. */
  lemma OverspendBound(s: State, evs: seq<Event>, k: KeyId, budget: int, c: int, m: int)
    requires budget > 0 && c >= 0 && m >= 0 && Bounded(s, evs, k, budget, c, m)
    requires Kept(s, k) && CostOf(s.ledger.rows, k) < budget && s.inflight == 0
    ensures var g := After(s, evs, k, budget).ledger;
            && Tracker.Sound(g)
            && CostOf(g.rows, k) == Tracker.CostSum(g.logs, k) < budget + c * m
  {
    MulMono(0, c, m);
    SpendingIsCovered(s, evs, k, budget, c, m);
    assert evs[..|evs|] == evs;
    MulMono(0, After(s, evs, k, budget).inflight, m);
    CostIsLogged(After(s, evs, k, budget).ledger, k);
    Tracker.LoggedSums(After(s, evs, k, budget).ledger.logs, k);
  }

  /** Once the budget is used up no call is ever admitted again, whatever happens to the status: a call in
      flight that succeeds, a healing or a probe may make the key eligible, not affordable. */
  lemma {:induction false} NeverAdmittedAgain(s: State, evs: seq<Event>, k: KeyId, budget: int, c: int, m: int)
    requires budget > 0 && Kept(s, k) && CostOf(s.ledger.rows, k) >= budget && Bounded(s, evs, k, budget, c, m)
    ensures var t := After(s, evs, k, budget);
            Kept(t, k) && CostOf(t.ledger.rows, k) >= CostOf(s.ledger.rows, k) && t.admitted == s.admitted
  {
    if evs != [] {
      BoundedPrefix(s, evs, k, budget, c, m);
      NeverAdmittedAgain(s, evs[..|evs| - 1], k, budget, c, m);
      NextCost(After(s, evs[..|evs| - 1], k, budget), evs[|evs| - 1], k, budget, m);
    }
  }

  /** A pick admits exactly an active key, or a tripped one as a probe, that has no budget or has logged less than it;
      an eligible key that has used its budget up is found exhausted. */
  lemma PickAdmits(s: State, probing: bool, k: KeyId, budget: int)
    requires Kept(s, k)
    ensures var s' := Next(s, Picking(probing), k, budget);
            var eligible := s.status == Active || (s.status == CircuitBreaker && probing);
            var spent := Tracker.CostSum(s.ledger.logs, k);
            && s'.ledger == s.ledger
            && (eligible && (budget <= 0 || spent < budget) ==>
                  s' == s.(inflight := s.inflight + 1, admitted := s.admitted + 1))
            && (eligible && budget > 0 && spent >= budget ==> s' == s.(status := Exhausted))
            && (!eligible ==> s' == s)
  {
    CostIsLogged(s.ledger, k);
    Tracker.LoggedSums(s.ledger.logs, k);
  }

  /** What the end of a call leaves. */
  lemma EndLeaves(s: State, k: KeyId, budget: int, ev: Event)
    requires ev.Ending?
    ensures var s' := Next(s, ev, k, budget);
            && s'.inflight == s.inflight - 1 && s'.admitted == s.admitted
            && s'.status == (if ev.success && ev.recorded then Active else ev.failed)
            && (!ev.recorded || !Tracker.Known(s.ledger.rows, k) ==> s'.ledger == s.ledger)
            && (ev.recorded && Tracker.Known(s.ledger.rows, k) ==>
                  |s'.ledger.logs| == |s.ledger.logs| + 1
                  && s'.ledger.logs[|s.ledger.logs|]
                     == Tracker.Log(k, ev.prompt, ev.completion, ev.cost, ev.success)
                  && s'.ledger.logs[..|s.ledger.logs|] == s.ledger.logs)
  {
  }

  /** The reset is real: a key found exhausted with a call in flight is active again after its success. */
  lemma SuccessReactivates(s: State, k: KeyId, budget: int, prompt: int, completion: int, cost: nat)
    requires budget > 0 && Kept(s, k) && CostOf(s.ledger.rows, k) >= budget && s.status.Active?
    ensures var s1 := Next(s, Picking(false), k, budget);
            var s2 := Next(s1, Ending(prompt, completion, cost, true, true, Error), k, budget);
            s1.status.Exhausted? && s2.status.Active? && Next(s2, Picking(false), k, budget).admitted == s.admitted
  {
    NextCost(Next(s, Picking(false), k, budget), Ending(prompt, completion, cost, true, true, Error), k, budget, cost);
  }
}
