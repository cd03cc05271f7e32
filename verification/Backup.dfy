/** Export and import of credentials (keyhub/backup.py): what is collected, and how an import merges. */
module Backup {
  import opened Prelude
  import opened Crypto
  import opened Vault
  import opened PlainStore
  import opened Refinement
  import opened Runtime
  import Store
  import Operations

  datatype LlmPart = LlmPart(provider: Bytes, keyLabel: Bytes, allowedModels: seq<Bytes>, priority: int)

  /** One credential of a backup, in clear. */
  datatype Entry = Entry(name: Bytes, kind: Kind, value: Bytes, metadata: Bytes, rotationDays: Option<int>,
                         llm: Option<LlmPart>)

  // ----- export -----

  function EntryOf(name: Bytes, c: Credential, value: Bytes): Entry {
    Entry(name, c.kind, value, c.attrs.metadata, c.attrs.rotationDays,
          if c.llm.None? then None
          else Some(LlmPart(c.llm.value.provider, c.llm.value.keyLabel, c.llm.value.allowedModels,
                            c.llm.value.priority)))
  }

  /** The entries are those of the live credentials, each exactly once. */
  ghost predicate Exports(env: Env, key: Key, rows: Table, entries: seq<Entry>) {
    && |entries| == |Live(rows)|
    && DistinctNames(entries)
    && forall i :: 0 <= i < |entries| ==> ExportedRow(env, key, rows, entries[i])
  }

  predicate ExportedRow(env: Env, key: Key, rows: Table, e: Entry) {
    && e.name in Live(rows)
    && TryDecrypt(env.codec, key, rows[e.name].id, e.name, rows[e.name].blob).Ok?
    && e == EntryOf(e.name, rows[e.name], TryDecrypt(env.codec, key, rows[e.name].id, e.name, rows[e.name].blob).value)
  }

  predicate DistinctNames(entries: seq<Entry>) {
    forall i, j :: 0 <= i < j < |entries| ==> entries[i].name != entries[j].name
  }

  function Names(entries: seq<Entry>): set<Bytes> {
    set i | 0 <= i < |entries| :: entries[i].name
  }

  /** Collects every live credential with its value, or fails on the first illegible one. */
  method ExportBackup(rt: KeyHub) returns (r: Result<seq<Entry>, Failure>)
    requires rt.Valid()
    ensures r.Ok? <==> rt.State().vault.Some? && LiveReadable(rt.env, rt.State().vault.value, rt.db.rows)
    ensures r.Ok? ==> Exports(rt.env, rt.State().vault.value, rt.db.rows, r.value)
  {
    if rt.vault == null { return Err(Locked); }
    var rows := rt.db.rows;
    ghost var key := rt.vault.aes.value;
    var entries := [];
    var todo := Live(rows);
    while todo != {}
      invariant todo <= Live(rows) && |entries| + |todo| == |Live(rows)|
      invariant forall n :: n in Live(rows) - todo ==> Readable(rt.env, key, n, rows[n])
      invariant forall i :: 0 <= i < |entries| ==>
                              ExportedRow(rt.env, key, rows, entries[i]) && entries[i].name !in todo
      invariant DistinctNames(entries)
      decreases todo
    {
      var n :| n in todo;
      var value := rt.DecryptText(rows[n].id, n, rows[n].blob);
      if value.Err? { return Err(Undecryptable); }
      entries := entries + [EntryOf(n, rows[n], value.value)];
      todo := todo - {n};
    }
    r := Ok(entries);
  }

  // ----- import -----

  function DraftOf(e: Entry): Draft {
    var p := if e.llm.Some? then e.llm.value else LlmPart([], [], [], 0);
    Draft(e.name, e.kind, e.value, Attributes(e.metadata, None, e.rotationDays, []),
          p.provider, p.keyLabel, p.allowedModels, p.priority)
  }

  datatype Merge = Imported | Skipped | Overwritten | Aborted(reason: Failure)

  /** One entry: a soft-deleted namesake goes, a live one is kept or, with overwrite, removed; then the entry
      is validated and created, each in a transaction of its own. */
  function ImportOne(env: Env, w: World, e: Entry, overwrite: bool, id: Bytes, nonce: Nonce): (World, Merge) {
    var present := e.name in w.rows && !w.rows[e.name].deleted;
    if present && !overwrite then (w, Skipped) else
    var cleared := w.(rows := w.rows - {e.name});
    if !Acceptable(DraftOf(e)) then (cleared, Aborted(Invalid)) else
    var (w', o) := CreateIn(env, cleared, DraftOf(e), id, nonce);
    if o.Fail? then (cleared, Aborted(o.reason)) else (w', if present then Overwritten else Imported)
  }

  datatype Counts = Counts(imported: nat, skipped: nat, overwritten: nat)

  function Tally(c: Counts, m: Merge): Counts {
    match m
    case Imported => c.(imported := c.imported + 1)
    case Skipped => c.(skipped := c.skipped + 1)
    case Overwritten => c.(overwritten := c.overwritten + 1)
    case Aborted(_) => c
  }

  datatype Progress = Progress(w: World, counts: Counts, failed: Option<Failure>)

  type Draws = nat -> (Bytes, Nonce)

  /** The first `n` entries, stopping at the first failure. */
  function ImportUpTo(env: Env, w: World, entries: seq<Entry>, overwrite: bool, draws: Draws, n: nat): Progress
    requires n <= |entries|
  {
    if n == 0 then Progress(w, Counts(0, 0, 0), None) else
    var p := ImportUpTo(env, w, entries, overwrite, draws, n - 1);
    if p.failed.Some? then p else
    var (w', m) := ImportOne(env, p.w, entries[n - 1], overwrite, draws(n - 1).0, draws(n - 1).1);
    Progress(w', Tally(p.counts, m), if m.Aborted? then Some(m.reason) else None)
  }

  lemma UpToStep(env: Env, w: World, entries: seq<Entry>, overwrite: bool, draws: Draws, n: nat)
    requires n < |entries| && ImportUpTo(env, w, entries, overwrite, draws, n).failed.None?
    ensures var p := ImportUpTo(env, w, entries, overwrite, draws, n);
            var (w', m) := ImportOne(env, p.w, entries[n], overwrite, draws(n).0, draws(n).1);
            ImportUpTo(env, w, entries, overwrite, draws, n + 1)
            == Progress(w', Tally(p.counts, m), if m.Aborted? then Some(m.reason) else None)
  {
  }

  method ImportEntry(rt: KeyHub, e: Entry, overwrite: bool, id: Bytes, nonce: Nonce) returns (m: Merge)
    requires rt.Valid() && rt.vault != null
    modifies rt.db
    ensures rt.Valid()
    ensures (rt.State(), m) == ImportOne(rt.env, old(rt.State()), e, overwrite, id, nonce)
  {
    var present := e.name in rt.db.rows && !rt.db.rows[e.name].deleted;
    if present && !overwrite { return Skipped; }
    rt.db.rows := rt.db.rows - {e.name};
    if !Acceptable(DraftOf(e)) { return Aborted(Invalid); }
    var o := Store.CreateCredential(rt, DraftOf(e), id, nonce);
    if o.Fail? { return Aborted(o.reason); }
    m := if present then Overwritten else Imported;
  }

  method ImportBackup(rt: KeyHub, entries: seq<Entry>, overwrite: bool, draws: Draws)
    returns (counts: Counts, failed: Option<Failure>)
    requires rt.Valid()
    modifies rt.db
    ensures rt.Valid()
    ensures old(rt.State()).vault.None? ==> failed == Some(Locked) && rt.State() == old(rt.State())
    ensures old(rt.State()).vault.Some? ==>
              Progress(rt.State(), counts, failed)
              == ImportUpTo(rt.env, old(rt.State()), entries, overwrite, draws, |entries|)
  {
    counts := Counts(0, 0, 0);
    if rt.vault == null { return counts, Some(Locked); }
    ghost var w0 := rt.State();
    for i := 0 to |entries|
      invariant rt.Valid() && rt.vault == old(rt.vault)
      invariant Progress(rt.State(), counts, None) == ImportUpTo(rt.env, w0, entries, overwrite, draws, i)
    {
      var m := ImportEntry(rt, entries[i], overwrite, draws(i).0, draws(i).1);
      match m {
        case Imported => counts := counts.(imported := counts.imported + 1);
        case Skipped => counts := counts.(skipped := counts.skipped + 1);
        case Overwritten => counts := counts.(overwritten := counts.overwritten + 1);
        case Aborted(reason) =>
          StopsThere(rt.env, w0, entries, overwrite, draws, i + 1, |entries|);
          return counts, Some(reason);
      }
    }
    failed := None;
  }

  lemma StopsThere(env: Env, w: World, entries: seq<Entry>, overwrite: bool, draws: Draws, n: nat, m: nat)
    requires n <= m <= |entries| && ImportUpTo(env, w, entries, overwrite, draws, n).failed.Some?
    ensures ImportUpTo(env, w, entries, overwrite, draws, m) == ImportUpTo(env, w, entries, overwrite, draws, n)
  {
    if n < m { StopsThere(env, w, entries, overwrite, draws, n, m - 1); }
  }

  // ----- what a merge leaves -----

  /** What a row created from an entry shows. */
  function Restored(e: Entry, id: Bytes): Item {
    Item(id, e.kind, Clear(e.value), Attributes(e.metadata, None, e.rotationDays, []), None, false, [],
         if !e.kind.Llm? then None
         else if e.llm.None? then Some(LlmKey([], e.name, [], 0))
         else Some(LlmKey(e.llm.value.provider, if e.llm.value.keyLabel == [] then e.name else e.llm.value.keyLabel,
                          e.llm.value.allowedModels, e.llm.value.priority)))
  }

  predicate IsLive(w: World, n: Bytes) {
    n in w.rows && !w.rows[n].deleted
  }

  predicate Wins(w: World, n: Bytes, overwrite: bool) {
    overwrite || n !in w.rows || w.rows[n].deleted
  }

  /** One entry's effect on the table: other names keep their rows, and this one's goes to the winner. */
  ghost predicate Merges(env: Env, w: World, e: Entry, overwrite: bool, id: Bytes, w': World, m: Merge) {
    && Inv(env, w') && w'.(rows := map[]) == w.(rows := map[])
    && (forall n :: n != e.name ==> (n in w'.rows <==> n in w.rows))
    && (forall n :: n != e.name && n in w.rows ==> w'.rows[n] == w.rows[n])
    && (!m.Aborted? ==> e.name in w'.rows)
    && (!m.Aborted? && Wins(w, e.name, overwrite) ==>
          AbsItem(env, CurrentKey(env, w), e.name, w'.rows[e.name]) == Restored(e, id))
    && (!Wins(w, e.name, overwrite) ==> w' == w && m.Skipped?)
    && (m.Skipped? ==> !Wins(w, e.name, overwrite))
    && (m.Overwritten? ==> IsLive(w, e.name))
    && (m.Imported? ==> !IsLive(w, e.name))
    && (m.Aborted? ==> e.name !in w'.rows)
  }

  lemma ImportOneEffect(env: Env, w: World, e: Entry, overwrite: bool, id: Bytes, nonce: Nonce)
    requires Inv(env, w) && w.vault.Some?
    ensures var (w', m) := ImportOne(env, w, e, overwrite, id, nonce);
            Merges(env, w, e, overwrite, id, w', m)
  {
    var d := DraftOf(e);
    ReadingOfFresh(env, CurrentKey(env, w), id, d.name, d.value, nonce);
    assert AbsHistory(env, CurrentKey(env, w), id, d.name, []) == [];
  }

  /** Which of the first `n` entries a name ends up with, if any: with overwrite the last of its entries, without
      it the first, unless a live credential is in the way. */
  function Winner(w: World, entries: seq<Entry>, overwrite: bool, n: nat, name: Bytes): (r: Option<nat>)
    requires n <= |entries|
    ensures r.Some? ==> r.value < n && entries[r.value].name == name && Wins(w, name, overwrite)
    ensures r.Some? && overwrite ==> forall i :: r.value < i < n ==> entries[i].name != name
    ensures r.Some? && !overwrite ==> forall i :: 0 <= i < r.value ==> entries[i].name != name
    ensures r.None? && Wins(w, name, overwrite) ==> forall i :: 0 <= i < n ==> entries[i].name != name
  {
    if n == 0 then None else
    var before := Winner(w, entries, overwrite, n - 1, name);
    if entries[n - 1].name == name && (overwrite || (before.None? && Wins(w, name, overwrite))) then Some(n - 1)
    else before
  }

  /** The import so far, name by name. */
  ghost predicate Merged(env: Env, w: World, entries: seq<Entry>, overwrite: bool, draws: Draws, n: nat, w': World)
    requires n <= |entries|
  {
    forall x :: MergedName(env, w, entries, overwrite, draws, n, w', x)
  }

  /** Backup wins or existing wins. */
  predicate MergedName(env: Env, w: World, entries: seq<Entry>, overwrite: bool, draws: Draws, n: nat, w': World,
                       x: Bytes)
    requires n <= |entries|
  {
    match Winner(w, entries, overwrite, n, x)
    case None => (x in w'.rows <==> x in w.rows) && (x in w.rows ==> w'.rows[x] == w.rows[x])
    case Some(i) =>
      x in w'.rows && AbsItem(env, CurrentKey(env, w), x, w'.rows[x]) == Restored(entries[i], draws(i).0)
  }

  /** The counters, for any entries. */
  lemma {:induction false} ImportCounts(env: Env, w: World, entries: seq<Entry>, overwrite: bool, draws: Draws, n: nat)
    requires n <= |entries|
    ensures var p := ImportUpTo(env, w, entries, overwrite, draws, n);
            p.failed.None? ==> p.counts.imported + p.counts.skipped + p.counts.overwritten == n
  {
    if n > 0 { ImportCounts(env, w, entries, overwrite, draws, n - 1); }
  }

  /** An import that goes through processes every entry, and every name ends up with the winner: the existing
      credential, or with overwrite (or where there is none) the backup's, legible and complete, the last one
      or the first one if the backup names it more than once.  Names that are not in the backup are left alone. */
  lemma {:induction false} ImportMerges(env: Env, w: World, entries: seq<Entry>, overwrite: bool, draws: Draws, n: nat)
    requires Inv(env, w) && w.vault.Some? && n <= |entries|
    ensures var p := ImportUpTo(env, w, entries, overwrite, draws, n);
            && Inv(env, p.w) && p.w.(rows := map[]) == w.(rows := map[])
            && (p.failed.None? ==> Merged(env, w, entries, overwrite, draws, n, p.w))
  {
    if n > 0 {
      ImportMerges(env, w, entries, overwrite, draws, n - 1);
      var p := ImportUpTo(env, w, entries, overwrite, draws, n - 1);
      if p.failed.None? {
        var (w2, m) := ImportOne(env, p.w, entries[n - 1], overwrite, draws(n - 1).0, draws(n - 1).1);
        ImportOneEffect(env, p.w, entries[n - 1], overwrite, draws(n - 1).0, draws(n - 1).1);
        MergeStep(env, w, entries, overwrite, draws, n, p.w, w2, m);
      }
    }
  }

  lemma MergeStep(env: Env, w: World, entries: seq<Entry>, overwrite: bool, draws: Draws, n: nat,
                  w1: World, w2: World, m: Merge)
    requires w1.(rows := map[]) == w.(rows := map[])
    requires 0 < n <= |entries| && Merged(env, w, entries, overwrite, draws, n - 1, w1)
    requires Merges(env, w1, entries[n - 1], overwrite, draws(n - 1).0, w2, m)
    ensures !m.Aborted? ==> Merged(env, w, entries, overwrite, draws, n, w2)
  {
    if !m.Aborted? {
      forall x ensures MergedName(env, w, entries, overwrite, draws, n, w2, x) {
        assert MergedName(env, w, entries, overwrite, draws, n - 1, w1, x);
        if x == entries[n - 1].name {
          StillWins(env, w, entries, overwrite, draws, n - 1, w1, x);
        }
      }
    }
  }

  /** A name is still free to be imported exactly if no entry of the backup has won it yet and it was free
      at the start. */
  lemma StillWins(env: Env, w: World, entries: seq<Entry>, overwrite: bool, draws: Draws, n: nat, w1: World, x: Bytes)
    requires n <= |entries| && MergedName(env, w, entries, overwrite, draws, n, w1, x)
    ensures Wins(w1, x, overwrite)
       <==> overwrite || (Winner(w, entries, overwrite, n, x).None? && Wins(w, x, overwrite))
  {
    var r := Winner(w, entries, overwrite, n, x);
    if r.Some? { assert !AbsItem(env, CurrentKey(env, w), x, w1.rows[x]).deleted; }
  }

  /** There is a live credential of this name when entry `i` comes up: from the start, or from an earlier entry. */
  predicate Met(w: World, entries: seq<Entry>, i: nat)
    requires i < |entries|
  {
    IsLive(w, entries[i].name) || exists j :: 0 <= j < i && entries[j].name == entries[i].name
  }

  /** How many of the first `n` entries meet none. */
  function NewNames(w: World, entries: seq<Entry>, n: nat): nat
    requires n <= |entries|
  {
    if n == 0 then 0 else NewNames(w, entries, n - 1) + if Met(w, entries, n - 1) then 0 else 1
  }

  lemma MetNow(env: Env, w: World, entries: seq<Entry>, overwrite: bool, draws: Draws, n: nat, w1: World)
    requires n < |entries| && MergedName(env, w, entries, overwrite, draws, n, w1, entries[n].name)
    ensures IsLive(w1, entries[n].name) <==> Met(w, entries, n)
  {
    var x := entries[n].name;
    var r := Winner(w, entries, overwrite, n, x);
    if r.Some? {
      assert !AbsItem(env, CurrentKey(env, w), x, w1.rows[x]).deleted;
      assert entries[r.value].name == x;
    }
  }

  lemma MetThen(env: Env, w: World, entries: seq<Entry>, overwrite: bool, draws: Draws, n: nat)
    requires Inv(env, w) && w.vault.Some? && n < |entries|
    requires ImportUpTo(env, w, entries, overwrite, draws, n).failed.None?
    ensures IsLive(ImportUpTo(env, w, entries, overwrite, draws, n).w, entries[n].name) <==> Met(w, entries, n)
  {
    var p := ImportUpTo(env, w, entries, overwrite, draws, n);
    ImportMerges(env, w, entries, overwrite, draws, n);
    assert MergedName(env, w, entries, overwrite, draws, n, p.w, entries[n].name);
    MetNow(env, w, entries, overwrite, draws, n, p.w);
  }

  /** What the counters count: imported are the entries that meet no live credential of their name; the others are
      overwritten or skipped, as the flag says. */
  lemma {:induction false} ImportTallies(env: Env, w: World, entries: seq<Entry>, overwrite: bool, draws: Draws, n: nat)
    requires Inv(env, w) && w.vault.Some? && n <= |entries|
    ensures var p := ImportUpTo(env, w, entries, overwrite, draws, n);
            p.failed.None? ==>
              && p.counts.imported == NewNames(w, entries, n)
              && p.counts.overwritten == (if overwrite then n - NewNames(w, entries, n) else 0)
              && p.counts.skipped == (if overwrite then 0 else n - NewNames(w, entries, n))
  {
    if n > 0 {
      ImportTallies(env, w, entries, overwrite, draws, n - 1);
      var p := ImportUpTo(env, w, entries, overwrite, draws, n - 1);
      if p.failed.None? {
        MetThen(env, w, entries, overwrite, draws, n - 1);
        CountsAs(env, p.w, entries[n - 1], overwrite, draws(n - 1).0, draws(n - 1).1);
        UpToStep(env, w, entries, overwrite, draws, n - 1);
      }
    }
  }

  /** What an entry that is not refused counts as. */
  lemma CountsAs(env: Env, w: World, e: Entry, overwrite: bool, id: Bytes, nonce: Nonce)
    ensures var m := ImportOne(env, w, e, overwrite, id, nonce).1;
            !m.Aborted? ==> m == if !IsLive(w, e.name) then Imported else if overwrite then Overwritten else Skipped
  {
  }

  /** Why an entry is not imported: with an unlocked vault, because the schema refuses it, because it is an LLM key
      without a provider, or because another row has its provider and label. */
  lemma ImportOneFails(env: Env, w: World, e: Entry, overwrite: bool, id: Bytes, nonce: Nonce)
    requires w.vault.Some?
    ensures var m := ImportOne(env, w, e, overwrite, id, nonce).1;
            var provider := if e.llm.Some? then e.llm.value.provider else [];
            var keyLabel := if e.llm.Some? && e.llm.value.keyLabel != [] then e.llm.value.keyLabel else e.name;
            var refused := e.name == [] || e.value == [];
            var tried := overwrite || !IsLive(w, e.name);
            && (m == Aborted(Invalid) <==> tried && refused)
            && (m == Aborted(MissingProvider) <==> tried && !refused && e.kind.Llm? && provider == [])
            && (m == Aborted(LabelTaken) <==>
                tried && !refused && e.kind.Llm? && provider != []
                && Operations.LabelInUse(w.rows - {e.name}, provider, keyLabel))
            && (m.Aborted? ==> m.reason == Invalid || m.reason == MissingProvider || m.reason == LabelTaken)
  {
    var d := DraftOf(e);
    Operations.CreateFields(env, w.(rows := w.rows - {e.name}), d, id, nonce);
  }

  /** An overwrite that cannot create its entry has already removed the credential it was to replace. */
  lemma FailedOverwriteLoses(env: Env, w: World, e: Entry, id: Bytes, nonce: Nonce)
    requires Inv(env, w) && w.vault.Some? && e.name in w.rows && !w.rows[e.name].deleted
    ensures var (w', m) := ImportOne(env, w, e, true, id, nonce);
            e.name !in w'.rows
            <==> || !Acceptable(DraftOf(e))
                 || (e.kind.Llm? && (DraftOf(e).provider == []
                                     || Taken(w.rows - {e.name}, DraftOf(e).provider, LabelOf(DraftOf(e)))))
  {
  }
}
