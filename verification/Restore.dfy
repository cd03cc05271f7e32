/** Backing up and restoring into an empty vault (keyhub/backup.py:71-229): when it goes through, and that
    it then brings every live credential back. */
module Restore {
  import opened Prelude
  import opened Crypto
  import opened Vault
  import opened PlainStore
  import opened Refinement
  import opened Backup
  import opened BackupFile

  // ----- what the table always satisfies -----

  predicate SoundRow(name: Bytes, c: Credential) {
    && name != []
    && (c.kind.Llm? <==> c.llm.Some?)
    && (c.llm.Some? ==> c.llm.value.provider != [] && c.llm.value.keyLabel != [])
  }

  predicate Clash(rows: Table, m: Bytes, n: Bytes)
    requires m in rows && n in rows
  {
    rows[n].llm.Some? && HasLabel(rows[m], rows[n].llm.value.provider, rows[n].llm.value.keyLabel)
  }

  ghost predicate WellKept(rows: Table) {
    && (forall n :: n in rows ==> SoundRow(n, rows[n]))
    && (forall m, n {:trigger Clash(rows, m, n)} :: m in rows && n in rows && m != n ==> !Clash(rows, m, n))
  }

  predicate AcceptableOp(op: Op) {
    op.Create? ==> Acceptable(op.draft)
  }

  /** Every operation on validated input keeps the LLM parts complete and their labels unique. */
  lemma StepKeepsWellKept(env: Env, w: World, op: Op)
    requires WellKept(w.rows) && AcceptableOp(op)
    ensures WellKept(Step(env, w, op).0.rows)
  {
    var rows := Step(env, w, op).0.rows;
    forall m, n | m in rows && n in rows && m != n ensures !Clash(rows, m, n) {
      if op.Create? {
        var d := op.draft;
        if d.name !in w.rows && (m == d.name || n == d.name) {
          assert d.kind.Llm? ==> !Taken(w.rows, d.provider, LabelOf(d));
          assert m in w.rows ==> d.kind.Llm? ==> !HasLabel(w.rows[m], d.provider, LabelOf(d));
        } else {
          assert !Clash(w.rows, m, n);
        }
      } else {
        assert !Clash(w.rows, m, n);
      }
    }
  }

  lemma {:induction false} RunKeepsWellKept(env: Env, w: World, ops: seq<Op>)
    requires WellKept(w.rows) && forall i :: 0 <= i < |ops| ==> AcceptableOp(ops[i])
    ensures WellKept(Run(env, w, ops).rows)
    decreases |ops|
  {
    if ops != [] {
      StepKeepsWellKept(env, w, ops[0]);
      RunKeepsWellKept(env, Step(env, w, ops[0]).0, ops[1..]);
    }
  }

  // ----- an export names every live credential -----

  lemma NamesSplit(entries: seq<Entry>, n: nat)
    requires n < |entries|
    ensures Names(entries[..n + 1]) == Names(entries[..n]) + {entries[n].name}
    ensures DistinctNames(entries) ==> entries[n].name !in Names(entries[..n])
  {
    var a, b := entries[..n], entries[..n + 1];
    forall x | x in Names(b) ensures x in Names(a) + {entries[n].name} {
      var i :| 0 <= i < |b| && b[i].name == x;
      if i < n { assert a[i] == b[i]; }
    }
    forall x | x in Names(a) + {entries[n].name} ensures x in Names(b) {
      if x in Names(a) {
        var i :| 0 <= i < |a| && a[i].name == x;
        assert b[i] == a[i];
      } else {
        assert b[n].name == x;
      }
    }
  }

  lemma {:induction false} CountNames(entries: seq<Entry>)
    requires DistinctNames(entries)
    ensures |Names(entries)| == |entries|
  {
    if entries != [] {
      var n := |entries| - 1;
      NamesSplit(entries, n);
      CountNames(entries[..n]);
      assert entries[..n + 1] == entries;
    }
  }

  lemma SubsetOfSameSize(a: set<Bytes>, b: set<Bytes>)
    requires a <= b && |a| == |b|
    ensures a == b
  {
    assert |b - a| + |a| == |b|;
  }

  ghost function IndexOf(entries: seq<Entry>, name: Bytes): (i: nat)
    requires name in Names(entries)
    ensures i < |entries| && entries[i].name == name
  {
    var i :| 0 <= i < |entries| && entries[i].name == name;
    i
  }

  lemma ExportIsComplete(env: Env, key: Key, rows: Table, entries: seq<Entry>)
    requires Exports(env, key, rows, entries)
    ensures Names(entries) == Live(rows)
  {
    CountNames(entries);
    forall x | x in Names(entries) ensures x in Live(rows) {
      var i := IndexOf(entries, x);
      assert ExportedRow(env, key, rows, entries[i]);
    }
    SubsetOfSameSize(Names(entries), Live(rows));
  }

  // ----- restoring -----

  predicate HasValue(e: Entry) {
    e.value != []
  }

  /** Into an empty table every entry of an export wins its own name. */
  lemma WinsItsName(w0: World, entries: seq<Entry>, overwrite: bool, n: nat, i: nat)
    requires w0.rows == map[] && DistinctNames(entries) && i < n <= |entries|
    ensures Winner(w0, entries, overwrite, n, entries[i].name) == Some(i)
  {
    var r := Winner(w0, entries, overwrite, n, entries[i].name);
    if r.Some? { assert entries[r.value].name == entries[i].name; }
  }

  lemma EntryShows(env: Env, w0: World, entries: seq<Entry>, overwrite: bool, draws: Draws, n: nat, w1: World, i: nat)
    requires w0.rows == map[] && DistinctNames(entries) && i < n <= |entries|
    requires Merged(env, w0, entries, overwrite, draws, n, w1)
    ensures var x := entries[i].name;
            x in w1.rows && AbsItem(env, CurrentKey(env, w0), x, w1.rows[x]) == Restored(entries[i], draws(i).0)
  {
    WinsItsName(w0, entries, overwrite, n, i);
    assert MergedName(env, w0, entries, overwrite, draws, n, w1, entries[i].name);
  }

  lemma NoEntryNoRow(env: Env, w0: World, entries: seq<Entry>, overwrite: bool, draws: Draws, n: nat, w1: World,
                     x: Bytes)
    requires w0.rows == map[] && n <= |entries| && Merged(env, w0, entries, overwrite, draws, n, w1)
    requires x !in Names(entries[..n])
    ensures x !in w1.rows
  {
    assert MergedName(env, w0, entries, overwrite, draws, n, w1, x);
    forall i | 0 <= i < n ensures entries[i].name in Names(entries[..n]) {
      assert entries[..n][i] == entries[i];
    }
  }

  /** Entries of a well-kept table never collide: the next one is not stopped by the schema, the provider or
      the label, unless its value is empty. */
  lemma NextEntryGoesIn(env: Env, key: Key, rows: Table, entries: seq<Entry>, env2: Env, w0: World, overwrite: bool,
                        draws: Draws, n: nat, w1: World)
    requires WellKept(rows) && Exports(env, key, rows, entries) && n < |entries|
    requires Inv(env2, w1) && w1.vault.Some? && w1.(rows := map[]) == w0.(rows := map[]) && w0.rows == map[]
    requires Merged(env2, w0, entries, overwrite, draws, n, w1)
    ensures var m := ImportOne(env2, w1, entries[n], overwrite, draws(n).0, draws(n).1).1;
            m == if HasValue(entries[n]) then Imported else Aborted(Invalid)
  {
    var e := entries[n];
    NamesSplit(entries, n);
    NoEntryNoRow(env2, w0, entries, overwrite, draws, n, w1, e.name);
    assert ExportedRow(env, key, rows, e) && SoundRow(e.name, rows[e.name]);
    if e.kind.Llm? {
      var d := DraftOf(e);
      forall x | x in w1.rows - {e.name} ensures !HasLabel(w1.rows[x], d.provider, LabelOf(d)) {
        if x !in Names(entries[..n]) { NoEntryNoRow(env2, w0, entries, overwrite, draws, n, w1, x); }
        var i := IndexOf(entries[..n], x);
        EntryShows(env2, w0, entries, overwrite, draws, n, w1, i);
        assert ExportedRow(env, key, rows, entries[i]) && SoundRow(x, rows[x]);
        assert w1.rows[x].llm == rows[x].llm;
        assert !Clash(rows, x, e.name);
      }
    }
  }

  ghost predicate WentIn(p: Progress, entries: seq<Entry>, n: nat)
    requires n <= |entries|
  {
    && (p.failed.None? <==> forall i :: 0 <= i < n ==> HasValue(entries[i]))
    && (p.failed.None? ==> p.counts == Counts(n, 0, 0))
  }

  lemma NextGoesIn(env: Env, key: Key, rows: Table, entries: seq<Entry>, env2: Env, w0: World, overwrite: bool,
                   draws: Draws, n: nat)
    requires WellKept(rows) && Exports(env, key, rows, entries) && n < |entries|
    requires Inv(env2, w0) && w0.vault.Some? && w0.rows == map[]
    requires WentIn(ImportUpTo(env2, w0, entries, overwrite, draws, n), entries, n)
    ensures WentIn(ImportUpTo(env2, w0, entries, overwrite, draws, n + 1), entries, n + 1)
  {
    var p := ImportUpTo(env2, w0, entries, overwrite, draws, n);
    if p.failed.None? {
      NextProgress(env, key, rows, entries, env2, w0, overwrite, draws, n);
      WentInOneMore(p, ImportUpTo(env2, w0, entries, overwrite, draws, n + 1), entries, n);
    } else {
      StopsThere(env2, w0, entries, overwrite, draws, n, n + 1);
    }
  }

  lemma WentInOneMore(p: Progress, p': Progress, entries: seq<Entry>, n: nat)
    requires n < |entries| && p.failed.None? && WentIn(p, entries, n)
    requires p'.failed.None? <==> HasValue(entries[n])
    requires p'.failed.None? ==> p'.counts == p.counts.(imported := p.counts.imported + 1)
    ensures WentIn(p', entries, n + 1)
  {
  }

  lemma NextProgress(env: Env, key: Key, rows: Table, entries: seq<Entry>, env2: Env, w0: World, overwrite: bool,
                     draws: Draws, n: nat)
    requires WellKept(rows) && Exports(env, key, rows, entries) && n < |entries|
    requires Inv(env2, w0) && w0.vault.Some? && w0.rows == map[]
    requires ImportUpTo(env2, w0, entries, overwrite, draws, n).failed.None?
    ensures var p := ImportUpTo(env2, w0, entries, overwrite, draws, n);
            var p' := ImportUpTo(env2, w0, entries, overwrite, draws, n + 1);
            && (p'.failed.None? <==> HasValue(entries[n]))
            && (p'.failed.None? ==> p'.counts == p.counts.(imported := p.counts.imported + 1))
  {
    NextImported(env, key, rows, entries, env2, w0, overwrite, draws, n);
    UpToStep(env2, w0, entries, overwrite, draws, n);
  }

  lemma NextImported(env: Env, key: Key, rows: Table, entries: seq<Entry>, env2: Env, w0: World, overwrite: bool,
                     draws: Draws, n: nat)
    requires WellKept(rows) && Exports(env, key, rows, entries) && n < |entries|
    requires Inv(env2, w0) && w0.vault.Some? && w0.rows == map[]
    requires ImportUpTo(env2, w0, entries, overwrite, draws, n).failed.None?
    ensures var p := ImportUpTo(env2, w0, entries, overwrite, draws, n);
            ImportOne(env2, p.w, entries[n], overwrite, draws(n).0, draws(n).1).1
            == if HasValue(entries[n]) then Imported else Aborted(Invalid)
  {
    ImportMerges(env2, w0, entries, overwrite, draws, n);
    NextEntryGoesIn(env, key, rows, entries, env2, w0, overwrite, draws, n,
                    ImportUpTo(env2, w0, entries, overwrite, draws, n).w);
  }

  lemma {:induction false} AllGoIn(env: Env, key: Key, rows: Table, entries: seq<Entry>, env2: Env, w0: World,
                                   overwrite: bool, draws: Draws, n: nat)
    requires WellKept(rows) && Exports(env, key, rows, entries) && n <= |entries|
    requires Inv(env2, w0) && w0.vault.Some? && w0.rows == map[]
    ensures WentIn(ImportUpTo(env2, w0, entries, overwrite, draws, n), entries, n)
  {
    if n == 0 {
      assert ImportUpTo(env2, w0, entries, overwrite, draws, 0) == Progress(w0, Counts(0, 0, 0), None);
    } else {
      AllGoIn(env, key, rows, entries, env2, w0, overwrite, draws, n - 1);
      NextGoesIn(env, key, rows, entries, env2, w0, overwrite, draws, n - 1);
    }
  }

  /** What of a credential a backup carries. */
  predicate BringsBack(env: Env, key: Key, name: Bytes, c: Credential, env2: Env, key2: Key, c2: Credential) {
    && !c2.deleted
    && c2.kind == c.kind
    && ReadingOf(env, key, c.id, name, c.blob).Clear?
    && ReadingOf(env2, key2, c2.id, name, c2.blob) == ReadingOf(env, key, c.id, name, c.blob)
    && c2.attrs.metadata == c.attrs.metadata
    && c2.attrs.rotationDays == c.attrs.rotationDays
    && c2.llm == c.llm
  }

  /** No live credential holds the empty value, which a change, unlike a creation, may set. */
  ghost predicate NoEmptyValue(env: Env, w: World)
    requires w.vault.Some?
  {
    forall n :: n in Live(w.rows) ==> ReadingOf(env, w.vault.value, w.rows[n].id, n, w.rows[n].blob) != Clear([])
  }

  /** The vault restored to holds the live credentials of `w` and no other, each with its kind, value, metadata,
      rotation period and LLM part, under a key of its own. */
  ghost predicate AllBack(env: Env, w: World, env2: Env, p: Progress)
    requires w.vault.Some? && p.w.vault.Some?
  {
    && p.counts == Counts(|Live(w.rows)|, 0, 0)
    && p.w.rows.Keys == Live(w.rows)
    && forall n :: n in Live(w.rows) ==> BringsBack(env, w.vault.value, n, w.rows[n], env2, p.w.vault.value,
                                                    p.w.rows[n])
  }

  /** Restoring an export into an empty vault goes through exactly when no live credential holds the empty
      value, and then brings everything back. */
  lemma RestoreIntoEmpty(env: Env, w: World, entries: seq<Entry>, env2: Env, w0: World, overwrite: bool, draws: Draws)
    requires w.vault.Some? && WellKept(w.rows) && Exports(env, w.vault.value, w.rows, entries)
    requires Inv(env2, w0) && w0.vault.Some? && w0.rows == map[]
    ensures var p := ImportUpTo(env2, w0, entries, overwrite, draws, |entries|);
            && p.w.vault == w0.vault
            && (p.failed.None? <==> NoEmptyValue(env, w))
            && (p.failed.None? ==> AllBack(env, w, env2, p))
  {
    var key := w.vault.value;
    AllGoIn(env, key, w.rows, entries, env2, w0, overwrite, draws, |entries|);
    ImportMerges(env2, w0, entries, overwrite, draws, |entries|);
    EmptyValues(env, key, w.rows, entries);
    var p := ImportUpTo(env2, w0, entries, overwrite, draws, |entries|);
    if p.failed.None? {
      RowsComeBack(env, key, w.rows, entries, env2, w0, overwrite, draws, p.w);
    }
  }

  /** From one vault through a file into another: the file yields something with its own password only, and what
      it yields restores everything. */
  lemma RestoreFromFile(env: Env, w: World, entries: seq<Entry>, pf: Format<Params>, df: Format<seq<Entry>>,
                        password: string, params: Params, nonce: Bytes, attempt: string,
                        env2: Env, w0: World, overwrite: bool, draws: Draws)
    requires w.vault.Some? && WellKept(w.rows) && Exports(env, w.vault.value, w.rows, entries)
    requires Faithful(pf) && Faithful(df) && |nonce| == NONCE_LEN
    requires WriteFile(pf, df, entries, password, params, nonce).Ok?
    requires Inv(env2, w0) && w0.vault.Some? && w0.rows == map[]
    ensures var read := ReadFile(pf, df, WriteFile(pf, df, entries, password, params, nonce).value, attempt);
            && (read.Ok? <==> attempt == password)
            && (read.Ok? ==>
                  var p := ImportUpTo(env2, w0, read.value, overwrite, draws, |read.value|);
                  && p.w.vault == w0.vault
                  && (p.failed.None? <==> NoEmptyValue(env, w))
                  && (p.failed.None? ==> AllBack(env, w, env2, p)))
  {
    BackupRoundTrip(pf, df, entries, password, params, nonce, attempt);
    RestoreIntoEmpty(env, w, entries, env2, w0, overwrite, draws);
  }

  lemma RowsComeBack(env: Env, key: Key, rows: Table, entries: seq<Entry>, env2: Env, w0: World, overwrite: bool,
                     draws: Draws, w1: World)
    requires WellKept(rows) && Exports(env, key, rows, entries)
    requires Inv(env2, w0) && w0.vault.Some? && w0.rows == map[]
    requires Merged(env2, w0, entries, overwrite, draws, |entries|, w1)
    ensures w1.rows.Keys == Live(rows)
    ensures forall n :: n in Live(rows) ==> BringsBack(env, key, n, rows[n], env2, w0.vault.value, w1.rows[n])
  {
    SameNames(env, key, rows, entries, env2, w0, overwrite, draws, w1);
    ExportIsComplete(env, key, rows, entries);
    forall n | n in Live(rows) ensures BringsBack(env, key, n, rows[n], env2, w0.vault.value, w1.rows[n]) {
      var i := IndexOf(entries, n);
      RowComesBack(env, key, rows, entries, env2, w0, overwrite, draws, w1, i);
    }
  }

  lemma SameNames(env: Env, key: Key, rows: Table, entries: seq<Entry>, env2: Env, w0: World, overwrite: bool,
                  draws: Draws, w1: World)
    requires Exports(env, key, rows, entries) && w0.rows == map[]
    requires Merged(env2, w0, entries, overwrite, draws, |entries|, w1)
    ensures w1.rows.Keys == Live(rows)
  {
    ExportIsComplete(env, key, rows, entries);
    assert entries[..|entries|] == entries;
    forall n | n in Live(rows) ensures n in w1.rows {
      var i := IndexOf(entries, n);
      EntryShows(env2, w0, entries, overwrite, draws, |entries|, w1, i);
    }
    forall n | n in w1.rows ensures n in Live(rows) {
      if n !in Names(entries) { NoEntryNoRow(env2, w0, entries, overwrite, draws, |entries|, w1, n); }
    }
  }

  lemma RowComesBack(env: Env, key: Key, rows: Table, entries: seq<Entry>, env2: Env, w0: World, overwrite: bool,
                     draws: Draws, w1: World, i: nat)
    requires WellKept(rows) && Exports(env, key, rows, entries) && i < |entries|
    requires Inv(env2, w0) && w0.vault.Some? && w0.rows == map[]
    requires Merged(env2, w0, entries, overwrite, draws, |entries|, w1)
    ensures var n := entries[i].name;
            n in rows && n in w1.rows && BringsBack(env, key, n, rows[n], env2, w0.vault.value, w1.rows[n])
  {
    var e := entries[i];
    EntryShows(env2, w0, entries, overwrite, draws, |entries|, w1, i);
    assert ExportedRow(env, key, rows, e) && SoundRow(e.name, rows[e.name]);
    assert AbsItem(env2, w0.vault.value, e.name, w1.rows[e.name]) == Restored(e, draws(i).0);
  }

  lemma EmptyValues(env: Env, key: Key, rows: Table, entries: seq<Entry>)
    requires Exports(env, key, rows, entries)
    ensures (forall i :: 0 <= i < |entries| ==> HasValue(entries[i]))
       <==> forall n :: n in Live(rows) ==> ReadingOf(env, key, rows[n].id, n, rows[n].blob) != Clear([])
  {
    ExportIsComplete(env, key, rows, entries);
    forall i | 0 <= i < |entries|
      ensures entries[i].name in Live(rows)
      ensures ReadingOf(env, key, rows[entries[i].name].id, entries[i].name, rows[entries[i].name].blob)
           == Clear(entries[i].value)
    {
      assert ExportedRow(env, key, rows, entries[i]);
    }
    forall n | n in Live(rows) ensures exists i :: 0 <= i < |entries| && entries[i].name == n {
      assert n in Names(entries);
    }
  }
}
