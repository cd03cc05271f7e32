/** The encrypted store refines the plaintext versioned store, over every run of operations. */
module Refinement {
  import opened Prelude
  import opened Crypto
  import opened Vault
  import opened PlainStore

  // ----- abstraction -----

  function ReadingOf(env: Env, key: Key, id: Bytes, name: Bytes, blob: Bytes): Reading {
    match TryDecrypt(env.codec, key, id, name, blob)
    case Ok(v) => Clear(v)
    case Err(_) => Garbled
  }

  function AbsVersion(env: Env, key: Key, id: Bytes, name: Bytes, r: Rotation): Version {
    Version(r.id, r.fingerprint, if r.blob.None? then Missing else ReadingOf(env, key, id, name, r.blob.value))
  }

  function AbsHistory(env: Env, key: Key, id: Bytes, name: Bytes, rs: seq<Rotation>): (h: seq<Version>)
    ensures |h| == |rs|
  {
    seq(|rs|, i requires 0 <= i < |rs| => AbsVersion(env, key, id, name, rs[i]))
  }

  function AbsItem(env: Env, key: Key, name: Bytes, c: Credential): Item {
    Item(c.id, c.kind, ReadingOf(env, key, c.id, name, c.blob), c.attrs, c.lastRotatedAt, c.deleted,
         AbsHistory(env, key, c.id, name, c.rotations), c.llm)
  }

  function AbsTable(env: Env, key: Key, rows: Table): (items: map<Bytes, Item>)
    ensures items.Keys == rows.Keys
  {
    map n | n in rows :: AbsItem(env, key, n, rows[n])
  }

  function Abs(env: Env, w: World): Plain {
    Plain(AbsTable(env, CurrentKey(env, w), w.rows), w.pwHash.password, w.vault.Some?)
  }

  // ----- invariant and assumptions -----

  /** An unlocked vault holds the key that the stored parameters and hash stand for. */
  ghost predicate Inv(env: Env, w: World) {
    && Lossless(env.codec)
    && (w.vault.Some? ==> w.vault.value == CurrentKey(env, w))
  }

  predicate CredentialMentions(c: Credential, key: Key) {
    || Mentions(c.blob, key)
    || exists i :: 0 <= i < |c.rotations| && c.rotations[i].blob.Some? && Mentions(c.rotations[i].blob.value, key)
  }

  /** The salt of a password change is newly drawn: nothing stored was sealed under the new key. */
  ghost predicate FreshDraws(env: Env, w: World, op: Op) {
    op.ChangePassword? ==>
      forall n :: n in w.rows ==> !CredentialMentions(w.rows[n], DeriveKey(env, op.newPassword, op.newParams))
  }

  // ----- one step -----

  lemma ReadingOfFresh(env: Env, key: Key, id: Bytes, name: Bytes, v: Bytes, nonce: Nonce)
    requires Lossless(env.codec)
    ensures ReadingOf(env, key, id, name, Encrypt(env.codec, key, v, Some(MakeAad(id, name)), nonce)) == Clear(v)
  {
    OpensOwnV1(env.codec, key, v, MakeAad(id, name), nonce, key, Some(MakeAad(id, name)));
  }

  lemma AbsTableUpdate(env: Env, key: Key, rows: Table, name: Bytes, c: Credential)
    ensures AbsTable(env, key, rows[name := c]) == AbsTable(env, key, rows)[name := AbsItem(env, key, name, c)]
  {
  }

  lemma FindCorresponds(env: Env, key: Key, id: Bytes, name: Bytes, rs: seq<Rotation>, target: Bytes)
    ensures FindVersion(AbsHistory(env, key, id, name, rs), target) == FindRotation(rs, target)
  {
    if rs != [] {
      FindCorresponds(env, key, id, name, rs[1..], target);
      assert AbsHistory(env, key, id, name, rs)[1..] == AbsHistory(env, key, id, name, rs[1..]);
    }
  }

  lemma RotateCorresponds(env: Env, w: World, name: Bytes, c: Credential, blob: Bytes, rid: Bytes, now: int)
    requires Inv(env, w)
    ensures var key := CurrentKey(env, w);
            AbsItem(env, key, name, Rotate(env, w.vault, name, c, blob, rid, now))
            == Replace(AbsItem(env, key, name, c), ReadingOf(env, key, c.id, name, blob), w.vault.Some?, rid, now)
  {
    var key := CurrentKey(env, w);
    var r := Rotation(rid, FingerprintOf(Read(env, w.vault, c.id, name, c.blob)), Some(c.blob));
    assert AbsHistory(env, key, c.id, name, c.rotations + [r])
        == AbsHistory(env, key, c.id, name, c.rotations) + [AbsVersion(env, key, c.id, name, r)];
  }

  lemma CreateRefines(env: Env, w: World, d: Draft, id: Bytes, nonce: Nonce)
    requires Inv(env, w)
    ensures var (w', o) := CreateIn(env, w, d, id, nonce);
            Inv(env, w') && (Abs(env, w'), o) == PStep(Abs(env, w), Create(d, id, nonce))
  {
    var key := CurrentKey(env, w);
    assert Taken(w.rows, d.provider, LabelOf(d)) <==> LabelUsed(Abs(env, w).items, d.provider, LabelOf(d)) by {
      forall n | n in w.rows
        ensures HasLabel(w.rows[n], d.provider, LabelOf(d)) <==>
                && Abs(env, w).items[n].llm.Some? && Abs(env, w).items[n].llm.value.provider == d.provider
                && Abs(env, w).items[n].llm.value.keyLabel == LabelOf(d)
      {
        assert Abs(env, w).items[n] == AbsItem(env, key, n, w.rows[n]);
      }
    }
    if w.vault.Some? {
      var c := NewCredential(env, key, d, id, nonce);
      AbsTableUpdate(env, key, w.rows, d.name, c);
      ReadingOfFresh(env, key, id, d.name, d.value, nonce);
      assert AbsHistory(env, key, id, d.name, []) == [];
    }
  }

  lemma UpdateRefines(env: Env, w: World, name: Bytes, ch: Change, rid: Bytes, nonce: Nonce, now: int)
    requires Inv(env, w)
    ensures var (w', o) := UpdateIn(env, w, name, ch, rid, nonce, now);
            Inv(env, w') && (Abs(env, w'), o) == PStep(Abs(env, w), Update(name, ch, rid, nonce, now))
  {
    if name in w.rows {
      var key, c := CurrentKey(env, w), w.rows[name];
      var (w', o) := UpdateIn(env, w, name, ch, rid, nonce, now);
      AbsTableUpdate(env, key, w.rows, name, w'.rows[name]);
      if ch.value.Some? && w.vault.Some? {
        var blob := Encrypt(env.codec, key, ch.value.value, Some(MakeAad(c.id, name)), nonce);
        RotateCorresponds(env, w, name, c, blob, rid, now);
        ReadingOfFresh(env, key, c.id, name, ch.value.value, nonce);
      }
    }
  }

  lemma RollbackRefines(env: Env, w: World, name: Bytes, target: Bytes, rid: Bytes, now: int)
    requires Inv(env, w)
    ensures var (w', o) := RollbackIn(env, w, name, target, rid, now);
            Inv(env, w') && (Abs(env, w'), o) == PStep(Abs(env, w), Rollback(name, target, rid, now))
  {
    if name in w.rows {
      var key, c := CurrentKey(env, w), w.rows[name];
      FindCorresponds(env, key, c.id, name, c.rotations, target);
      var found := FindRotation(c.rotations, target);
      if found.Some? && c.rotations[found.value].blob.Some? {
        var blob := c.rotations[found.value].blob.value;
        RotateCorresponds(env, w, name, c, blob, rid, now);
        AbsTableUpdate(env, key, w.rows, name, Rotate(env, w.vault, name, c, blob, rid, now));
      }
    }
  }

  // ----- the password change, row by row -----

  lemma RekeyedVersion(env: Env, oldKey: Key, newKey: Key, id: Bytes, name: Bytes, r: Rotation, nonce: Nonce)
    requires Lossless(env.codec)
    requires r.blob.Some? ==> !Mentions(r.blob.value, newKey)
    ensures AbsVersion(env, newKey, id, name, RekeyRotation(env, oldKey, newKey, id, name, r, nonce))
         == AbsVersion(env, oldKey, id, name, r)
  {
    if r.blob.Some? {
      StrangerCannotOpen(env.codec, newKey, id, name, r.blob.value);
      var v := TryDecrypt(env.codec, oldKey, id, name, r.blob.value);
      if v.Ok? { ReadingOfFresh(env, newKey, id, name, v.value, nonce); }
    }
  }

  /** Re-encryption preserves what every value and every version of a credential says: legible ones
      keep their plaintext, illegible ones stay illegible. */
  lemma RekeyedItem(env: Env, oldKey: Key, newKey: Key, name: Bytes, c: Credential, nonces: (Bytes, nat) -> Nonce)
    requires Lossless(env.codec) && Readable(env, oldKey, name, c) && !CredentialMentions(c, newKey)
    ensures AbsItem(env, newKey, name, RekeyCredential(env, oldKey, newKey, name, c, nonces))
         == AbsItem(env, oldKey, name, c)
  {
    var v := TryDecrypt(env.codec, oldKey, c.id, name, c.blob).value;
    ReadingOfFresh(env, newKey, c.id, name, v, nonces(name, 0));
    var c' := RekeyCredential(env, oldKey, newKey, name, c, nonces);
    forall i | 0 <= i < |c.rotations|
      ensures AbsVersion(env, newKey, c.id, name, c'.rotations[i])
           == AbsVersion(env, oldKey, c.id, name, c.rotations[i])
    {
      RekeyedVersion(env, oldKey, newKey, c.id, name, c.rotations[i], nonces(name, i + 1));
    }
    assert AbsHistory(env, newKey, c.id, name, c'.rotations) == AbsHistory(env, oldKey, c.id, name, c.rotations);
  }

  /** A row that is not re-encrypted becomes illegible, all of it. */
  lemma ForgottenItem(env: Env, oldKey: Key, newKey: Key, name: Bytes, c: Credential)
    requires !CredentialMentions(c, newKey)
    ensures AbsItem(env, newKey, name, c) == ForgetItem(AbsItem(env, oldKey, name, c))
  {
    StrangerCannotOpen(env.codec, newKey, c.id, name, c.blob);
    var h := ForgetItem(AbsItem(env, oldKey, name, c)).history;
    forall i | 0 <= i < |c.rotations| ensures AbsVersion(env, newKey, c.id, name, c.rotations[i]) == h[i] {
      if c.rotations[i].blob.Some? {
        StrangerCannotOpen(env.codec, newKey, c.id, name, c.rotations[i].blob.value);
      }
    }
    assert AbsHistory(env, newKey, c.id, name, c.rotations) == h;
  }

  lemma LiveCorresponds(env: Env, key: Key, rows: Table)
    ensures LiveItems(AbsTable(env, key, rows)) == Live(rows)
    ensures LiveReadable(env, key, rows) <==>
            forall n :: n in LiveItems(AbsTable(env, key, rows)) ==> AbsTable(env, key, rows)[n].content.Clear?
  {
    var items := AbsTable(env, key, rows);
    assert LiveItems(items) == Live(rows);
    forall n | n in Live(rows) ensures items[n].content.Clear? <==> Readable(env, key, n, rows[n]) {
      assert items[n] == AbsItem(env, key, n, rows[n]);
    }
    if LiveReadable(env, key, rows) {
      forall n | n in LiveItems(items) ensures items[n].content.Clear? {}
    }
    if forall n :: n in LiveItems(items) ==> items[n].content.Clear? {
      forall n | n in rows && !rows[n].deleted ensures Readable(env, key, n, rows[n]) {
        assert n in LiveItems(items);
      }
    }
  }

  /** One row under the new key: re-encrypted, or forgotten. */
  lemma ChangedItem(env: Env, oldKey: Key, newKey: Key, n: Bytes, c: Credential, kept: bool,
                    nonces: (Bytes, nat) -> Nonce)
    requires Lossless(env.codec) && !CredentialMentions(c, newKey) && (kept ==> Readable(env, oldKey, n, c))
    ensures AbsItem(env, newKey, n, if kept then RekeyCredential(env, oldKey, newKey, n, c, nonces) else c)
         == if kept then AbsItem(env, oldKey, n, c) else ForgetItem(AbsItem(env, oldKey, n, c))
  {
    if kept { RekeyedItem(env, oldKey, newKey, n, c, nonces); } else { ForgottenItem(env, oldKey, newKey, n, c); }
  }

  /** The table under the new key. */
  lemma ChangedTable(env: Env, oldKey: Key, newKey: Key, rows: Table, reencrypt: bool, nonces: (Bytes, nat) -> Nonce)
    requires Lossless(env.codec) && forall n :: n in rows ==> !CredentialMentions(rows[n], newKey)
    requires reencrypt ==> LiveReadable(env, oldKey, rows)
    ensures AbsTable(env, newKey, if reencrypt then RekeyTable(env, oldKey, newKey, rows, nonces) else rows)
         == CarryOver(AbsTable(env, oldKey, rows), reencrypt)
  {
    var rows' := if reencrypt then RekeyTable(env, oldKey, newKey, rows, nonces) else rows;
    forall n | n in rows
      ensures AbsItem(env, newKey, n, rows'[n])
           == if reencrypt && !rows[n].deleted then AbsItem(env, oldKey, n, rows[n])
              else ForgetItem(AbsItem(env, oldKey, n, rows[n]))
    {
      ChangedItem(env, oldKey, newKey, n, rows[n], reencrypt && !rows[n].deleted, nonces);
    }
    SameTable(env, oldKey, newKey, rows, rows', reencrypt);
  }

  lemma SameTable(env: Env, oldKey: Key, newKey: Key, rows: Table, rows': Table, reencrypt: bool)
    requires rows'.Keys == rows.Keys
    requires forall n :: n in rows ==>
                           AbsItem(env, newKey, n, rows'[n])
                           == if reencrypt && !rows[n].deleted then AbsItem(env, oldKey, n, rows[n])
                           else ForgetItem(AbsItem(env, oldKey, n, rows[n]))
    ensures AbsTable(env, newKey, rows') == CarryOver(AbsTable(env, oldKey, rows), reencrypt)
  {
    var a, b := AbsTable(env, newKey, rows'), CarryOver(AbsTable(env, oldKey, rows), reencrypt);
    assert a.Keys == b.Keys;
    forall n | n in rows ensures a[n] == b[n] {
      assert AbsTable(env, oldKey, rows)[n] == AbsItem(env, oldKey, n, rows[n]);
    }
  }

  lemma ChangePasswordRefines(env: Env, w: World, op: Op)
    requires Inv(env, w) && op.ChangePassword? && FreshDraws(env, w, op)
    ensures var (w', o) := Step(env, w, op);
            Inv(env, w') && (Abs(env, w'), o) == PStep(Abs(env, w), op)
  {
    var oldKey, newKey := CurrentKey(env, w), DeriveKey(env, op.newPassword, op.newParams);
    LiveCorresponds(env, oldKey, w.rows);
    if Step(env, w, op).1.Reencrypted? {
      ChangedTable(env, oldKey, newKey, w.rows, op.reencrypt, op.nonces);
    }
  }

  /** Every operation on the encrypted store has the outcome and the effect it has on the plain one. */
  lemma StepRefines(env: Env, w: World, op: Op)
    requires Inv(env, w) && FreshDraws(env, w, op)
    ensures var (w', o) := Step(env, w, op);
            Inv(env, w') && (Abs(env, w'), o) == PStep(Abs(env, w), op)
  {
    match op
    case Create(d, id, nonce) => CreateRefines(env, w, d, id, nonce);
    case Update(name, ch, rid, nonce, now) => UpdateRefines(env, w, name, ch, rid, nonce, now);
    case Rollback(name, target, rid, now) => RollbackRefines(env, w, name, target, rid, now);
    case Delete(name) =>
      if name in w.rows {
        AbsTableUpdate(env, CurrentKey(env, w), w.rows, name, w.rows[name].(deleted := true));
      }
    case Reveal(name) =>
    case Lock =>
    case Unlock(password) =>
    case ChangePassword(_, _, _, _, _, _) => ChangePasswordRefines(env, w, op);
  }

  // ----- runs -----

  function Run(env: Env, w: World, ops: seq<Op>): World
    decreases |ops|
  {
    if ops == [] then w else Run(env, Step(env, w, ops[0]).0, ops[1..])
  }

  function Outcomes(env: Env, w: World, ops: seq<Op>): seq<Outcome>
    decreases |ops|
  {
    if ops == [] then [] else [Step(env, w, ops[0]).1] + Outcomes(env, Step(env, w, ops[0]).0, ops[1..])
  }

  function POutcomes(p: Plain, ops: seq<Op>): seq<Outcome>
    decreases |ops|
  {
    if ops == [] then [] else [PStep(p, ops[0]).1] + POutcomes(PStep(p, ops[0]).0, ops[1..])
  }

  ghost predicate FreshRun(env: Env, w: World, ops: seq<Op>)
    decreases |ops|
  {
    ops != [] ==> FreshDraws(env, w, ops[0]) && FreshRun(env, Step(env, w, ops[0]).0, ops[1..])
  }

  /** Over any run, re-keyings included, the encrypted store shows exactly what the plain store shows. */
  lemma {:induction false} RunRefines(env: Env, w: World, ops: seq<Op>)
    requires Inv(env, w) && FreshRun(env, w, ops)
    ensures Inv(env, Run(env, w, ops))
    ensures Abs(env, Run(env, w, ops)) == PRun(Abs(env, w), ops)
    ensures Outcomes(env, w, ops) == POutcomes(Abs(env, w), ops)
    decreases |ops|
  {
    if ops != [] {
      StepRefines(env, w, ops[0]);
      RunRefines(env, Step(env, w, ops[0]).0, ops[1..]);
    }
  }
}
