/** What happens to an operation that has read the store before a password change and takes effect after it
    (keyhub/runtime.py, keyhub/store.py).  Each operation is split where the source lets another one in
    between: `seen` is the state it read, `w` the state it writes to. */
module Races {
  import opened Prelude
  import opened Crypto
  import opened Vault
  import opened PlainStore
  import opened Refinement
  import opened Versions

  // ----- unlock -----

  /** `unlock` checks the password and derives the key from parameters it read in `seen`, and installs the
      vault later, when the store has become `w`. */
  function UnlockSplit(env: Env, seen: World, w: World, password: string): (World, Outcome) {
    if password != seen.pwHash.password then (w, Unlocked(false))
    else (w.(vault := Some(DeriveKey(env, password, seen.params))), Unlocked(true))
  }

  /** The vault installed matches the store if and only if the store still has the parameters and the
      password that were read. */
  lemma UnlockMatchesIff(env: Env, seen: World, w: World, password: string)
    requires Inv(env, w) && password == seen.pwHash.password
    ensures Inv(env, UnlockSplit(env, seen, w, password).0)
       <==> seen.params == w.params && seen.pwHash == w.pwHash
  {
    assert DeriveKey(env, password, seen.params) == CurrentKey(env, w)
      <==> seen.params == w.params && password == w.pwHash.password;
  }

  /** What goes wrong otherwise: when a password change under a new key commits in between, the store is
      unlocked with the old key and not one live credential can be revealed. */
  lemma StaleUnlockIsBlind(env: Env, w: World, op: Op, n: Bytes)
    requires Inv(env, w) && op.ChangePassword? && op.reencrypt && Step(env, w, op).1.Reencrypted?
    requires DeriveKey(env, op.newPassword, op.newParams) != CurrentKey(env, w)
    requires n in w.rows && !w.rows[n].deleted
    ensures var changed := Step(env, w, op).0;
            RevealIn(env, UnlockSplit(env, w, changed, w.pwHash.password).0, n) == Fail(Undecryptable)
  {
    var c := w.rows[n];
    var oldKey, newKey := CurrentKey(env, w), DeriveKey(env, op.newPassword, op.newParams);
    assert Readable(env, oldKey, n, c);
    var v := TryDecrypt(env.codec, oldKey, c.id, n, c.blob).value;
    var a := MakeAad(c.id, n);
    OpensOwnV1(env.codec, newKey, v, a, op.nonces(n, 0), oldKey, Some(a));
    OpensOwnV1(env.codec, newKey, v, a, op.nonces(n, 0), oldKey, None);
  }

  // ----- a password change -----

  /** What a password change reads on its way: in `seen` it verifies the old password, before it takes the write
      lock; in `read`, under the lock, it selects the live rows; `logged` are the identifiers of the log entries
      it finds when it comes to a row.  It writes to `w`, at its commit: until then an operation that has already
      done its encrypting may commit, without asking for the lock. */
  datatype Reads = Reads(seen: World, read: World, logged: Bytes -> set<Bytes>)

  /** The rows that were read are still there. */
  predicate StillThere(read: Table, rows: Table) {
    forall n :: n in Live(read) ==> n in rows && rows[n].id == read[n].id
  }

  /** One row at the commit: the value that was read, and the entries that were found, under the new key. */
  function RekeyedLate(env: Env, oldKey: Key, newKey: Key, n: Bytes, read: Credential, c: Credential,
                       logged: set<Bytes>, nonces: (Bytes, nat) -> Nonce): Credential
    requires Readable(env, oldKey, n, read)
  {
    var v := TryDecrypt(env.codec, oldKey, read.id, n, read.blob).value;
    c.(blob := Encrypt(env.codec, newKey, v, Some(MakeAad(read.id, n)), nonces(n, 0)),
    rotations := seq(|c.rotations|, i requires 0 <= i < |c.rotations| =>
      if c.rotations[i].id in logged
      then RekeyRotation(env, oldKey, newKey, c.id, n, c.rotations[i], nonces(n, i + 1))
      else c.rotations[i]))
  }

  function RekeyTableLate(env: Env, oldKey: Key, newKey: Key, rd: Reads, rows: Table, nonces: (Bytes, nat) -> Nonce)
    : Table
    requires LiveReadable(env, oldKey, rd.read.rows)
  {
    map n | n in rows ::
      if n in Live(rd.read.rows)
      then RekeyedLate(env, oldKey, newKey, n, rd.read.rows[n], rows[n], rd.logged(n), nonces)
      else rows[n]
  }

  function ChangeSplit(env: Env, rd: Reads, w: World, op: Op): (World, Outcome)
    requires op.ChangePassword?
  {
    if rd.seen.vault.None? then (w, Fail(Locked))
    else if |op.newPassword| < MIN_PASSWORD then (w, Fail(PasswordTooShort))
    else if op.oldPassword != rd.seen.pwHash.password then (w, Fail(WrongPassword))
    else if rd.read.vault.None? then (w, Fail(Locked))
    else if op.reencrypt && !LiveReadable(env, rd.read.vault.value, rd.read.rows) then (w, Fail(Undecryptable))
    else if !op.commits || (op.reencrypt && !StillThere(rd.read.rows, w.rows)) then (w, Fail(CommitFailed))
    else
      var newKey := DeriveKey(env, op.newPassword, op.newParams);
      var rows := if op.reencrypt then RekeyTableLate(env, rd.read.vault.value, newKey, rd, w.rows, op.nonces)
                  else w.rows;
      (World(rows, op.newParams, Argon2Hash(op.newPassword), Some(newKey)),
       Reencrypted(if op.reencrypt then |Live(rd.read.rows)| else 0))
  }

  /** Every log entry of the table has been found. */
  predicate AllLogged(rd: Reads, rows: Table) {
    forall n, i :: n in rows && 0 <= i < |rows[n].rotations| ==> rows[n].rotations[i].id in rd.logged(n)
  }

  /** With nothing in between, from the verification or from the selection on, the split change is the change. */
  lemma UndisturbedChange(env: Env, rd: Reads, w: World, op: Op)
    requires op.ChangePassword? && rd.read == w && AllLogged(rd, w.rows)
    ensures rd.seen == w ==> ChangeSplit(env, rd, w, op) == Step(env, w, op)
    ensures rd.seen.vault.Some? && |op.newPassword| >= MIN_PASSWORD && op.oldPassword == rd.seen.pwHash.password ==>
              ChangeSplit(env, rd, w, op) == Step(env, w, op.(oldPassword := w.pwHash.password))
  {
    var newKey := DeriveKey(env, op.newPassword, op.newParams);
    if w.vault.Some? && op.reencrypt && LiveReadable(env, w.vault.value, w.rows) {
      forall n | n in Live(w.rows)
        ensures RekeyedLate(env, w.vault.value, newKey, n, w.rows[n], w.rows[n], rd.logged(n), op.nonces)
             == RekeyCredential(env, w.vault.value, newKey, n, w.rows[n], op.nonces)
      {
        assert RekeyedLate(env, w.vault.value, newKey, n, w.rows[n], w.rows[n], rd.logged(n), op.nonces).rotations
            == RekeyRotations(env, w.vault.value, newKey, n, w.rows[n], op.nonces);
      }
      assert RekeyTableLate(env, w.vault.value, newKey, rd, w.rows, op.nonces)
          == RekeyTable(env, w.vault.value, newKey, w.rows, op.nonces);
    }
  }

  /** A change that passed its checks does what a change starting in `w` would do if and only if the password it
      was given is still the master password, or the store has been locked.  Otherwise it commits under a password
      that is no longer valid; but even then, if nothing has committed since it selected its rows, it keeps every
      live value, and the new password opens the vault. */
  lemma StaleChangeIff(env: Env, rd: Reads, w: World, op: Op)
    requires Inv(env, w) && op.ChangePassword? && op.reencrypt && FreshDraws(env, w, op)
    requires rd.read == w && AllLogged(rd, w.rows)
    requires rd.seen.vault.Some? && |op.newPassword| >= MIN_PASSWORD && op.oldPassword == rd.seen.pwHash.password
    ensures ChangeSplit(env, rd, w, op) == Step(env, w, op)
       <==> op.oldPassword == w.pwHash.password || w.vault.None?
    ensures var (w', o) := ChangeSplit(env, rd, w, op);
            && Inv(env, w')
            && (o.Reencrypted? <==> w.vault.Some? && LiveReadable(env, CurrentKey(env, w), w.rows) && op.commits)
            && (!o.Reencrypted? ==> w' == w)
            && (o.Reencrypted? ==>
                  && w'.rows.Keys == w.rows.Keys
                  && (forall n :: n in Live(w.rows) ==> SameMeaning(env, w, w', n))
                  && Step(env, w'.(vault := None), Unlock(op.newPassword)) == (w', Unlocked(true)))
  {
    var valid := op.(oldPassword := w.pwHash.password);
    UndisturbedChange(env, rd, w, op);
    ChangePasswordAllOrNothing(env, w, valid);
    ChangePasswordRefines(env, w, valid);
  }

  // ----- operations that commit under a password change -----

  /** An entry that the change has found says `x`. */
  predicate FoundSays(env: Env, key: Key, n: Bytes, c: Credential, logged: set<Bytes>, x: Bytes) {
    exists i :: 0 <= i < |c.rotations| && FoundEntrySays(env, key, n, c, logged, i, x)
  }

  predicate FoundEntrySays(env: Env, key: Key, n: Bytes, c: Credential, logged: set<Bytes>, i: nat, x: Bytes)
    requires i < |c.rotations|
  {
    && c.rotations[i].id in logged && c.rotations[i].blob.Some?
    && ReadingOf(env, key, c.id, n, c.rotations[i].blob.value) == Clear(x)
  }

  /** How one entry reads under the new key. */
  lemma RekeyedEntry(env: Env, oldKey: Key, newKey: Key, id: Bytes, n: Bytes, r: Rotation, found: bool, nonce: Nonce)
    requires Lossless(env.codec) && (r.blob.Some? ==> !Mentions(r.blob.value, newKey))
    ensures var r' := if found then RekeyRotation(env, oldKey, newKey, id, n, r, nonce) else r;
            forall x :: AbsVersion(env, newKey, id, n, r').content == Clear(x) <==>
                        found && r.blob.Some? && ReadingOf(env, oldKey, id, n, r.blob.value) == Clear(x)
  {
    if found {
      RekeyedVersion(env, oldKey, newKey, id, n, r, nonce);
    } else if r.blob.Some? {
      StrangerCannotOpen(env.codec, newKey, id, n, r.blob.value);
    }
  }

  lemma RekeyedLateHistory(env: Env, oldKey: Key, newKey: Key, n: Bytes, read: Credential, c: Credential,
                           logged: set<Bytes>, nonces: (Bytes, nat) -> Nonce, x: Bytes)
    requires Lossless(env.codec) && Readable(env, oldKey, n, read) && !CredentialMentions(c, newKey)
    ensures InHistory(AbsItem(env, newKey, n, RekeyedLate(env, oldKey, newKey, n, read, c, logged, nonces)), x)
       <==> FoundSays(env, oldKey, n, c, logged, x)
  {
    var c' := RekeyedLate(env, oldKey, newKey, n, read, c, logged, nonces);
    var h := AbsItem(env, newKey, n, c').history;
    assert |h| == |c.rotations|;
    forall i | 0 <= i < |h| ensures h[i].content == Clear(x) <==> FoundEntrySays(env, oldKey, n, c, logged, i, x) {
      RekeyedEntry(env, oldKey, newKey, c.id, n, c.rotations[i], c.rotations[i].id in logged, nonces(n, i + 1));
    }
  }

  /** Exactly what survives a password change, whatever has committed since it selected its rows: of a row it
      selected, the value it read then and the values of the log entries it found; of any other row, nothing. */
  lemma OverlappedChangeIff(env: Env, rd: Reads, w: World, op: Op, n: Bytes)
    requires Inv(env, rd.read) && op.ChangePassword? && op.reencrypt && FreshDraws(env, w, op)
    requires ChangeSplit(env, rd, w, op).1.Reencrypted? && n in w.rows
    ensures var key, w' := CurrentKey(env, rd.read), ChangeSplit(env, rd, w, op).0;
            && Inv(env, w') && n in w'.rows && w'.rows[n].deleted == w.rows[n].deleted
            && (n in Live(rd.read.rows) ==>
                  Abs(env, w').items[n].content == ReadingOf(env, key, rd.read.rows[n].id, n, rd.read.rows[n].blob))
            && forall x :: Restorable(Abs(env, w').items[n], x) <==>
                           && n in Live(rd.read.rows)
                           && (ReadingOf(env, key, rd.read.rows[n].id, n, rd.read.rows[n].blob) == Clear(x)
                               || FoundSays(env, key, n, w.rows[n], rd.logged(n), x))
  {
    var key, w' := CurrentKey(env, rd.read), ChangeSplit(env, rd, w, op).0;
    var newKey := DeriveKey(env, op.newPassword, op.newParams);
    var it' := Abs(env, w').items[n];
    assert CurrentKey(env, w') == newKey && it' == AbsItem(env, newKey, n, w'.rows[n]);
    if n in Live(rd.read.rows) {
      var read := rd.read.rows[n];
      var v := TryDecrypt(env.codec, key, read.id, n, read.blob).value;
      ReadingOfFresh(env, newKey, read.id, n, v, op.nonces(n, 0));
      forall x ensures InHistory(it', x) <==> FoundSays(env, key, n, w.rows[n], rd.logged(n), x) {
        RekeyedLateHistory(env, key, newKey, n, read, w.rows[n], rd.logged(n), op.nonces, x);
      }
    } else {
      ForgottenItem(env, key, newKey, n, w.rows[n]);
    }
  }

  /** What that costs: an update that commits after the selection is confirmed, shows its value and then loses it.
      The row is back at the value it had before, and all that can be restored is what could be before. */
  lemma UpdateUnderChangeIsLost(env: Env, rd: Reads, op: Op, n: Bytes, ch: Change, rid: Bytes, nonce: Nonce, now: int)
    requires Inv(env, rd.read) && op.ChangePassword? && op.reencrypt && n in Live(rd.read.rows) && ch.value.Some?
    requires rd.read.vault.Some? && AllLogged(rd, rd.read.rows)
    requires var w := UpdateIn(env, rd.read, n, ch, rid, nonce, now).0;
             FreshDraws(env, w, op) && ChangeSplit(env, rd, w, op).1.Reencrypted?
    ensures var w := UpdateIn(env, rd.read, n, ch, rid, nonce, now).0;
            var w' := ChangeSplit(env, rd, w, op).0;
            && RevealIn(env, w, n) == Secret(ch.value.value)
            && n in w'.rows && RevealIn(env, w', n) == RevealIn(env, rd.read, n)
            && forall x :: Restorable(Abs(env, w').items[n], x) <==> Restorable(Abs(env, rd.read).items[n], x)
  {
    var w := UpdateIn(env, rd.read, n, ch, rid, nonce, now).0;
    var w' := ChangeSplit(env, rd, w, op).0;
    var key, read, c := CurrentKey(env, rd.read), rd.read.rows[n], w.rows[n];
    ReadingOfFresh(env, key, read.id, n, ch.value.value, nonce);
    OverlappedChangeIff(env, rd, w, op, n);
    var v := TryDecrypt(env.codec, key, read.id, n, read.blob).value;
    assert c.rotations == read.rotations + [c.rotations[|read.rotations|]];
    assert c.rotations[|read.rotations|].blob == Some(read.blob);
    assert Abs(env, rd.read).items[n] == AbsItem(env, key, n, read);
    forall x ensures v == x || FoundSays(env, key, n, c, rd.logged(n), x)
                <==> Restorable(Abs(env, rd.read).items[n], x) {
      FoundAfterUpdate(env, key, n, read, c, rd.logged(n), x);
    }
  }

  /** An update adds to the log only the value that the row had anyway. */
  lemma FoundAfterUpdate(env: Env, key: Key, n: Bytes, read: Credential, c: Credential, logged: set<Bytes>, x: Bytes)
    requires c.id == read.id && |c.rotations| == |read.rotations| + 1
             && c.rotations[..|read.rotations|] == read.rotations
    requires c.rotations[|read.rotations|].blob == Some(read.blob)
    requires forall i :: 0 <= i < |read.rotations| ==> read.rotations[i].id in logged
    ensures ReadingOf(env, key, read.id, n, read.blob) == Clear(x) || FoundSays(env, key, n, c, logged, x)
       <==> Restorable(AbsItem(env, key, n, read), x)
  {
    var m := |read.rotations|;
    var h := AbsItem(env, key, n, read).history;
    forall i | 0 <= i < m ensures h[i].content == Clear(x) <==> FoundEntrySays(env, key, n, c, logged, i, x) {
      assert c.rotations[..m][i] == c.rotations[i];
    }
    if FoundSays(env, key, n, c, logged, x) {
      var i :| 0 <= i < |c.rotations| && FoundEntrySays(env, key, n, c, logged, i, x);
      if i < m { assert h[i].content == Clear(x); }
    }
    if InHistory(AbsItem(env, key, n, read), x) {
      var i :| 0 <= i < m && h[i].content == Clear(x);
      assert FoundEntrySays(env, key, n, c, logged, i, x);
    }
  }

  // ----- reading -----

  /** A reveal that took the row from `seen` and decrypts under `reader` shows the value if and only if that is
      still the key; otherwise it fails on a credential that is intact. */
  lemma LateRevealIff(env: Env, seen: World, reader: Key, n: Bytes)
    requires n in seen.rows && Readable(env, CurrentKey(env, seen), n, seen.rows[n])
    ensures var c := seen.rows[n];
            Read(env, Some(reader), c.id, n, c.blob).Ok? <==> reader == CurrentKey(env, seen)
    ensures var c := seen.rows[n];
            reader == CurrentKey(env, seen) ==>
              Read(env, Some(reader), c.id, n, c.blob) == TryDecrypt(env.codec, CurrentKey(env, seen), c.id, n, c.blob)
  {
    LegibleUnderItsKey(env, CurrentKey(env, seen), reader, seen.rows[n].id, n, seen.rows[n].blob);
  }

  /** An export that took its rows from `seen`, and decrypts each under the key in force when it comes to it, goes
      through if and only if that was the same key for every live row. */
  lemma LateExportIff(env: Env, seen: World, readers: Bytes -> Key)
    requires LiveReadable(env, CurrentKey(env, seen), seen.rows)
    ensures (forall n :: n in Live(seen.rows) ==> Readable(env, readers(n), n, seen.rows[n]))
       <==> forall n :: n in Live(seen.rows) ==> readers(n) == CurrentKey(env, seen)
  {
    forall n | n in Live(seen.rows)
      ensures Readable(env, readers(n), n, seen.rows[n]) <==> readers(n) == CurrentKey(env, seen)
    {
      LateRevealIff(env, seen, readers(n), n);
    }
  }

  // ----- a value that is written late -----

  /** The row is written to `w` with ciphertexts from before: `blob` becomes its value, `outgoing` a log entry. */
  function WriteLate(w: World, n: Bytes, blob: Bytes, outgoing: Bytes, fingerprint: Option<Fingerprint>,
                     rotationId: Bytes, now: int): World
    requires n in w.rows
  {
    var c := w.rows[n];
    w.(rows := w.rows[n := c.(blob := blob, lastRotatedAt := Some(now),
    rotations := c.rotations + [Rotation(rotationId, fingerprint, Some(outgoing))])])
  }

  /** `update_credential` took the outgoing ciphertext from `seen`, whose value it tried to decrypt with the
      vault `reader`, and encrypted the new value under `sealer`. */
  function LateUpdate(env: Env, seen: World, reader: Option<Key>, sealer: Key, w: World, n: Bytes, ch: Change,
                      rotationId: Bytes, nonce: Nonce, now: int): World
    requires n in seen.rows && n in w.rows && ch.value.Some?
  {
    var c := seen.rows[n];
    var blob := Encrypt(env.codec, sealer, ch.value.value, Some(MakeAad(c.id, n)), nonce);
    var w' := WriteLate(w, n, blob, c.blob, FingerprintOf(Read(env, reader, c.id, n, c.blob)), rotationId, now);
    w'.(rows := w'.rows[n := w'.rows[n].(attrs := Amend(w.rows[n].attrs, ch))])
  }

  /** The ciphertext of the log entry `target`. */
  predicate HasVersion(w: World, n: Bytes, target: Bytes) {
    && n in w.rows && FindRotation(w.rows[n].rotations, target).Some?
    && w.rows[n].rotations[FindRotation(w.rows[n].rotations, target).value].blob.Some?
  }

  function VersionOf(w: World, n: Bytes, target: Bytes): Bytes
    requires HasVersion(w, n, target)
  {
    w.rows[n].rotations[FindRotation(w.rows[n].rotations, target).value].blob.value
  }

  /** `rollback_credential` took the outgoing ciphertext from `seen`, and the target's, with a query of its own,
      from `entry`. */
  function LateRollback(env: Env, seen: World, entry: World, reader: Option<Key>, w: World, n: Bytes, target: Bytes,
                        rotationId: Bytes, now: int): World
    requires n in seen.rows && n in w.rows && HasVersion(entry, n, target)
  {
    var c := seen.rows[n];
    WriteLate(w, n, VersionOf(entry, n, target), c.blob, FingerprintOf(Read(env, reader, c.id, n, c.blob)),
              rotationId, now)
  }

  /** Undisturbed, the split operations are the operations. */
  lemma UndisturbedWrites(env: Env, w: World, n: Bytes, ch: Change, target: Bytes, rid: Bytes, nonce: Nonce, now: int)
    requires n in w.rows
    ensures ch.value.Some? && w.vault.Some? ==>
              UpdateIn(env, w, n, ch, rid, nonce, now)
              == (LateUpdate(env, w, w.vault, w.vault.value, w, n, ch, rid, nonce, now), Done)
    ensures HasVersion(w, n, target) ==>
              RollbackIn(env, w, n, target, rid, now)
              == (LateRollback(env, w, w, w.vault, w, n, target, rid, now), Done)
  {
    if ch.value.Some? && w.vault.Some? {
      var c := w.rows[n];
      var blob := Encrypt(env.codec, w.vault.value, ch.value.value, Some(MakeAad(c.id, n)), nonce);
      assert UpdateIn(env, w, n, ch, rid, nonce, now).0.rows
          == LateUpdate(env, w, w.vault, w.vault.value, w, n, ch, rid, nonce, now).rows;
    }
  }

  /** A blob that is legible under `k` says the same under `k'` if that is the same key, and nothing otherwise. */
  lemma LegibleUnderItsKey(env: Env, k: Key, k': Key, id: Bytes, n: Bytes, blob: Bytes)
    requires ReadingOf(env, k, id, n, blob).Clear?
    ensures ReadingOf(env, k', id, n, blob) == if k' == k then ReadingOf(env, k, id, n, blob) else Garbled
  {
    if TryDecrypt(env.codec, k', id, n, blob).Ok? { OneKeyOpens(env.codec, k, k', id, n, blob); }
  }

  lemma LateWriteShows(env: Env, w: World, n: Bytes, w': World, blob: Bytes, outgoing: Bytes)
    requires n in w.rows && n in w'.rows && w'.(rows := map[]) == w.(rows := map[])
    requires w'.rows[n].id == w.rows[n].id && w'.rows[n].blob == blob
             && |w'.rows[n].rotations| == |w.rows[n].rotations| + 1
    requires w'.rows[n].rotations[..|w.rows[n].rotations|] == w.rows[n].rotations
    requires w'.rows[n].rotations[|w.rows[n].rotations|].blob == Some(outgoing)
    ensures var key, id := CurrentKey(env, w), w.rows[n].id;
            var it, it' := Abs(env, w).items[n], Abs(env, w').items[n];
            && it'.content == ReadingOf(env, key, id, n, blob)
            && forall x :: InHistory(it', x) <==> InHistory(it, x) || ReadingOf(env, key, id, n, outgoing) == Clear(x)
  {
    var key, c, c' := CurrentKey(env, w), w.rows[n], w'.rows[n];
    var h, h' := AbsHistory(env, key, c.id, n, c.rotations), AbsHistory(env, key, c.id, n, c'.rotations);
    assert forall i :: 0 <= i < |h| ==> c'.rotations[..|h|][i] == c'.rotations[i];
    assert forall i :: 0 <= i < |h| ==> h'[i] == h[i];
    assert h'[|h|].content == ReadingOf(env, key, c.id, n, outgoing);
    assert Abs(env, w).items[n] == AbsItem(env, key, n, c) && Abs(env, w').items[n] == AbsItem(env, key, n, c');
  }

  /** A late update.  The new value can be shown if and only if it was encrypted under the key in force at the
      write; the value it replaced stays restorable if and only if the key has not changed since the row was
      read, unless it is also the new value or an older version; nothing else is gained or lost. */
  lemma LateUpdateIff(env: Env, seen: World, reader: Option<Key>, sealer: Key, w: World, n: Bytes, ch: Change,
                      rid: Bytes, nonce: Nonce, now: int)
    requires Inv(env, w) && n in seen.rows && n in w.rows && w.rows[n].id == seen.rows[n].id && ch.value.Some?
    requires Readable(env, CurrentKey(env, seen), n, seen.rows[n])
    ensures var old0 := TryDecrypt(env.codec, CurrentKey(env, seen), seen.rows[n].id, n, seen.rows[n].blob).value;
            var w' := LateUpdate(env, seen, reader, sealer, w, n, ch, rid, nonce, now);
            && (w.vault.Some? && !w.rows[n].deleted ==>
                  (RevealIn(env, w', n) == Secret(ch.value.value) <==> sealer == CurrentKey(env, w))
                  && (sealer != CurrentKey(env, w) ==> RevealIn(env, w', n) == Fail(Undecryptable)))
            && forall x :: Restorable(Abs(env, w').items[n], x) <==>
                           || (x == ch.value.value && sealer == CurrentKey(env, w))
                           || (x == old0 && CurrentKey(env, seen) == CurrentKey(env, w))
                           || InHistory(Abs(env, w).items[n], x)
  {
    var c := seen.rows[n];
    var key, a := CurrentKey(env, w), MakeAad(c.id, n);
    var w' := LateUpdate(env, seen, reader, sealer, w, n, ch, rid, nonce, now);
    var blob := Encrypt(env.codec, sealer, ch.value.value, Some(a), nonce);
    OpensOwnV1(env.codec, sealer, ch.value.value, a, nonce, key, Some(a));
    OpensOwnV1(env.codec, sealer, ch.value.value, a, nonce, key, None);
    LegibleUnderItsKey(env, CurrentKey(env, seen), key, c.id, n, c.blob);
    LateWriteShows(env, w, n, w', blob, c.blob);
  }

  /** A late rollback.  The version rolled back to can be shown if and only if the key has not changed since its
      entry was read, and the value it replaces stays restorable if and only if the key has not changed since the
      row was read, unless they are versions anyway; nothing else is gained or lost. */
  lemma LateRollbackIff(env: Env, seen: World, entry: World, reader: Option<Key>, w: World, n: Bytes, target: Bytes,
                        rid: Bytes, now: int)
    requires Inv(env, w) && n in seen.rows && n in w.rows && w.rows[n].id == seen.rows[n].id
    requires Readable(env, CurrentKey(env, seen), n, seen.rows[n])
    requires HasVersion(entry, n, target) && entry.rows[n].id == seen.rows[n].id
    requires ReadingOf(env, CurrentKey(env, entry), entry.rows[n].id, n, VersionOf(entry, n, target)).Clear?
    ensures var c := seen.rows[n];
            var restored := TryDecrypt(env.codec, CurrentKey(env, entry), c.id, n, VersionOf(entry, n, target)).value;
            var old0 := TryDecrypt(env.codec, CurrentKey(env, seen), c.id, n, c.blob).value;
            var w' := LateRollback(env, seen, entry, reader, w, n, target, rid, now);
            && (w.vault.Some? && !w.rows[n].deleted ==>
                  (RevealIn(env, w', n) == Secret(restored) <==> CurrentKey(env, entry) == CurrentKey(env, w))
                  && (CurrentKey(env, entry) != CurrentKey(env, w) ==> RevealIn(env, w', n) == Fail(Undecryptable)))
            && forall x :: Restorable(Abs(env, w').items[n], x) <==>
                           || (x == restored && CurrentKey(env, entry) == CurrentKey(env, w))
                           || (x == old0 && CurrentKey(env, seen) == CurrentKey(env, w))
                           || InHistory(Abs(env, w).items[n], x)
  {
    var c := seen.rows[n];
    LegibleUnderItsKey(env, CurrentKey(env, seen), CurrentKey(env, w), c.id, n, c.blob);
    LegibleUnderItsKey(env, CurrentKey(env, entry), CurrentKey(env, w), c.id, n, VersionOf(entry, n, target));
    LateWriteShows(env, w, n, LateRollback(env, seen, entry, reader, w, n, target, rid, now),
                   VersionOf(entry, n, target), c.blob);
  }

  /** A credential whose value was encrypted under `sealer` and whose row is committed in `w`, as when a password
      change reads the table before the row is there: it can be revealed if and only if that key is in force. */
  lemma LateCreateIff(env: Env, sealer: Key, w: World, d: Draft, id: Bytes, nonce: Nonce)
    requires Inv(env, w) && w.vault.Some?
    ensures var (w', o) := CreateIn(env, w.(vault := Some(sealer)), d, id, nonce);
            o.Done? ==>
              (RevealIn(env, w'.(vault := w.vault), d.name) == Secret(d.value) <==> sealer == CurrentKey(env, w))
              && (sealer != CurrentKey(env, w) ==> RevealIn(env, w'.(vault := w.vault), d.name) == Fail(Undecryptable))
  {
    var a := MakeAad(id, d.name);
    OpensOwnV1(env.codec, sealer, d.value, a, nonce, CurrentKey(env, w), Some(a));
    OpensOwnV1(env.codec, sealer, d.value, a, nonce, CurrentKey(env, w), None);
  }

  /** A live row across a password change: the same credential, saying the same under the new key. */
  lemma AcrossChange(env: Env, w: World, op: Op, n: Bytes)
    requires Inv(env, w) && op.ChangePassword? && op.reencrypt && FreshDraws(env, w, op)
             && Step(env, w, op).1.Reencrypted?
    requires n in w.rows && !w.rows[n].deleted
    ensures var changed := Step(env, w, op).0;
            && Inv(env, changed) && changed.vault.Some?
            && CurrentKey(env, changed) == DeriveKey(env, op.newPassword, op.newParams)
            && n in changed.rows && changed.rows[n].id == w.rows[n].id && !changed.rows[n].deleted
            && Abs(env, changed).items[n] == Abs(env, w).items[n]
            && Readable(env, CurrentKey(env, w), n, w.rows[n])
  {
    var changed := Step(env, w, op).0;
    ChangePasswordRefines(env, w, op);
    RekeyedItem(env, CurrentKey(env, w), CurrentKey(env, changed), n, w.rows[n], op.nonces);
  }

  /** What that costs when a password change under a new key commits between reading the row and writing it:
      the value that was replaced is lost unless it is also an older version, whichever key the new value was
      encrypted under; under the old key the new value is lost as well. */
  lemma StaleUpdateIsBlind(env: Env, w: World, op: Op, reader: Option<Key>, sealer: Key, n: Bytes, ch: Change,
                           rid: Bytes, nonce: Nonce, now: int)
    requires Inv(env, w) && op.ChangePassword? && op.reencrypt && FreshDraws(env, w, op)
             && Step(env, w, op).1.Reencrypted?
    requires DeriveKey(env, op.newPassword, op.newParams) != CurrentKey(env, w)
    requires n in w.rows && !w.rows[n].deleted && ch.value.Some?
    ensures var changed := Step(env, w, op).0;
            n in changed.rows &&
            var written := LateUpdate(env, w, reader, sealer, changed, n, ch, rid, nonce, now);
            && (sealer == CurrentKey(env, w) ==> RevealIn(env, written, n) == Fail(Undecryptable))
            && forall x :: Restorable(Abs(env, written).items[n], x) <==>
                           || (x == ch.value.value && sealer == CurrentKey(env, changed))
                           || InHistory(Abs(env, w).items[n], x)
  {
    AcrossChange(env, w, op, n);
    LateUpdateIff(env, w, reader, sealer, Step(env, w, op).0, n, ch, rid, nonce, now);
  }
}
