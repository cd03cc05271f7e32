/** What each operation of the credential store (keyhub/store.py) does, field by field: stated of the row that is
    there afterwards, of the same item of the plaintext store, and of everything else. */
module Operations {
  import opened Prelude
  import opened Crypto
  import opened Vault
  import opened PlainStore

  /** Only the row of `name` differs. */
  ghost predicate OnlyRow(w: World, w': World, name: Bytes) {
    && name in w'.rows
    && (forall n :: n != name ==> (n in w'.rows <==> n in w.rows))
    && (forall n :: n != name && n in w.rows ==> w'.rows[n] == w.rows[n])
    && w'.params == w.params && w'.pwHash == w.pwHash && w'.vault == w.vault
  }

  /** A field that is given is what is held then; one that is not is as before. */
  predicate Amended(before: Attributes, after: Attributes, ch: Change) {
    && (ch.metadata.Some? ==> after.metadata == ch.metadata.value)
    && (ch.metadata.None? ==> after.metadata == before.metadata)
    && (ch.expiresAt.Some? ==> after.expiresAt == Some(ch.expiresAt.value))
    && (ch.expiresAt.None? ==> after.expiresAt == before.expiresAt)
    && (ch.rotationDays.Some? ==> after.rotationDays == Some(ch.rotationDays.value))
    && (ch.rotationDays.None? ==> after.rotationDays == before.rotationDays)
    && (ch.tags.Some? ==> after.tags == ch.tags.value)
    && (ch.tags.None? ==> after.tags == before.tags)
  }

  /** The one log entry that a rotation adds: the outgoing ciphertext, with the fingerprint of what it said. */
  predicate Logs(env: Env, vault: Option<Key>, name: Bytes, c: Credential, c': Credential, rotationId: Bytes) {
    && |c'.rotations| == |c.rotations| + 1
    && (forall i :: 0 <= i < |c.rotations| ==> c'.rotations[i] == c.rotations[i])
    && var r := c'.rotations[|c.rotations|];
    && r.id == rotationId && r.blob == Some(c.blob)
    && (r.fingerprint.Some? <==> vault.Some? && TryDecrypt(env.codec, vault.value, c.id, name, c.blob).Ok?)
    && (r.fingerprint.Some? ==>
          r.fingerprint.value.value == TryDecrypt(env.codec, vault.value, c.id, name, c.blob).value)
  }

  /** The value under the vault's key, bound to "id:name". */
  predicate Sealed(env: Env, w: World, blob: Bytes, value: Bytes, id: Bytes, name: Bytes, nonce: Nonce) {
    w.vault.Some? && blob == Encrypt(env.codec, w.vault.value, value, Some(id + [COLON] + name), nonce)
  }

  predicate Legible(env: Env, w: World, n: Bytes)
    requires n in w.rows
  {
    w.vault.Some? && TryDecrypt(env.codec, w.vault.value, w.rows[n].id, n, w.rows[n].blob).Ok?
  }

  // ----- update and rotation -----

  lemma UpdateFields(env: Env, w: World, name: Bytes, ch: Change, rid: Bytes, nonce: Nonce, now: int)
    ensures var (w', o) := UpdateIn(env, w, name, ch, rid, nonce, now);
            && (o == Fail(NotFound) <==> name !in w.rows)
            && (o == Fail(Locked) <==> name in w.rows && ch.value.Some? && w.vault.None?)
            && (o == Done || o == Fail(NotFound) || o == Fail(Locked))
            && (o != Done ==> w' == w)
            && (o == Done ==>
                  && OnlyRow(w, w', name)
                  && var c, c' := w.rows[name], w'.rows[name];
                  && c'.id == c.id && c'.kind == c.kind && c'.llm == c.llm && c'.deleted == c.deleted
                  && Amended(c.attrs, c'.attrs, ch)
                  && (ch.value.None? ==> c'.blob == c.blob && c'.lastRotatedAt == c.lastRotatedAt)
                  && (ch.value.None? ==> c'.rotations == c.rotations)
                  && (ch.value.Some? ==> c'.lastRotatedAt == Some(now) && Logs(env, w.vault, name, c, c', rid))
                  && (ch.value.Some? ==> w.vault.Some?)
                  && (ch.value.Some? ==>
                        Sealed(env, w, c'.blob, ch.value.value, c.id, name, nonce)))
  {
  }

  lemma UpdateAmends(env: Env, w: World, name: Bytes, ch: Change, rid: Bytes, nonce: Nonce, now: int)
    ensures var (w', o) := UpdateIn(env, w, name, ch, rid, nonce, now);
            o == Done ==> name in w.rows && name in w'.rows && Amended(w.rows[name].attrs, w'.rows[name].attrs, ch)
  {
    UpdateFields(env, w, name, ch, rid, nonce, now);
  }

  lemma PlainUpdateFields(p: Plain, name: Bytes, ch: Change, rid: Bytes, nonce: Nonce, now: int)
    ensures var (p', o) := PStep(p, Update(name, ch, rid, nonce, now));
            && (o != Done ==> p' == p)
            && (o == Done ==>
                  && name in p.items && p'.items.Keys == p.items.Keys
                  && (forall n :: n in p.items && n != name ==> p'.items[n] == p.items[n])
                  && var it, it' := p.items[name], p'.items[name];
                  && it'.id == it.id && it'.kind == it.kind && it'.llm == it.llm && it'.deleted == it.deleted
                  && Amended(it.attrs, it'.attrs, ch)
                  && (ch.value.None? ==> it'.content == it.content && it'.history == it.history)
                  && (ch.value.Some? ==> it'.content == Clear(ch.value.value))
                  && (ch.value.Some? ==> |it'.history| == |it.history| + 1)
                  && (ch.value.Some? ==> it'.history[|it.history|].content == it.content)
                  && (ch.value.Some? ==> it'.history[..|it.history|] == it.history))
  {
  }

  /** A rotation changes the value, its time and the log, and no attribute. */
  lemma RotationKeepsAttributes(env: Env, w: World, name: Bytes, value: Bytes, rid: Bytes, nonce: Nonce, now: int)
    ensures var (w', o) := UpdateIn(env, w, name, Change(Some(value), None, None, None, None), rid, nonce, now);
            o == Done ==> name in w.rows && name in w'.rows && w'.rows[name].attrs == w.rows[name].attrs
  {
    UpdateFields(env, w, name, Change(Some(value), None, None, None, None), rid, nonce, now);
  }

  // ----- creation -----

  /** Another credential has an LLM part with this provider and label. */
  predicate LabelInUse(rows: Table, provider: Bytes, keyLabel: Bytes) {
    exists n :: n in rows && InUseBy(rows[n], provider, keyLabel)
  }

  predicate InUseBy(c: Credential, provider: Bytes, keyLabel: Bytes) {
    match c.llm
    case None => false
    case Some(l) => l.provider == provider && l.keyLabel == keyLabel
  }

  predicate LlmPartOf(d: Draft, llm: Option<LlmKey>) {
    && (llm.Some? <==> d.kind.Llm?)
    && (llm.Some? ==>
          && llm.value.provider == d.provider && llm.value.allowedModels == d.allowedModels
          && llm.value.priority == d.priority
          && (d.keyLabel != [] ==> llm.value.keyLabel == d.keyLabel)
          && (d.keyLabel == [] ==> llm.value.keyLabel == d.name))
  }

  lemma SameUse(rows: Table, provider: Bytes, keyLabel: Bytes)
    ensures Taken(rows, provider, keyLabel) <==> LabelInUse(rows, provider, keyLabel)
  {
    forall n | n in rows ensures HasLabel(rows[n], provider, keyLabel) <==> InUseBy(rows[n], provider, keyLabel) {}
  }

  lemma CreateFields(env: Env, w: World, d: Draft, id: Bytes, nonce: Nonce)
    ensures var (w', o) := CreateIn(env, w, d, id, nonce);
            var used := d.kind.Llm? && LabelInUse(w.rows, d.provider, if d.keyLabel == [] then d.name else d.keyLabel);
            && (o == Fail(AlreadyExists) <==> d.name in w.rows)
            && (o == Fail(Locked) <==> d.name !in w.rows && w.vault.None?)
            && (o == Fail(MissingProvider) <==> d.name !in w.rows && w.vault.Some? && d.kind.Llm? && d.provider == [])
            && (o == Fail(LabelTaken) <==>
                d.name !in w.rows && w.vault.Some? && d.kind.Llm? && d.provider != [] && used)
            && (o != Done ==> w' == w && o.Fail?)
            && (o == Done ==>
                  && OnlyRow(w, w', d.name) && d.name !in w.rows && w.vault.Some?
                  && var c := w'.rows[d.name];
                  && c.id == id && c.kind == d.kind && c.attrs == d.attrs && LlmPartOf(d, c.llm)
                  && c.lastRotatedAt == None && !c.deleted && c.rotations == []
                  && Sealed(env, w, c.blob, d.value, id, d.name, nonce))
  {
    SameUse(w.rows, d.provider, if d.keyLabel == [] then d.name else d.keyLabel);
  }

  // ----- rollback, deletion, reveal -----

  lemma RollbackFields(env: Env, w: World, name: Bytes, target: Bytes, rid: Bytes, now: int)
    ensures var (w', o) := RollbackIn(env, w, name, target, rid, now);
            && (o == Fail(NotFound) <==> name !in w.rows)
            && (o == Fail(NoSuchRotation) <==>
                name in w.rows && forall r :: r in w.rows[name].rotations ==> r.id != target)
            && (o == Done || o == Fail(NotFound) || o == Fail(NoSuchRotation) || o == Fail(NoStoredValue))
            && (o == Fail(NoStoredValue) ==>
                  exists r :: r in w.rows[name].rotations && r.id == target && r.blob.None?)
            && (o != Done ==> w' == w)
            && (o == Done ==>
                  && OnlyRow(w, w', name)
                  && var c, c' := w.rows[name], w'.rows[name];
                  && c'.id == c.id && c'.kind == c.kind && c'.llm == c.llm && c'.deleted == c.deleted
                  && c'.attrs == c.attrs && c'.lastRotatedAt == Some(now) && Logs(env, w.vault, name, c, c', rid)
                  && exists r :: r in c.rotations && r.id == target && r.blob == Some(c'.blob))
  {
    if name in w.rows {
      var found := FindRotation(w.rows[name].rotations, target);
      if found.Some? { assert w.rows[name].rotations[found.value] in w.rows[name].rotations; }
    }
  }

  lemma DeleteFields(w: World, name: Bytes)
    ensures var (w', o) := DeleteIn(w, name);
            && (o == Fail(NotFound) <==> name !in w.rows) && (o == Fail(NotFound) || o == Done)
            && (o != Done ==> w' == w)
            && (o == Done ==>
                  && OnlyRow(w, w', name)
                  && var c, c' := w.rows[name], w'.rows[name];
                  && c'.deleted && c'.id == c.id && c'.kind == c.kind && c'.llm == c.llm && c'.blob == c.blob
                  && c'.attrs == c.attrs && c'.lastRotatedAt == c.lastRotatedAt && c'.rotations == c.rotations)
  {
  }

  lemma RevealOutcome(env: Env, w: World, name: Bytes, v: Bytes)
    ensures var o := RevealIn(env, w, name);
            && (o == Fail(NotFound) <==> name !in w.rows || w.rows[name].deleted)
            && (o == Fail(Locked) <==> name in w.rows && !w.rows[name].deleted && w.vault.None?)
            && (o == Secret(v) <==>
                && name in w.rows && !w.rows[name].deleted && w.vault.Some?
                && TryDecrypt(env.codec, w.vault.value, w.rows[name].id, name, w.rows[name].blob) == Ok(v))
            && (o.Secret? || (o.Fail? && (o.reason == NotFound || o.reason == Locked || o.reason == Undecryptable)))
  {
  }

  // ----- unlocking and the master password -----

  /** The key depends on all of password, parameters and pepper. */
  lemma KeyDependsOnAll(e: Env, password: string, params: Params, e': Env, password': string, params': Params)
    ensures DeriveKey(e, password, params) == DeriveKey(e', password', params')
       <==> password == password' && params == params' && e.pepper == e'.pepper
  {
  }

  lemma UnlockFields(env: Env, w: World, password: string)
    ensures var (w', o) := UnlockIn(env, w, password);
            && o == Unlocked(password == w.pwHash.password)
            && w'.rows == w.rows && w'.params == w.params && w'.pwHash == w.pwHash
            && (password != w.pwHash.password ==> w'.vault == w.vault)
            && (password == w.pwHash.password ==> w'.vault == Some(Key(password, w.params, env.pepper)))
  {
  }

  /** Which guard a password change fails, in the order in which they are looked at. */
  lemma ChangePasswordGuards(env: Env, w: World, oldPassword: string, newPassword: string, newParams: Params,
                             reencrypt: bool, commits: bool, nonces: (Bytes, nat) -> Nonce)
    ensures var (w', o) := ChangePasswordIn(env, w, oldPassword, newPassword, newParams, reencrypt, commits, nonces);
            var open := w.vault.Some?;
            var long := |newPassword| >= 8;
            var right := oldPassword == w.pwHash.password;
            var legible := reencrypt ==> forall n :: n in w.rows && !w.rows[n].deleted ==> Legible(env, w, n);
            && (o == Fail(Locked) <==> !open)
            && (o == Fail(PasswordTooShort) <==> open && !long)
            && (o == Fail(WrongPassword) <==> open && long && !right)
            && (o == Fail(Undecryptable) <==> open && long && right && !legible)
            && (o == Fail(CommitFailed) <==> open && long && right && legible && !commits)
            && (o.Reencrypted? <==> open && long && right && legible && commits)
            && (!o.Reencrypted? ==> w' == w && o.Fail?)
            && (o.Reencrypted? ==>
                  && w'.params == newParams && w'.pwHash.password == newPassword
                  && w'.vault == Some(Key(newPassword, newParams, env.pepper)))
  {
  }
}
