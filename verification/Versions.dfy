/** What runs of the store keep: every value a live credential ever held stays restorable, and a
    password change is all or nothing. */
module Versions {
  import opened Prelude
  import opened Crypto
  import opened Vault
  import opened PlainStore
  import opened Refinement

  // ----- on the plain store -----

  predicate InHistory(it: Item, v: Bytes) {
    exists i :: 0 <= i < |it.history| && it.history[i].content == Clear(v)
  }

  predicate Restorable(it: Item, v: Bytes) {
    it.content == Clear(v) || InHistory(it, v)
  }

  predicate UniqueVersions(it: Item) {
    forall i, j :: 0 <= i < j < |it.history| ==> it.history[i].id != it.history[j].id
  }

  predicate AllUnique(p: Plain) {
    forall n :: n in p.items ==> UniqueVersions(p.items[n])
  }

  /** A newly drawn rotation identifier is not one of the credential's own. */
  predicate FreshVersion(p: Plain, op: Op) {
    (op.Update? || op.Rollback?) && op.name in p.items ==>
      forall i :: 0 <= i < |p.items[op.name].history| ==> p.items[op.name].history[i].id != op.rotationId
  }

  /** Every caller of the password change leaves re-encryption on. */
  predicate Reencrypting(op: Op) {
    op.ChangePassword? ==> op.reencrypt
  }

  lemma StepKeeps(p: Plain, op: Op, n: Bytes)
    requires n in p.items && Reencrypting(op)
    ensures var p' := PStep(p, op).0;
            && n in p'.items
            && (p.items[n].deleted ==> p'.items[n].deleted)
            && (!p'.items[n].deleted ==> forall v :: Restorable(p.items[n], v) ==> Restorable(p'.items[n], v))
  {
    var p' := PStep(p, op).0;
    forall v | Restorable(p.items[n], v) && !p'.items[n].deleted ensures Restorable(p'.items[n], v) {
      var it, it' := p.items[n], p'.items[n];
      assert it'.history == it.history || |it'.history| == |it.history| + 1;
      if it.content == Clear(v) && it'.content != Clear(v) {
        assert it'.history[|it.history|].content == Clear(v);
      } else if it.content != Clear(v) {
        var i :| 0 <= i < |it.history| && it.history[i].content == Clear(v);
        assert it'.history[i] == it.history[i];
      }
    }
  }

  lemma StepKeepsUnique(p: Plain, op: Op)
    requires AllUnique(p) && FreshVersion(p, op)
    ensures AllUnique(PStep(p, op).0)
  {
    var p' := PStep(p, op).0;
    forall n | n in p'.items ensures UniqueVersions(p'.items[n]) {
      if n in p.items {
        assert UniqueVersions(p.items[n]);
      }
    }
  }

  lemma FoundIsUnique(history: seq<Version>, i: nat)
    requires i < |history| && forall j, k :: 0 <= j < k < |history| ==> history[j].id != history[k].id
    ensures FindVersion(history, history[i].id) == Some(i)
  {
  }

  lemma RestoringReveals(p: Plain, n: Bytes, v: Bytes)
    requires n in p.items && !p.items[n].deleted && p.unlocked
    requires UniqueVersions(p.items[n]) && Restorable(p.items[n], v)
    ensures PStep(p, Reveal(n)).1 == Secret(v) || exists target :: RestoredBy(p, n, target, v)
  {
    var it := p.items[n];
    if it.content != Clear(v) {
      var i :| 0 <= i < |it.history| && it.history[i].content == Clear(v);
      FoundIsUnique(it.history, i);
      assert RestoredBy(p, n, it.history[i].id, v);
    }
  }

  predicate RevealsAfter(p: Plain, n: Bytes, target: Bytes, v: Bytes, rid: Bytes, now: int) {
    PStep(PStep(p, Rollback(n, target, rid, now)).0, Reveal(n)).1 == Secret(v)
  }

  ghost predicate RestoredBy(p: Plain, n: Bytes, target: Bytes, v: Bytes) {
    forall rid, now :: RevealsAfter(p, n, target, v, rid, now)
  }

  // ----- on the encrypted store -----

  /** At some point of the run, credential `n` held `v`. */
  ghost predicate EverHeld(env: Env, w: World, ops: seq<Op>, n: Bytes, v: Bytes)
    decreases |ops|
  {
    || (n in w.rows && TryDecrypt(env.codec, CurrentKey(env, w), w.rows[n].id, n, w.rows[n].blob) == Ok(v))
    || (ops != [] && EverHeld(env, Step(env, w, ops[0]).0, ops[1..], n, v))
  }

  ghost predicate OrderlyRun(env: Env, w: World, ops: seq<Op>)
    decreases |ops|
  {
    ops != [] ==>
      && FreshDraws(env, w, ops[0])
      && FreshVersion(Abs(env, w), ops[0])
      && Reencrypting(ops[0])
      && OrderlyRun(env, Step(env, w, ops[0]).0, ops[1..])
  }

  lemma {:induction false} RunKeeps(env: Env, w: World, ops: seq<Op>, n: Bytes, v: Bytes)
    requires Inv(env, w) && AllUnique(Abs(env, w)) && OrderlyRun(env, w, ops)
    ensures var w' := Run(env, w, ops);
            && Inv(env, w') && AllUnique(Abs(env, w'))
            && (n in w.rows ==> n in w'.rows && (w.rows[n].deleted ==> w'.rows[n].deleted))
            && (n in w'.rows && !w'.rows[n].deleted ==>
                  && (n in w.rows && Restorable(Abs(env, w).items[n], v) ==> Restorable(Abs(env, w').items[n], v))
                  && (EverHeld(env, w, ops, n, v) ==> Restorable(Abs(env, w').items[n], v)))
    decreases |ops|
  {
    if ops != [] {
      var w1 := Step(env, w, ops[0]).0;
      StepRefines(env, w, ops[0]);
      StepKeepsUnique(Abs(env, w), ops[0]);
      RunKeeps(env, w1, ops[1..], n, v);
      if n in w.rows {
        StepKeeps(Abs(env, w), ops[0], n);
        assert Abs(env, w).items[n].deleted == w.rows[n].deleted && Abs(env, w1).items[n].deleted == w1.rows[n].deleted;
      }
    }
  }

  function RevealAfterRollback(env: Env, w: World, n: Bytes, target: Bytes, rid: Bytes, now: int): Outcome {
    RevealIn(env, RollbackIn(env, w, n, target, rid, now).0, n)
  }

  ghost predicate OneRollbackAway(env: Env, w: World, n: Bytes, target: Bytes, v: Bytes) {
    forall rid, now :: RevealAfterRollback(env, w, n, target, rid, now) == Secret(v)
  }

  lemma RollbackReveals(env: Env, w: World, n: Bytes, target: Bytes, rid: Bytes, now: int, v: Bytes)
    requires Inv(env, w) && RevealsAfter(Abs(env, w), n, target, v, rid, now)
    ensures RevealAfterRollback(env, w, n, target, rid, now) == Secret(v)
  {
    RollbackRefines(env, w, n, target, rid, now);
    StepRefines(env, RollbackIn(env, w, n, target, rid, now).0, Reveal(n));
  }

  lemma RestorableNow(env: Env, w: World, n: Bytes, v: Bytes)
    requires Inv(env, w) && n in w.rows && !w.rows[n].deleted && w.vault.Some?
    requires UniqueVersions(Abs(env, w).items[n]) && Restorable(Abs(env, w).items[n], v)
    ensures RevealIn(env, w, n) == Secret(v) || exists target :: OneRollbackAway(env, w, n, target, v)
  {
    var p := Abs(env, w);
    assert p.items[n].deleted == w.rows[n].deleted;
    RestoringReveals(p, n, v);
    StepRefines(env, w, Reveal(n));
    if RevealIn(env, w, n) != Secret(v) {
      var target :| RestoredBy(p, n, target, v);
      forall rid, now ensures RevealAfterRollback(env, w, n, target, rid, now) == Secret(v) {
        assert RevealsAfter(p, n, target, v, rid, now);
        RollbackReveals(env, w, n, target, rid, now, v);
      }
      assert OneRollbackAway(env, w, n, target, v);
    }
  }

  /** Every value a credential held at any point of a run, across rotations, rollbacks and password
      changes, is at the end either its value or one rollback away from it. */
  lemma EveryValueRestorable(env: Env, w: World, ops: seq<Op>, n: Bytes, v: Bytes)
    requires Inv(env, w) && AllUnique(Abs(env, w)) && OrderlyRun(env, w, ops)
    requires EverHeld(env, w, ops, n, v)
    ensures var w' := Run(env, w, ops);
            n in w'.rows && !w'.rows[n].deleted && w'.vault.Some? ==>
              RevealIn(env, w', n) == Secret(v) || exists target :: OneRollbackAway(env, w', n, target, v)
  {
    RunKeeps(env, w, ops, n, v);
    var w' := Run(env, w, ops);
    if n in w'.rows && !w'.rows[n].deleted && w'.vault.Some? {
      RestorableNow(env, w', n, v);
    }
  }

  // ----- password change -----

  /** A password change succeeds exactly when its guards hold and every live row is legible; then every
      live value and version reads as before, what was illegible is left byte for byte, deleted rows are
      left alone, and the new password opens the vault.  Otherwise nothing at all has changed. */
  lemma ChangePasswordAllOrNothing(env: Env, w: World, op: Op)
    requires Inv(env, w) && op.ChangePassword? && op.reencrypt && FreshDraws(env, w, op)
    ensures var (w', o) := Step(env, w, op);
            && (o.Reencrypted? <==>
                && w.vault.Some? && |op.newPassword| >= MIN_PASSWORD && op.oldPassword == w.pwHash.password
                && LiveReadable(env, CurrentKey(env, w), w.rows) && op.commits)
            && (!o.Reencrypted? ==> w' == w)
            && (o.Reencrypted? ==>
                  && o.count == |Live(w.rows)|
                  && w'.rows.Keys == w.rows.Keys
                  && (forall n :: n in w.rows && w.rows[n].deleted ==> w'.rows[n] == w.rows[n])
                  && (forall n :: n in Live(w.rows) ==> SameMeaning(env, w, w', n))
                  && Step(env, w'.(vault := None), Unlock(op.newPassword)) == (w', Unlocked(true)))
  {
    var (w', o) := Step(env, w, op);
    if o.Reencrypted? {
      forall n | n in Live(w.rows) ensures SameMeaning(env, w, w', n) {
        RekeyedItem(env, CurrentKey(env, w), CurrentKey(env, w'), n, w.rows[n], op.nonces);
      }
    }
  }

  predicate SameMeaning(env: Env, w: World, w': World, n: Bytes)
    requires n in w.rows && n in w'.rows
  {
    var c, c' := w.rows[n], w'.rows[n];
    && AbsItem(env, CurrentKey(env, w'), n, c') == AbsItem(env, CurrentKey(env, w), n, c)
    && |c'.rotations| == |c.rotations|
    && forall i :: 0 <= i < |c.rotations| && c.rotations[i].blob.Some?
                   && ReadingOf(env, CurrentKey(env, w), c.id, n, c.rotations[i].blob.value).Garbled?
                   ==> c'.rotations[i] == c.rotations[i]
  }

  /** Re-encryption is what keeps the values: with it switched off a password change that goes
      through leaves no credential legible. */
  lemma BlindChangeForgets(env: Env, w: World, op: Op, n: Bytes)
    requires Inv(env, w) && op.ChangePassword? && !op.reencrypt && FreshDraws(env, w, op)
    ensures var (w', o) := Step(env, w, op);
            o.Reencrypted? && n in w.rows ==> forall v :: !Restorable(Abs(env, w').items[n], v)
  {
    ChangePasswordRefines(env, w, op);
  }
}
