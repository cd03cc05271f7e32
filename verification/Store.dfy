/** The credential operations of keyhub/store.py.  Each is one transaction: it works on a copy of the
    row and writes the table back only when it reaches its end. */
module Store {
  import opened Prelude
  import opened Crypto
  import opened Vault
  import opened Runtime
  import Operations

  method CreateCredential(rt: KeyHub, d: Draft, id: Bytes, nonce: Nonce) returns (o: Outcome)
    requires rt.Valid()
    modifies rt.db
    ensures rt.Valid() && (rt.State(), o) == CreateIn(rt.env, old(rt.State()), d, id, nonce)
  {
    var db := rt.db;
    if d.name in db.rows { return Fail(AlreadyExists); }
    var blob := rt.EncryptText(d.value, Some(MakeAad(id, d.name)), nonce);
    if blob.Err? { return Fail(Locked); }
    var c := Credential(id, d.kind, blob.value, d.attrs, None, false, [], None);
    if d.kind.Llm? {
      if d.provider == [] { return Fail(MissingProvider); }
      var keyLabel := if d.keyLabel != [] then d.keyLabel else d.name;
      if Taken(db.rows, d.provider, keyLabel) { return Fail(LabelTaken); }
      c := c.(llm := Some(LlmKey(d.provider, keyLabel, d.allowedModels, d.priority)));
    }
    db.rows := db.rows[d.name := c];
    o := Done;
  }

  method UpdateCredential(rt: KeyHub, name: Bytes, ch: Change, rotationId: Bytes, nonce: Nonce, now: int)
    returns (o: Outcome)
    requires rt.Valid()
    modifies rt.db
    ensures rt.Valid() && (rt.State(), o) == UpdateIn(rt.env, old(rt.State()), name, ch, rotationId, nonce, now)
    ensures o.Done? ==>
              name in old(rt.db.rows) && name in rt.db.rows
              && Operations.Amended(old(rt.db.rows)[name].attrs, rt.db.rows[name].attrs, ch)
  {
    ghost var w := rt.State();
    o := WriteUpdate(rt, name, ch, rotationId, nonce, now);
    Operations.UpdateAmends(rt.env, w, name, ch, rotationId, nonce, now);
  }

  method WriteUpdate(rt: KeyHub, name: Bytes, ch: Change, rotationId: Bytes, nonce: Nonce, now: int)
    returns (o: Outcome)
    requires rt.Valid()
    modifies rt.db
    ensures rt.Valid() && (rt.State(), o) == UpdateIn(rt.env, old(rt.State()), name, ch, rotationId, nonce, now)
  {
    var db := rt.db;
    if name !in db.rows { return Fail(NotFound); }
    var c := db.rows[name];
    if ch.value.Some? {
      var outgoing := c.blob;
      var oldValue := rt.DecryptText(c.id, name, c.blob);
      var fingerprint := if oldValue.Ok? then Some(Sha256Prefix(oldValue.value)) else None;
      var blob := rt.EncryptText(ch.value.value, Some(MakeAad(c.id, name)), nonce);
      if blob.Err? { return Fail(Locked); }
      c := c.(blob := blob.value, lastRotatedAt := Some(now));
      c := c.(rotations := c.rotations + [Rotation(rotationId, fingerprint, Some(outgoing))]);
    }
    if ch.metadata.Some? { c := c.(attrs := c.attrs.(metadata := ch.metadata.value)); }
    if ch.expiresAt.Some? { c := c.(attrs := c.attrs.(expiresAt := ch.expiresAt)); }
    if ch.rotationDays.Some? { c := c.(attrs := c.attrs.(rotationDays := ch.rotationDays)); }
    if ch.tags.Some? { c := c.(attrs := c.attrs.(tags := ch.tags.value)); }
    db.rows := db.rows[name := c];
    o := Done;
  }

  method RotateCredential(rt: KeyHub, name: Bytes, value: Bytes, rotationId: Bytes, nonce: Nonce, now: int)
    returns (o: Outcome)
    requires rt.Valid()
    modifies rt.db
    ensures rt.Valid()
    ensures (rt.State(), o)
         == UpdateIn(rt.env, old(rt.State()), name, Change(Some(value), None, None, None, None), rotationId, nonce, now)
    ensures o.Done? ==>
              name in old(rt.db.rows) && name in rt.db.rows
              && rt.db.rows[name].attrs == old(rt.db.rows)[name].attrs
  {
    o := UpdateCredential(rt, name, Change(Some(value), None, None, None, None), rotationId, nonce, now);
  }

  method RollbackCredential(rt: KeyHub, name: Bytes, target: Bytes, rotationId: Bytes, now: int) returns (o: Outcome)
    requires rt.Valid()
    modifies rt.db
    ensures rt.Valid() && (rt.State(), o) == RollbackIn(rt.env, old(rt.State()), name, target, rotationId, now)
  {
    var db := rt.db;
    if name !in db.rows { return Fail(NotFound); }
    var c := db.rows[name];
    var found := FindRotation(c.rotations, target);
    if found.None? { return Fail(NoSuchRotation); }
    var log := c.rotations[found.value];
    if log.blob.None? { return Fail(NoStoredValue); }
    var current := rt.DecryptText(c.id, name, c.blob);
    var fingerprint := if current.Ok? then Some(Sha256Prefix(current.value)) else None;
    var outgoing := c.blob;
    c := c.(blob := log.blob.value, lastRotatedAt := Some(now));
    c := c.(rotations := c.rotations + [Rotation(rotationId, fingerprint, Some(outgoing))]);
    db.rows := db.rows[name := c];
    o := Done;
  }

  method DeleteCredential(rt: KeyHub, name: Bytes) returns (o: Outcome)
    requires rt.Valid()
    modifies rt.db
    ensures rt.Valid() && (rt.State(), o) == DeleteIn(old(rt.State()), name)
  {
    var db := rt.db;
    if name !in db.rows { return Fail(NotFound); }
    db.rows := db.rows[name := db.rows[name].(deleted := true)];
    o := Done;
  }

  method RevealCredential(rt: KeyHub, name: Bytes) returns (o: Outcome)
    requires rt.Valid()
    ensures o == RevealIn(rt.env, rt.State(), name)
  {
    var db := rt.db;
    if name !in db.rows || db.rows[name].deleted { return Fail(NotFound); }
    var c := db.rows[name];
    var value := rt.DecryptText(c.id, name, c.blob);
    match value {
      case Ok(v) => o := Secret(v);
      case Err(_) => o := Fail(if rt.vault == null then Locked else Undecryptable);
    }
  }
}
