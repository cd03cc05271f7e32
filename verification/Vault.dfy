/** The credential table, its operations and the master-password change (keyhub/store.py,
    keyhub/runtime.py) as functions on values: what each transaction makes of the state.

    The table is keyed by the credential's unique name.  Text is its UTF-8 octets.  Random draws
    (row identifiers, nonces, salts) are arguments of the operation that makes them. */
module Vault {
  import opened Prelude
  import opened Crypto

  // ----- rows -----

  /** The first digits of SHA-256, of which nothing but the value they were taken from is used. */
  datatype Fingerprint = Sha256Prefix(value: Bytes)

  datatype Rotation = Rotation(id: Bytes, fingerprint: Option<Fingerprint>, blob: Option<Bytes>)

  datatype Kind = Password | Token | SshKey | Database | Llm | Other

  datatype LlmKey = LlmKey(provider: Bytes, keyLabel: Bytes, allowedModels: seq<Bytes>, priority: int)

  datatype Attributes =
    Attributes(metadata: Bytes, expiresAt: Option<int>, rotationDays: Option<int>, tags: seq<Bytes>)

  datatype Credential =
    Credential(id: Bytes, kind: Kind, blob: Bytes, attrs: Attributes, lastRotatedAt: Option<int>,
               deleted: bool, rotations: seq<Rotation>, llm: Option<LlmKey>)

  type Table = map<Bytes, Credential>

  // ----- state and operations -----

  datatype PwHash = Argon2Hash(password: string)

  datatype World = World(rows: Table, params: Params, pwHash: PwHash, vault: Option<Key>)

  datatype Env = Env(codec: Codec, pepper: string)

  type Nonce = n: Bytes | |n| == NONCE_LEN witness seq(NONCE_LEN, _ => Raw(0))

  datatype Draft =
    Draft(name: Bytes, kind: Kind, value: Bytes, attrs: Attributes,
          provider: Bytes, keyLabel: Bytes, allowedModels: seq<Bytes>, priority: int)

  /** What the schema of a new credential asks for; the schema of a change asks nothing of its value. */
  predicate Acceptable(d: Draft) {
    d.name != [] && d.value != []
  }

  datatype Change =
    Change(value: Option<Bytes>, metadata: Option<Bytes>, expiresAt: Option<int>,
           rotationDays: Option<int>, tags: Option<seq<Bytes>>)

  datatype Op =
    | Create(draft: Draft, id: Bytes, nonce: Nonce)
    | Update(name: Bytes, change: Change, rotationId: Bytes, nonce: Nonce, now: int)
    | Rollback(name: Bytes, target: Bytes, rotationId: Bytes, now: int)
    | Delete(name: Bytes)
    | Reveal(name: Bytes)
    | Lock
    | Unlock(password: string)
    | ChangePassword(oldPassword: string, newPassword: string, newParams: Params, reencrypt: bool,
                     commits: bool, nonces: (Bytes, nat) -> Nonce)

  datatype Failure =
    | NotFound | AlreadyExists | MissingProvider | LabelTaken | NoSuchRotation | NoStoredValue
    | Locked | Undecryptable | PasswordTooShort | WrongPassword | CommitFailed | Invalid

  datatype Outcome =
    | Done
    | Secret(value: Bytes)
    | Unlocked(accepted: bool)
    | Reencrypted(count: nat)
    | Fail(reason: Failure)

  const MIN_PASSWORD := 8

  function DeriveKey(env: Env, password: string, params: Params): Key {
    Key(password, params, env.pepper)
  }

  /** The key the stored parameters and the stored hash stand for. */
  function CurrentKey(env: Env, w: World): Key {
    DeriveKey(env, w.pwHash.password, w.params)
  }

  // ----- create, update, rollback, delete, reveal -----

  function Read(env: Env, vault: Option<Key>, id: Bytes, name: Bytes, blob: Bytes): Result<Bytes, CryptoError> {
    if vault.None? then Err(Zeroed) else TryDecrypt(env.codec, vault.value, id, name, blob)
  }

  function FingerprintOf(r: Result<Bytes, CryptoError>): Option<Fingerprint> {
    if r.Ok? then Some(Sha256Prefix(r.value)) else None
  }

  predicate HasLabel(c: Credential, provider: Bytes, keyLabel: Bytes) {
    c.llm.Some? && c.llm.value.provider == provider && c.llm.value.keyLabel == keyLabel
  }

  predicate Taken(rows: Table, provider: Bytes, keyLabel: Bytes) {
    exists n :: n in rows && HasLabel(rows[n], provider, keyLabel)
  }

  function LabelOf(d: Draft): Bytes {
    if d.keyLabel != [] then d.keyLabel else d.name
  }

  function LlmOf(d: Draft): Option<LlmKey> {
    if d.kind.Llm? then Some(LlmKey(d.provider, LabelOf(d), d.allowedModels, d.priority)) else None
  }

  function NewCredential(env: Env, key: Key, d: Draft, id: Bytes, nonce: Nonce): Credential {
    Credential(id, d.kind, Encrypt(env.codec, key, d.value, Some(MakeAad(id, d.name)), nonce), d.attrs, None, false, [],
               LlmOf(d))
  }

  function CreateIn(env: Env, w: World, d: Draft, id: Bytes, nonce: Nonce): (World, Outcome) {
    if d.name in w.rows then (w, Fail(AlreadyExists))
    else if w.vault.None? then (w, Fail(Locked))
    else if d.kind.Llm? && d.provider == [] then (w, Fail(MissingProvider))
    else if d.kind.Llm? && Taken(w.rows, d.provider, LabelOf(d)) then (w, Fail(LabelTaken))
    else (w.(rows := w.rows[d.name := NewCredential(env, w.vault.value, d, id, nonce)]), Done)
  }

  function Amend(a: Attributes, ch: Change): Attributes {
    Attributes(if ch.metadata.Some? then ch.metadata.value else a.metadata,
               if ch.expiresAt.Some? then ch.expiresAt else a.expiresAt,
               if ch.rotationDays.Some? then ch.rotationDays else a.rotationDays,
               if ch.tags.Some? then ch.tags.value else a.tags)
  }

  /** The current ciphertext goes to the log, `blob` takes its place. */
  function Rotate(env: Env, vault: Option<Key>, name: Bytes, c: Credential, blob: Bytes,
                  rotationId: Bytes, now: int): Credential {
    var outgoing := Rotation(rotationId, FingerprintOf(Read(env, vault, c.id, name, c.blob)), Some(c.blob));
    c.(blob := blob, lastRotatedAt := Some(now), rotations := c.rotations + [outgoing])
  }

  function UpdateIn(env: Env, w: World, name: Bytes, ch: Change, rotationId: Bytes, nonce: Nonce, now: int)
    : (World, Outcome)
  {
    if name !in w.rows then (w, Fail(NotFound)) else
    var c := w.rows[name];
    if ch.value.None? then
      (w.(rows := w.rows[name := c.(attrs := Amend(c.attrs, ch))]), Done)
    else if w.vault.None? then (w, Fail(Locked))
    else
      var blob := Encrypt(env.codec, w.vault.value, ch.value.value, Some(MakeAad(c.id, name)), nonce);
      var rotated := Rotate(env, w.vault, name, c, blob, rotationId, now);
      (w.(rows := w.rows[name := rotated.(attrs := Amend(c.attrs, ch))]), Done)
  }

  function FindRotation(rotations: seq<Rotation>, id: Bytes): (r: Option<nat>)
    ensures r.Some? ==> r.value < |rotations| && rotations[r.value].id == id
    ensures r.None? ==> forall i :: 0 <= i < |rotations| ==> rotations[i].id != id
  {
    if rotations == [] then None
    else if rotations[0].id == id then Some(0)
    else match FindRotation(rotations[1..], id)
         case None => assert forall i :: 1 <= i < |rotations| ==> rotations[i] == rotations[1..][i - 1]; None
         case Some(i) => Some(i + 1)
  }

  function RollbackIn(env: Env, w: World, name: Bytes, target: Bytes, rotationId: Bytes, now: int): (World, Outcome) {
    if name !in w.rows then (w, Fail(NotFound)) else
    var c := w.rows[name];
    match FindRotation(c.rotations, target)
    case None => (w, Fail(NoSuchRotation))
    case Some(i) =>
      if c.rotations[i].blob.None? then (w, Fail(NoStoredValue))
      else (w.(rows := w.rows[name := Rotate(env, w.vault, name, c, c.rotations[i].blob.value, rotationId, now)]), Done)
  }

  function DeleteIn(w: World, name: Bytes): (World, Outcome) {
    if name !in w.rows then (w, Fail(NotFound))
    else (w.(rows := w.rows[name := w.rows[name].(deleted := true)]), Done)
  }

  function RevealIn(env: Env, w: World, name: Bytes): Outcome {
    if name !in w.rows || w.rows[name].deleted then Fail(NotFound)
    else if w.vault.None? then Fail(Locked)
    else match Read(env, w.vault, w.rows[name].id, name, w.rows[name].blob)
         case Ok(v) => Secret(v)
         case Err(_) => Fail(Undecryptable)
  }

  // ----- master-password change -----

  function RekeyRotation(env: Env, oldKey: Key, newKey: Key, id: Bytes, name: Bytes, r: Rotation, nonce: Nonce)
    : Rotation
  {
    if r.blob.None? || r.blob.value == [] then r
    else match TryDecrypt(env.codec, oldKey, id, name, r.blob.value)
         case Err(_) => r
         case Ok(v) => r.(blob := Some(Encrypt(env.codec, newKey, v, Some(MakeAad(id, name)), nonce)))
  }

  predicate Readable(env: Env, key: Key, name: Bytes, c: Credential) {
    TryDecrypt(env.codec, key, c.id, name, c.blob).Ok?
  }

  predicate LiveReadable(env: Env, key: Key, rows: Table) {
    forall n :: n in rows && !rows[n].deleted ==> Readable(env, key, n, rows[n])
  }

  function RekeyRotations(env: Env, oldKey: Key, newKey: Key, name: Bytes, c: Credential,
                          nonces: (Bytes, nat) -> Nonce): (rs: seq<Rotation>)
    ensures |rs| == |c.rotations|
  {
    seq(|c.rotations|, i requires 0 <= i < |c.rotations| =>
      RekeyRotation(env, oldKey, newKey, c.id, name, c.rotations[i], nonces(name, i + 1)))
  }

  function RekeyCredential(env: Env, oldKey: Key, newKey: Key, name: Bytes, c: Credential,
                           nonces: (Bytes, nat) -> Nonce): Credential
    requires Readable(env, oldKey, name, c)
  {
    var v := TryDecrypt(env.codec, oldKey, c.id, name, c.blob).value;
    c.(blob := Encrypt(env.codec, newKey, v, Some(MakeAad(c.id, name)), nonces(name, 0)),
    rotations := RekeyRotations(env, oldKey, newKey, name, c, nonces))
  }

  function RekeyTable(env: Env, oldKey: Key, newKey: Key, rows: Table, nonces: (Bytes, nat) -> Nonce): Table
    requires LiveReadable(env, oldKey, rows)
  {
    map n | n in rows ::
      if rows[n].deleted then rows[n] else RekeyCredential(env, oldKey, newKey, n, rows[n], nonces)
  }

  function Live(rows: Table): set<Bytes> {
    set n | n in rows && !rows[n].deleted
  }

  function ChangePasswordIn(env: Env, w: World, oldPassword: string, newPassword: string, newParams: Params,
                            reencrypt: bool, commits: bool, nonces: (Bytes, nat) -> Nonce): (World, Outcome)
  {
    if w.vault.None? then (w, Fail(Locked))
    else if |newPassword| < MIN_PASSWORD then (w, Fail(PasswordTooShort))
    else if oldPassword != w.pwHash.password then (w, Fail(WrongPassword))
    else if reencrypt && !LiveReadable(env, w.vault.value, w.rows) then (w, Fail(Undecryptable))
    else if !commits then (w, Fail(CommitFailed))
    else
      var newKey := DeriveKey(env, newPassword, newParams);
      var rows := if reencrypt then RekeyTable(env, w.vault.value, newKey, w.rows, nonces) else w.rows;
      (World(rows, newParams, Argon2Hash(newPassword), Some(newKey)),
       Reencrypted(if reencrypt then |Live(w.rows)| else 0))
  }

  function UnlockIn(env: Env, w: World, password: string): (World, Outcome) {
    if password != w.pwHash.password then (w, Unlocked(false))
    else (w.(vault := Some(DeriveKey(env, password, w.params))), Unlocked(true))
  }

  function Step(env: Env, w: World, op: Op): (World, Outcome) {
    match op
    case Create(d, id, nonce) => CreateIn(env, w, d, id, nonce)
    case Update(name, ch, rid, nonce, now) => UpdateIn(env, w, name, ch, rid, nonce, now)
    case Rollback(name, target, rid, now) => RollbackIn(env, w, name, target, rid, now)
    case Delete(name) => DeleteIn(w, name)
    case Reveal(name) => (w, RevealIn(env, w, name))
    case Lock => (w.(vault := None), Done)
    case Unlock(password) => UnlockIn(env, w, password)
    case ChangePassword(oldPw, newPw, ps, re, commits, nonces) =>
      ChangePasswordIn(env, w, oldPw, newPw, ps, re, commits, nonces)
  }
}
