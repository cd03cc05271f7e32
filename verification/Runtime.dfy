/** The objects of keyhub/runtime.py and keyhub/crypto.py: a vault that can be zeroed, the database,
    and the runtime that holds the one and swaps it when the master password changes.  Each method
    realises a function of module Vault. */
module Runtime {
  import opened Prelude
  import opened Crypto
  import opened Vault

  class CryptoVault {
    const params: Params
    var aes: Option<Key>

    constructor (params: Params, key: Key)
      ensures this.params == params && aes == Some(key)
    {
      this.params := params;
      aes := Some(key);
    }

    method EncryptText(z: Codec, plain: Bytes, aad: Option<Bytes>, nonce: Nonce) returns (r: Result<Bytes, CryptoError>)
      ensures r == if aes.None? then Err(Zeroed) else Ok(Encrypt(z, aes.value, plain, aad, nonce))
    {
      if aes.None? { return Err(Zeroed); }
      r := Ok(Encrypt(z, aes.value, plain, aad, nonce));
    }

    method DecryptText(z: Codec, blob: Bytes, aad: Option<Bytes>) returns (r: Result<Bytes, CryptoError>)
      ensures r == if aes.None? then Err(Zeroed) else Decrypt(z, aes.value, blob, aad)
    {
      if aes.None? { return Err(Zeroed); }
      r := Decrypt(z, aes.value, blob, aad);
    }

    /** Bound to the context, then unbound, then unbound again. */
    method DecryptWithFallback(z: Codec, id: Bytes, name: Bytes, blob: Bytes) returns (r: Result<Bytes, CryptoError>)
      ensures r == if aes.None? then Err(Zeroed) else TryDecrypt(z, aes.value, id, name, blob)
    {
      r := DecryptText(z, blob, Some(MakeAad(id, name)));
      if r.Ok? { return; }
      r := DecryptText(z, blob, None);
      if r.Ok? { return; }
      r := DecryptText(z, blob, None);
    }

    method Zero()
      modifies this
      ensures aes == None
    {
      aes := None;
    }
  }

  class DatabaseFile {
    var rows: Table
    var params: Params
    var pwHash: PwHash

    constructor (params: Params, pwHash: PwHash)
      ensures rows == map[] && this.params == params && this.pwHash == pwHash
    {
      rows := map[];
      this.params := params;
      this.pwHash := pwHash;
    }
  }

  class KeyHub {
    const env: Env
    const db: DatabaseFile
    var vault: CryptoVault?

    constructor (env: Env, db: DatabaseFile)
      ensures this.env == env && this.db == db && vault == null && Valid()
    {
      this.env := env;
      this.db := db;
      vault := null;
    }

    /** The vault in service is never a zeroed one. */
    ghost predicate Valid()
      reads this, vault
    {
      vault != null ==> vault.aes.Some?
    }

    ghost function State(): World
      reads this, db, vault
    {
      World(db.rows, db.params, db.pwHash, if vault == null then None else vault.aes)
    }

    method EncryptText(plain: Bytes, aad: Option<Bytes>, nonce: Nonce) returns (r: Result<Bytes, CryptoError>)
      requires Valid()
      ensures r == if State().vault.None? then Err(Zeroed)
                   else Ok(Encrypt(env.codec, State().vault.value, plain, aad, nonce))
    {
      if vault == null { return Err(Zeroed); }
      r := vault.EncryptText(env.codec, plain, aad, nonce);
    }

    method DecryptText(id: Bytes, name: Bytes, blob: Bytes) returns (r: Result<Bytes, CryptoError>)
      requires Valid()
      ensures r == Read(env, State().vault, id, name, blob)
    {
      if vault == null { return Err(Zeroed); }
      r := vault.DecryptWithFallback(env.codec, id, name, blob);
    }

    method UnlockWith(password: string) returns (o: Outcome)
      requires Valid()
      modifies this
      ensures Valid() && (State(), o) == UnlockIn(env, old(State()), password)
    {
      if password != db.pwHash.password { return Unlocked(false); }
      vault := new CryptoVault(db.params, DeriveKey(env, password, db.params));
      o := Unlocked(true);
    }

    /** The discarded vault is zeroed before it is dropped. */
    method LockNow()
      requires Valid()
      modifies this, vault
      ensures Valid() && vault == null && (State(), Done) == Step(env, old(State()), Lock)
      ensures old(vault) != null ==> old(vault).aes == None
    {
      if vault != null {
        vault.Zero();
        vault := null;
      }
    }

    method RekeyHistory(oldVault: CryptoVault, newVault: CryptoVault, name: Bytes, c: Credential,
                        nonces: (Bytes, nat) -> Nonce) returns (rs: seq<Rotation>)
      requires oldVault.aes.Some? && newVault.aes.Some?
      ensures rs == RekeyRotations(env, oldVault.aes.value, newVault.aes.value, name, c, nonces)
    {
      rs := c.rotations;
      ghost var target := RekeyRotations(env, oldVault.aes.value, newVault.aes.value, name, c, nonces);
      for i := 0 to |c.rotations|
        invariant |rs| == |c.rotations|
        invariant forall j :: 0 <= j < i ==> rs[j] == target[j]
        invariant forall j :: i <= j < |rs| ==> rs[j] == c.rotations[j]
      {
        var rot := c.rotations[i];
        if rot.blob.None? || rot.blob.value == [] { continue; }
        var plain := oldVault.DecryptWithFallback(env.codec, c.id, name, rot.blob.value);
        if plain.Err? { continue; }
        var blob := newVault.EncryptText(env.codec, plain.value, Some(MakeAad(c.id, name)), nonces(name, i + 1));
        rs := rs[i := rot.(blob := Some(blob.value))];
      }
    }

    /** Rewrites the live rows of a working copy; gives up at the first illegible one. */
    method RekeyRows(oldVault: CryptoVault, newVault: CryptoVault, nonces: (Bytes, nat) -> Nonce)
      returns (rows: Table, count: nat, ok: bool)
      requires oldVault.aes.Some? && newVault.aes.Some?
      ensures ok <==> LiveReadable(env, oldVault.aes.value, db.rows)
      ensures ok ==> rows == RekeyTable(env, oldVault.aes.value, newVault.aes.value, db.rows, nonces)
      ensures ok ==> count == |Live(db.rows)|
    {
      ghost var o, w := oldVault.aes.value, newVault.aes.value;
      var todo := Live(db.rows);
      rows, count := db.rows, 0;
      while todo != {}
        invariant todo <= Live(db.rows)
        invariant rows.Keys == db.rows.Keys
        invariant forall n :: n in Live(db.rows) - todo ==> Readable(env, o, n, db.rows[n])
        invariant forall n :: n in Live(db.rows) - todo ==> rows[n] == RekeyCredential(env, o, w, n, db.rows[n], nonces)
        invariant forall n :: n in rows && (n in todo || db.rows[n].deleted) ==> rows[n] == db.rows[n]
        invariant count + |todo| == |Live(db.rows)|
        decreases todo
      {
        var n :| n in todo;
        var c := rows[n];
        var plain := oldVault.DecryptWithFallback(env.codec, c.id, n, c.blob);
        if plain.Err? {
          ok := false;
          return;
        }
        var blob := newVault.EncryptText(env.codec, plain.value, Some(MakeAad(c.id, n)), nonces(n, 0));
        var history := RekeyHistory(oldVault, newVault, n, c, nonces);
        rows := rows[n := c.(blob := blob.value, rotations := history)];
        count := count + 1;
        todo := todo - {n};
      }
      ok := true;
    }

    /** All or nothing: either the new rows, parameters, hash and vault are in place and the old vault is
        zeroed, or rows, parameters, hash and the old vault, still usable, are what they were. */
    method ChangeMasterPassword(oldPassword: string, newPassword: string, newParams: Params, reencrypt: bool,
                                commits: bool, nonces: (Bytes, nat) -> Nonce) returns (o: Outcome)
      requires Valid()
      modifies this, db, vault
      ensures Valid()
      ensures (State(), o) == ChangePasswordIn(env, old(State()), oldPassword, newPassword, newParams, reencrypt,
                                               commits, nonces)
      ensures o.Reencrypted? ==> fresh(vault) && old(vault) != null && old(vault).aes == None
      ensures !o.Reencrypted? ==> vault == old(vault) && unchanged(db) && (vault != null ==> unchanged(vault))
    {
      if vault == null { return Fail(Locked); }
      if |newPassword| < MIN_PASSWORD { return Fail(PasswordTooShort); }
      if oldPassword != db.pwHash.password { return Fail(WrongPassword); }
      var newVault := new CryptoVault(newParams, DeriveKey(env, newPassword, newParams));
      var oldVault := vault;
      var rows, count, ok := db.rows, 0, true;
      if reencrypt {
        rows, count, ok := RekeyRows(oldVault, newVault, nonces);
      }
      if !ok || !commits {
        newVault.Zero();
        return Fail(if !ok then Undecryptable else CommitFailed);
      }
      db.rows, db.params, db.pwHash := rows, newParams, Argon2Hash(newPassword);
      oldVault.Zero();
      vault := newVault;
      o := Reencrypted(count);
    }
  }
}
