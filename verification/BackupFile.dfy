/** The two binary backup formats of keyhub/backup.py: KHBP, an encrypted list of credentials, and KHBK01,
    an encrypted copy of the database file. */
module BackupFile {
  import opened Prelude
  import opened Crypto

  /** A serialiser and its parser, of which only losslessness is ever assumed. */
  datatype Format<!T> = Format(write: T -> Bytes, parse: Bytes -> Option<T>)

  ghost predicate Faithful<T(!new)>(f: Format<T>) {
    forall x :: f.parse(f.write(x)) == Some(x)
  }

  datatype FileError = BadMagic | BadVersion | Truncated | BadParams | WrongPassword | BadPayload | TooLong

  const VERSION := Raw(1)

  /** "KHBP" */
  const MAGIC: Bytes := [Raw(0x4B), Raw(0x48), Raw(0x42), Raw(0x50)]

  // ----- four octets, big-endian -----

  const BASE := 256
  const LIMIT := 0x1_0000_0000

  function Be32(n: nat): Bytes
    requires n < LIMIT
  {
    [Raw(n / 0x100_0000), Raw(n / 0x1_0000 % BASE), Raw(n / 0x100 % BASE), Raw(n % BASE)]
  }

  function ValueOf(o: Octet): Byte {
    if o.Raw? then o.n else 0
  }

  function FromBe32(b: Bytes): nat
    requires |b| == 4
  {
    ValueOf(b[0]) * 0x100_0000 + ValueOf(b[1]) * 0x1_0000 + ValueOf(b[2]) * 0x100 + ValueOf(b[3])
  }

  lemma Be32RoundTrip(n: nat)
    requires n < LIMIT
    ensures FromBe32(Be32(n)) == n
  {
    var a, b, c := n / 0x100, n / 0x1_0000, n / 0x100_0000;
    assert n == a * 0x100 + n % 0x100;
    assert a / 0x100 == b && a == b * 0x100 + a % 0x100;
    assert b / 0x100 == c && b == c * 0x100 + b % 0x100;
  }

  /** The most significant octet comes first. */
  lemma BigEndian(n: nat)
    requires n < LIMIT
    ensures var b := Be32(n);
            |b| == 4 && b[0].Raw? && b[1].Raw? && b[2].Raw? && b[3].Raw?
            && n == b[0].n * 16777216 + b[1].n * 65536 + b[2].n * 256 + b[3].n
  {
    Be32RoundTrip(n);
  }

  // ----- KHBP -----

  /** A read of `n` octets at `at`, short at the end of the file. */
  function Slice(file: Bytes, at: nat, n: nat): (r: Bytes)
    ensures |r| == if at >= |file| then 0 else if at + n <= |file| then n else |file| - at
    ensures forall i :: 0 <= i < |r| ==> r[i] == file[at + i]
  {
    if at >= |file| then [] else if at + n <= |file| then file[at..at + n] else file[at..]
  }

  function BackupKey(password: string, params: Params): Key {
    Key(password, params, "")
  }

  function WriteFile<T>(pf: Format<Params>, df: Format<T>, payload: T, password: string, params: Params, nonce: Bytes)
    : Result<Bytes, FileError>
  {
    var header := pf.write(params);
    if |header| >= LIMIT then Err(TooLong) else
    Ok(MAGIC + [VERSION] + Be32(|header|) + header + nonce
       + Seal(BackupKey(password, params), nonce, None, df.write(payload)))
  }

  datatype Parts = Parts(params: Bytes, nonce: Bytes, ct: Bytes)

  function ParseFile(file: Bytes): Result<Parts, FileError> {
    if Slice(file, 0, 4) != MAGIC then Err(BadMagic)
    else if |file| < 5 then Err(Truncated)
    else if file[4] != VERSION then Err(BadVersion)
    else if |file| < 9 then Err(Truncated)
    else
      var len := FromBe32(file[5..9]);
      var params := Slice(file, 9, len);
      var nonce := Slice(file, 9 + |params|, NONCE_LEN);
      Ok(Parts(params, nonce, if 9 + |params| + |nonce| <= |file| then file[9 + |params| + |nonce|..] else []))
  }

  function ReadFile<T>(pf: Format<Params>, df: Format<T>, file: Bytes, password: string): Result<T, FileError> {
    match ParseFile(file)
    case Err(e) => Err(e)
    case Ok(parts) =>
      match pf.parse(parts.params)
      case None => Err(BadParams)
      case Some(params) =>
        match Open(BackupKey(password, params), parts.nonce, None, parts.ct)
        case None => Err(WrongPassword)
        case Some(bytes) =>
          match df.parse(bytes)
          case None => Err(BadPayload)
          case Some(payload) => Ok(payload)
  }

  /** Parsing the written octets returns the header, the nonce and the ciphertext that went in. */
  lemma ParseWritten(header: Bytes, nonce: Bytes, ct: Bytes)
    requires |header| < LIMIT && |nonce| == NONCE_LEN
    ensures ParseFile(MAGIC + [VERSION] + Be32(|header|) + header + nonce + ct) == Ok(Parts(header, nonce, ct))
  {
    var len := Be32(|header|);
    var file := MAGIC + [VERSION] + len + header + nonce + ct;
    Be32RoundTrip(|header|);
    assert file[0..4] == MAGIC && file[4] == VERSION && file[5..9] == len;
    assert file[9..9 + |header|] == header;
    assert file[9 + |header|..9 + |header| + NONCE_LEN] == nonce;
    assert file[9 + |header| + NONCE_LEN..] == ct;
  }

  predicate StartsWithMagic(file: Bytes) {
    |file| >= 4 && file[0] == Raw(0x4B) && file[1] == Raw(0x48) && file[2] == Raw(0x42) && file[3] == Raw(0x50)
  }

  /** What a file is refused for, and how one that is not falls apart: the length, that many octets of parameters,
      twelve of nonce, and the rest, short where the file is. */
  lemma ParseVerdict(file: Bytes)
    ensures var r := ParseFile(file);
            && (r == Err(BadMagic) <==> !StartsWithMagic(file))
            && (r == Err(BadVersion) <==> StartsWithMagic(file) && |file| >= 5 && file[4] != Raw(1))
            && (r == Err(Truncated) <==>
                StartsWithMagic(file) && (|file| < 5 || (file[4] == Raw(1) && |file| < 9)))
            && (r.Err? ==> r.error == BadMagic || r.error == BadVersion || r.error == Truncated)
            && (r.Ok? ==>
                  && file[9..] == r.value.params + r.value.nonce + r.value.ct
                  && |r.value.params| <= FromBe32(file[5..9]) && |r.value.nonce| <= 12
                  && (|r.value.params| < FromBe32(file[5..9]) ==> r.value.nonce == [])
                  && (|r.value.nonce| < 12 ==> r.value.ct == []))
  {
    assert Slice(file, 0, 4) == MAGIC <==> StartsWithMagic(file);
    if ParseFile(file).Ok? {
      var p := ParseFile(file).value;
      assert file[9..] == p.params + p.nonce + p.ct;
    }
  }

  /** A backup opens with exactly the password it was written with, and then yields exactly its payload. */
  lemma BackupRoundTrip<T(!new)>(pf: Format<Params>, df: Format<T>, payload: T, password: string, params: Params,
                                 nonce: Bytes, attempt: string)
    requires Faithful(pf) && Faithful(df) && |nonce| == NONCE_LEN
    requires WriteFile(pf, df, payload, password, params, nonce).Ok?
    ensures ReadFile(pf, df, WriteFile(pf, df, payload, password, params, nonce).value, attempt)
         == if attempt == password then Ok(payload) else Err(WrongPassword)
  {
    var header := pf.write(params);
    var ct := Seal(BackupKey(password, params), nonce, None, df.write(payload));
    ParseWritten(header, nonce, ct);
    OpenSeal(BackupKey(password, params), nonce, None, df.write(payload), BackupKey(attempt, params), nonce, None);
  }

  // ----- KHBK01 -----

  const SALT_LEN := 16

  /** "KHBK01" */
  const FULL_MAGIC: Bytes := [Raw(0x4B), Raw(0x48), Raw(0x42), Raw(0x4B), Raw(0x30), Raw(0x31)]

  /** The salt octets as the key derivation sees them. */
  function SaltBytes(salt: Bytes): seq<Byte> {
    seq(|salt|, i requires 0 <= i < |salt| => ValueOf(salt[i]))
  }

  function FullKey(password: string, salt: Bytes): Key {
    Key(password, Params(SaltBytes(salt), 3, 65536, 4), "")
  }

  function WriteFull(z: Codec, database: Bytes, password: string, salt: Bytes, nonce: Bytes): Bytes {
    FULL_MAGIC + salt + nonce + Seal(FullKey(password, salt), nonce, None, z.deflate(database))
  }

  function ReadFull(z: Codec, data: Bytes, password: string): Result<Bytes, FileError> {
    if |data| < |FULL_MAGIC| + SALT_LEN + NONCE_LEN + TAG_LEN then Err(Truncated)
    else if data[..|FULL_MAGIC|] != FULL_MAGIC then Err(BadMagic)
    else
      var offset := |FULL_MAGIC|;
      var salt := data[offset..offset + SALT_LEN];
      var nonce := data[offset + SALT_LEN..offset + SALT_LEN + NONCE_LEN];
      var ct := data[offset + SALT_LEN + NONCE_LEN..];
      match Open(FullKey(password, salt), nonce, None, ct)
      case None => Err(WrongPassword)
      case Some(compressed) =>
        match z.inflate(compressed)
        case None => Err(BadPayload)
        case Some(database) => Ok(database)
  }

  /** What a whole-database backup is refused for before its key is tried. */
  lemma FullVerdict(z: Codec, data: Bytes, password: string)
    ensures var r := ReadFull(z, data, password);
            var magic := [Raw(0x4B), Raw(0x48), Raw(0x42), Raw(0x4B), Raw(0x30), Raw(0x31)];
            && (r == Err(Truncated) <==> |data| < 50)
            && (r == Err(BadMagic) <==> |data| >= 50 && data[..6] != magic)
            && (r.Err? ==> r.error == Truncated || r.error == BadMagic || r.error == WrongPassword
                           || r.error == BadPayload)
  {
  }

  /** Its key depends on password and salt, and costs what the format fixes. */
  lemma FullKeyDepends(password: string, salt: Bytes)
    ensures var k := FullKey(password, salt);
            && k.password == password && k.pepper == "" && |k.params.salt| == |salt|
            && (forall i :: 0 <= i < |salt| && salt[i].Raw? ==> k.params.salt[i] == salt[i].n)
            && k.params.timeCost == 3 && k.params.memoryCost == 65536 && k.params.parallelism == 4
  {
  }

  lemma FullBackupRoundTrip(z: Codec, database: Bytes, password: string, salt: Bytes, nonce: Bytes, attempt: string)
    requires Lossless(z) && |salt| == SALT_LEN && |nonce| == NONCE_LEN
    ensures ReadFull(z, WriteFull(z, database, password, salt, nonce), attempt)
         == if attempt == password then Ok(database) else Err(WrongPassword)
  {
    var ct := Seal(FullKey(password, salt), nonce, None, z.deflate(database));
    var data := FULL_MAGIC + salt + nonce + ct;
    assert data[..6] == FULL_MAGIC && data[6..22] == salt && data[22..34] == nonce && data[34..] == ct;
    OpenSeal(FullKey(password, salt), nonce, None, z.deflate(database), FullKey(attempt, salt), nonce, None);
  }
}
