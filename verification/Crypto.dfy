/** The ciphertext formats of keyhub/crypto.py over a perfect AEAD.

    Encryption is symbolic at the level of one octet.  A ciphertext octet records the key, the nonce,
    the associated data and the plaintext it was sealed from, so `Open` accepts exactly what `Seal`
    made, under the same key, nonce and associated data.  Everything around the AEAD (version octet,
    flag octet, nonce, lengths, associated-data framing, compression) is ordinary octets, laid out
    and sliced as the program does. */
module Crypto {
  import opened Prelude

  type Byte = x: int | 0 <= x < 256
  type Bytes = seq<Octet>

  datatype Params = Params(salt: seq<Byte>, timeCost: int, memoryCost: int, parallelism: int)

  /** The key derived from a master password, its Argon2 parameters and the server's pepper. */
  datatype Key = Key(password: string, params: Params, pepper: string)

  datatype Octet =
    | Raw(n: Byte)
    | Cipher(key: Key, nonce: seq<Octet>, ad: Option<seq<Octet>>, plain: seq<Octet>, index: nat)

  datatype CryptoError = TooShort | BadTag | BadCompression | Zeroed

  /** zlib: any pair of functions, of which only losslessness is ever assumed. */
  datatype Codec = Codec(deflate: Bytes -> Bytes, inflate: Bytes -> Option<Bytes>)

  ghost predicate Lossless(z: Codec) {
    forall b :: z.inflate(z.deflate(b)) == Some(b)
  }

  const NONCE_LEN := 12
  const TAG_LEN := 16
  const COMPRESS_THRESHOLD := 256
  const V1 := Raw(0x01)
  const COLON := Raw(0x3A)
  const BAR := Raw(0x7C)

  /** "keyhub-v1|" */
  const V1_PREFIX: Bytes := [Raw(0x6B), Raw(0x65), Raw(0x79), Raw(0x68), Raw(0x75), Raw(0x62),
                             Raw(0x2D), Raw(0x76), Raw(0x31), BAR]

  // ----- the AEAD -----

  function Seal(k: Key, nonce: Bytes, ad: Option<Bytes>, plain: Bytes): (ct: Bytes)
    ensures |ct| == |plain| + TAG_LEN
    ensures forall i :: 0 <= i < |ct| ==> ct[i] == Cipher(k, nonce, ad, plain, i)
  {
    seq(|plain| + TAG_LEN, i requires 0 <= i => Cipher(k, nonce, ad, plain, i))
  }

  function Open(k: Key, nonce: Bytes, ad: Option<Bytes>, ct: Bytes): (r: Option<Bytes>)
    ensures r.Some? <==> exists p :: ct == Seal(k, nonce, ad, p)
    ensures r.Some? ==> ct == Seal(k, nonce, ad, r.value)
  {
    if |ct| >= TAG_LEN && ct[0].Cipher? && ct == Seal(k, nonce, ad, ct[0].plain)
    then Some(ct[0].plain)
    else None
  }

  lemma OpenSeal(k: Key, nonce: Bytes, ad: Option<Bytes>, plain: Bytes,
                 k': Key, nonce': Bytes, ad': Option<Bytes>)
    ensures Open(k', nonce', ad', Seal(k, nonce, ad, plain))
         == if k == k' && nonce == nonce' && ad == ad' then Some(plain) else None
  {
    var ct := Seal(k, nonce, ad, plain);
    assert ct[0] == Cipher(k, nonce, ad, plain, 0);
    assert Seal(k', nonce', ad', plain)[0] == Cipher(k', nonce', ad', plain, 0);
  }

  // ----- framing -----

  /** The context a stored ciphertext is bound to: "id:name". */
  function MakeAad(id: Bytes, name: Bytes): Bytes {
    id + [COLON] + name
  }

  /** The associated data of format v1: "keyhub-v1|" aad "|" flag. */
  function Frame(aad: Bytes, flag: Octet): Bytes {
    V1_PREFIX + aad + [BAR, flag]
  }

  function Encrypt(z: Codec, k: Key, plain: Bytes, aad: Option<Bytes>, nonce: Bytes): Bytes {
    match aad
    case Some(a) =>
      var compressed := |plain| > COMPRESS_THRESHOLD && |z.deflate(plain)| < |plain|;
      var body := if compressed then z.deflate(plain) else plain;
      var flag := if compressed then Raw(1) else Raw(0);
      [V1, flag] + nonce + Seal(k, nonce, Some(Frame(a, flag)), body)
    case None =>
      nonce + Seal(k, nonce, None, plain)
  }

  function Decrypt(z: Codec, k: Key, blob: Bytes, aad: Option<Bytes>): Result<Bytes, CryptoError> {
    if |blob| < NONCE_LEN + TAG_LEN then Err(TooShort)
    else if blob[0] == V1 then
      if |blob| < 2 + NONCE_LEN + TAG_LEN then Err(TooShort) else
      var flag := blob[1];
      var compressed := flag.Raw? && flag.n % 2 == 1;
      var nonce, ct := blob[2..2 + NONCE_LEN], blob[2 + NONCE_LEN..];
      var context := if aad.Some? then aad.value else [];
      match Open(k, nonce, Some(Frame(context, flag)), ct)
      case None => Err(BadTag)
      case Some(p) =>
        if !compressed then Ok(p)
        else match z.inflate(p)
             case None => Err(BadCompression)
             case Some(q) => Ok(q)
    else
      var nonce, ct := blob[..NONCE_LEN], blob[NONCE_LEN..];
      match Open(k, nonce, None, ct)
      case None => Err(BadTag)
      case Some(p) => Ok(p)
  }

  /** The store's fallback chain: bound to (id, name), then unbound, then unbound again. */
  function TryDecrypt(z: Codec, k: Key, id: Bytes, name: Bytes, blob: Bytes): Result<Bytes, CryptoError> {
    var first := Decrypt(z, k, blob, Some(MakeAad(id, name)));
    if first.Ok? then first else
    var second := Decrypt(z, k, blob, None);
    if second.Ok? then second else Decrypt(z, k, blob, None)
  }

  // ----- framing is injective -----

  predicate ColonFree(b: Bytes) {
    COLON !in b
  }

  lemma FrameInjective(a: Bytes, f: Octet, b: Bytes, g: Octet)
    ensures Frame(a, f) == Frame(b, g) <==> a == b && f == g
  {
    if Frame(a, f) == Frame(b, g) {
      var x, y := Frame(a, f), Frame(b, g);
      var n := |V1_PREFIX|;
      assert |a| == |b|;
      assert x[n..|x| - 2] == a && y[n..|y| - 2] == b;
      assert x[|x| - 1] == f && y[|y| - 1] == g;
    }
  }

  /** Identifiers are hexadecimal, hence free of colons; then "id:name" determines both parts. */
  lemma AadInjective(id: Bytes, name: Bytes, id': Bytes, name': Bytes)
    requires ColonFree(id) && ColonFree(id')
    ensures MakeAad(id, name) == MakeAad(id', name') <==> id == id' && name == name'
  {
    AadParts(id, name);
    AadParts(id', name');
  }

  lemma AadParts(id: Bytes, name: Bytes)
    ensures var x := MakeAad(id, name);
            && |x| == |id| + 1 + |name|
            && x[|id|] == COLON
            && x[..|id|] == id
            && x[|id| + 1..] == name
            && forall i :: 0 <= i < |id| ==> x[i] == id[i]
  {
  }

  /** Without that guard the binding is ambiguous: ("a:b", "c") and ("a", "b:c") collide. */
  lemma AadCollides(a: Bytes, b: Bytes, c: Bytes)
    ensures MakeAad(a + [COLON] + b, c) == MakeAad(a, b + [COLON] + c)
    ensures (a + [COLON] + b, c) != (a, b + [COLON] + c)
  {
    assert MakeAad(a + [COLON] + b, c) == MakeAad(a, b + [COLON] + c);
    assert |a + [COLON] + b| != |a|;
  }

  // ----- what decryption of an encryption gives -----

  /** A v1 ciphertext opens under exactly its own key and context, and yields exactly its plaintext. */
  lemma OpensOwnV1(z: Codec, k: Key, plain: Bytes, a: Bytes, nonce: Bytes, k': Key, aad': Option<Bytes>)
    requires Lossless(z) && |nonce| == NONCE_LEN
    ensures Decrypt(z, k', Encrypt(z, k, plain, Some(a), nonce), aad')
         == if k == k' && (if aad'.Some? then aad'.value else []) == a then Ok(plain) else Err(BadTag)
  {
    var compressed := |plain| > COMPRESS_THRESHOLD && |z.deflate(plain)| < |plain|;
    var body := if compressed then z.deflate(plain) else plain;
    var flag := if compressed then Raw(1) else Raw(0);
    var ct := Seal(k, nonce, Some(Frame(a, flag)), body);
    var blob := Encrypt(z, k, plain, Some(a), nonce);
    assert blob == [V1, flag] + nonce + ct;
    assert blob[1] == flag && blob[2..2 + NONCE_LEN] == nonce && blob[2 + NONCE_LEN..] == ct;
    var context := if aad'.Some? then aad'.value else [];
    OpenSeal(k, nonce, Some(Frame(a, flag)), body, k', nonce, Some(Frame(context, flag)));
    FrameInjective(a, flag, context, flag);
  }

  /** A v0 ciphertext ignores the context.  It opens if and only if its nonce does not happen to
      start with the version octet of v1, in which case it is sliced as v1 and rejected. */
  lemma OpensLegacy(z: Codec, k: Key, plain: Bytes, nonce: Bytes, k': Key, aad': Option<Bytes>)
    requires |nonce| == NONCE_LEN
    ensures var r := Decrypt(z, k', Encrypt(z, k, plain, None, nonce), aad');
            && (r.Ok? <==> k == k' && nonce[0] != V1)
            && (r.Ok? ==> r.value == plain)
  {
    var ct := Seal(k, nonce, None, plain);
    var blob := Encrypt(z, k, plain, None, nonce);
    assert blob == nonce + ct && blob[0] == nonce[0];
    assert blob[..NONCE_LEN] == nonce && blob[NONCE_LEN..] == ct;
    OpenSeal(k, nonce, None, plain, k', nonce, None);
    if nonce[0] == V1 && |blob| >= 2 + NONCE_LEN + TAG_LEN {
      var tail := blob[2 + NONCE_LEN..];
      assert tail[0] == ct[2];
      var context := if aad'.Some? then aad'.value else [];
      TruncatedCannotOpen(k', blob[2..2 + NONCE_LEN], Some(Frame(context, blob[1])), tail);
    }
  }

  lemma TruncatedCannotOpen(k: Key, nonce: Bytes, ad: Option<Bytes>, ct: Bytes)
    requires |ct| > 0 && ct[0].Cipher? && ct[0].index != 0
    ensures Open(k, nonce, ad, ct) == None
  {
    assert Seal(k, nonce, ad, ct[0].plain)[0].index == 0;
  }

  /** The two round trips: v1 for every plaintext and context, v0 exactly when the nonce permits. */
  lemma RoundTrip(z: Codec, k: Key, plain: Bytes, aad: Option<Bytes>, nonce: Bytes)
    requires Lossless(z) && |nonce| == NONCE_LEN
    ensures Decrypt(z, k, Encrypt(z, k, plain, aad, nonce), aad) == Ok(plain)
       <==> aad.Some? || nonce[0] != V1
  {
    match aad
    case Some(a) => OpensOwnV1(z, k, plain, a, nonce, k, aad);
    case None => OpensLegacy(z, k, plain, nonce, k, None);
  }

  /** The fallback chain never yields a plaintext other than the one sealed, and a v1 ciphertext
      moved to a row with another id or name is rejected. */
  lemma FallbackIsExact(z: Codec, k: Key, plain: Bytes, id: Bytes, name: Bytes, nonce: Bytes,
                        k': Key, id': Bytes, name': Bytes)
    requires Lossless(z) && |nonce| == NONCE_LEN && ColonFree(id) && ColonFree(id')
    ensures var r := TryDecrypt(z, k', id', name', Encrypt(z, k, plain, Some(MakeAad(id, name)), nonce));
            && (r.Ok? <==> k == k' && id == id' && name == name')
            && (r.Ok? ==> r.value == plain)
    ensures var r := TryDecrypt(z, k', id', name', Encrypt(z, k, plain, None, nonce));
            && (r.Ok? <==> k == k' && nonce[0] != V1)
            && (r.Ok? ==> r.value == plain)
  {
    var a, a' := MakeAad(id, name), MakeAad(id', name');
    OpensOwnV1(z, k, plain, a, nonce, k', Some(a'));
    OpensOwnV1(z, k, plain, a, nonce, k', None);
    AadInjective(id, name, id', name');
    OpensLegacy(z, k, plain, nonce, k', Some(a'));
    OpensLegacy(z, k, plain, nonce, k', None);
  }

  // ----- keys that never sealed a blob cannot open it -----

  predicate Mentions(blob: Bytes, k: Key) {
    exists i :: 0 <= i < |blob| && blob[i].Cipher? && blob[i].key == k
  }

  lemma StrangerCannotOpen(z: Codec, k: Key, id: Bytes, name: Bytes, blob: Bytes)
    requires !Mentions(blob, k)
    ensures TryDecrypt(z, k, id, name, blob).Err?
  {
    forall aad: Option<Bytes> ensures Decrypt(z, k, blob, aad).Err? {
      if |blob| >= NONCE_LEN + TAG_LEN {
        var j := if blob[0] == V1 then 2 + NONCE_LEN else NONCE_LEN;
        if j < |blob| {
          var ct := blob[j..];
          forall nonce, ad, p ensures ct != Seal(k, nonce, ad, p) {
            assert Seal(k, nonce, ad, p)[0].key == k;
            assert ct[0] == blob[j];
          }
        }
      }
    }
  }

  /** Where the AEAD ciphertext of a blob starts. */
  function SealedFrom(blob: Bytes): nat {
    if blob != [] && blob[0] == V1 then 2 + NONCE_LEN else NONCE_LEN
  }

  lemma OpenedByItsKey(z: Codec, k: Key, blob: Bytes, aad: Option<Bytes>)
    requires Decrypt(z, k, blob, aad).Ok?
    ensures SealedFrom(blob) < |blob| && blob[SealedFrom(blob)].Cipher? && blob[SealedFrom(blob)].key == k
  {
    var j := SealedFrom(blob);
    assert blob[j] == blob[j..][0];
  }

  /** Two keys that both open a blob are the same key. */
  lemma OneKeyOpens(z: Codec, k: Key, k': Key, id: Bytes, name: Bytes, blob: Bytes)
    requires TryDecrypt(z, k, id, name, blob).Ok? && TryDecrypt(z, k', id, name, blob).Ok?
    ensures k == k'
  {
    var a := Some(MakeAad(id, name));
    OpenedByItsKey(z, k, blob, if Decrypt(z, k, blob, a).Ok? then a else None);
    OpenedByItsKey(z, k', blob, if Decrypt(z, k', blob, a).Ok? then a else None);
  }

  // ----- the layout -----

  /** A bound ciphertext is version, flag, nonce and sealed text.  The text is sealed deflated, and flagged so, if and
      only if it is longer than 256 octets and shorter deflated. */
  lemma BoundLayout(z: Codec, k: Key, plain: Bytes, aad: Bytes, nonce: Bytes)
    requires |nonce| == NONCE_LEN
    ensures var blob, packed := Encrypt(z, k, plain, Some(aad), nonce), z.deflate(plain);
            var small := |plain| > 256 && |packed| < |plain|;
            var body, flag := (if small then packed else plain), Raw(if small then 1 else 0);
            && |blob| == 30 + |body|
            && blob[0] == Raw(1) && blob[1] == flag && blob[2..14] == nonce
            && forall i :: 0 <= i < |body| + 16 ==>
                             blob[14 + i] == Cipher(k, nonce, Some(V1_PREFIX + aad + [BAR] + [flag]), body, i)
  {
    var packed := z.deflate(plain);
    var small := |plain| > 256 && |packed| < |plain|;
    var body, flag := (if small then packed else plain), Raw(if small then 1 else 0);
    assert Frame(aad, flag) == V1_PREFIX + aad + [BAR] + [flag];
    assert Encrypt(z, k, plain, Some(aad), nonce)
        == [V1, flag] + nonce + Seal(k, nonce, Some(Frame(aad, flag)), body);
  }

  /** An unbound one is nonce and sealed text, never deflated. */
  lemma UnboundLayout(z: Codec, k: Key, plain: Bytes, nonce: Bytes)
    requires |nonce| == NONCE_LEN
    ensures var blob := Encrypt(z, k, plain, None, nonce);
            && |blob| == 28 + |plain| && blob[..12] == nonce
            && forall i :: 0 <= i < |plain| + 16 ==> blob[12 + i] == Cipher(k, nonce, None, plain, i)
  {
  }

  /** What is too short to be looked at. */
  lemma ShortIsRefused(z: Codec, k: Key, blob: Bytes, aad: Option<Bytes>)
    ensures Decrypt(z, k, blob, aad) == Err(TooShort) <==> |blob| < 28 || (blob[0] == Raw(1) && |blob| < 30)
  {
  }

  /** A bound text is inflated if and only if the low bit of its flag is set, and rejected if that fails. */
  lemma FlagDecides(z: Codec, k: Key, plain: Bytes, aad: Bytes, nonce: Bytes, flag: Byte)
    requires |nonce| == NONCE_LEN
    ensures var blob := [V1, Raw(flag)] + nonce + Seal(k, nonce, Some(Frame(aad, Raw(flag))), plain);
            Decrypt(z, k, blob, Some(aad))
            == if flag % 2 == 0 then Ok(plain)
            else if z.inflate(plain).None? then Err(BadCompression) else Ok(z.inflate(plain).value)
  {
    var ct := Seal(k, nonce, Some(Frame(aad, Raw(flag))), plain);
    var blob := [V1, Raw(flag)] + nonce + ct;
    assert blob[2..2 + NONCE_LEN] == nonce && blob[2 + NONCE_LEN..] == ct;
    OpenSeal(k, nonce, Some(Frame(aad, Raw(flag))), plain, k, nonce, Some(Frame(aad, Raw(flag))));
  }
}
