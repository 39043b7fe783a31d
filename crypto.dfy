/**
 * The request/response codec (asyncmiele/utils/crypto.py): space padding, the
 * canonical signing string, the `MieleH256` authorization header, IV derivation,
 * and response decryption with trailing-space stripping.
 *
 * HMAC-SHA256 (RFC 2104, section 2) and AES-CBC (NIST SP 800-38A, section 6.2)
 * are not modelled; they are passed in as functions.
 */
module Crypto {
  import opened Wrappers
  import opened BinaryPrimitives
  import opened Text
  import opened Hex
  import Utf8

  /** ASCII space, the padding byte. */
  const Space: byte := 0x20

  /** Default `Accept` header of a signed request. */
  const DefaultAccept: string := "application/vnd.miele.v1+json"

  /** The AES block size in bytes (FIPS 197, section 3.1). */
  const AesBlockSize: int := 16
  /** The `blocksize` default of `pad_payload`, the AES block size. */
  const DefaultBlockSize: int := AesBlockSize

  /** A SHA-256 digest. */
  type Digest = d: Bytes | |d| == 32 witness seq(32, i => 0)

  /** HMAC-SHA256 applied to (key, message). */
  type Hmac = (Bytes, Bytes) -> Digest

  /** AES-CBC under (key, iv) applied to a byte string; `None` where the library raises. */
  type BlockCipher = (Bytes, Bytes, Bytes) -> Option<Bytes>

  // ---------------------------------------------------------------------------
  // Padding
  // ---------------------------------------------------------------------------

  predicate EndsInSpace(s: Bytes) {
    s != [] && s[|s| - 1] == Space
  }

  /** `pad_payload`: append spaces up to the next multiple of `blocksize`. */
  function PadPayload(payload: Bytes, blocksize: int): (r: Bytes)
    requires blocksize != 0
    ensures blocksize < 0 ==> r == payload
    ensures 0 < blocksize ==> |r| % blocksize == 0 && |payload| <= |r| < |payload| + blocksize
    ensures r[..|payload|] == payload
    ensures forall i | |payload| <= i < |r| :: r[i] == Space
    ensures 0 < blocksize && |payload| % blocksize == 0 ==> r == payload
  {
    // With a negative block size Python's floored remainder makes the pad count negative,
    // and repeating b" " a negative number of times gives no bytes.
    if blocksize < 0 then payload
    else
      var m := |payload| % blocksize;
      if m == 0 then payload
      else
        var q := |payload| / blocksize;
        assert |payload| == q * blocksize + m;
        assert (q + 1) * blocksize == q * blocksize + blocksize;
        DivModByConstant(q + 1, 0, blocksize);
        payload + seq(blocksize - m, i => Space)
  }

  /** `bytes.rstrip(b"\x20")`. */
  function RStripSpaces(s: Bytes): (r: Bytes)
    ensures r <= s
    ensures !EndsInSpace(r)
    ensures forall i | |r| <= i < |s| :: s[i] == Space
    decreases |s|
  {
    if EndsInSpace(s) then RStripSpaces(s[..|s| - 1]) else s
  }

  /** Stripping removes exactly the spaces appended to a payload that does not end in one. */
  lemma {:induction false} StripAppendedSpaces(p: Bytes, n: nat)
    requires !EndsInSpace(p)
    ensures RStripSpaces(p + seq(n, i => Space)) == p
    decreases n
  {
    var s := p + seq(n, i => Space);
    if n > 0 {
      assert EndsInSpace(s);
      assert s[..|s| - 1] == p + seq(n - 1, i => Space);
      StripAppendedSpaces(p, n - 1);
    } else {
      assert s == p;
    }
  }

  /** Padding is invisible after stripping, for a payload that does not end in a space. */
  lemma StripPadded(p: Bytes, blocksize: int)
    requires blocksize != 0 && !EndsInSpace(p)
    ensures RStripSpaces(PadPayload(p, blocksize)) == p
  {
    var r := PadPayload(p, blocksize);
    assert r == p + seq(|r| - |p|, i => Space);
    StripAppendedSpaces(p, |r| - |p|);
  }

  // ---------------------------------------------------------------------------
  // Signing
  // ---------------------------------------------------------------------------

  /** `_hmac_signature`: the upper-case hex of the HMAC of the payload. */
  function HmacSignature(payload: Bytes, key: Bytes, mac: Hmac): (hex: string)
    ensures |hex| == 64
    ensures forall i | 0 <= i < |hex| :: IsHexDigit(hex[i], true)
    ensures FromHex(hex) == Some(mac(key, payload))
  {
    FromHexToHex(mac(key, payload), true);
    UpperHex(mac(key, payload))
  }

  /** The `body` argument: absent, text, or bytes. */
  datatype RequestBody = NoBody | TextBody(text: string) | BinaryBody(data: Bytes)

  function BodyBytes(body: RequestBody): Bytes {
    match body
    case NoBody => []
    case TextBody(t) => Utf8.Encode(t)
    case BinaryBody(b) => b
  }

  /** The five header lines of the signed string, each ended by a line feed. */
  function CanonicalText(verb: string, host: string, resource: string, contentType: string,
                         accept: string, date: string): string
  {
    AsciiUpper(verb) + "\n" + host + resource + "\n" + contentType + "\n" + accept + "\n"
      + date + "\n"
  }

  /** The `UnicodeEncodeError` of a non-ASCII header line. */
  datatype AuthError = NonAsciiHeader

  /** The `Authorization` value and the IV for the request body. */
  datatype AuthHeader = AuthHeader(authorization: string, iv: Bytes)

  /**
   * `build_auth_header`: HMAC the ASCII header lines followed by the body, render the
   * header, and take the IV from the hex digest decoded back to bytes.
   */
  function BuildAuthHeader(verb: string, host: string, resource: string, date: string,
                           groupId: Bytes, groupKey: Bytes, accept: string, contentType: string,
                           body: RequestBody, mac: Hmac): (r: Result<AuthHeader, AuthError>)
    ensures r.Ok? <==> IsAscii(CanonicalText(verb, host, resource, contentType, accept, date))
    ensures r.Ok? ==>
      var digest := mac(groupKey, AsciiBytes(CanonicalText(verb, host, resource, contentType,
                                                             accept, date)) + BodyBytes(body));
      && |r.value.iv| == 16
      && r.value.iv == digest[..16]
      && r.value.authorization == "MieleH256 " + LowerHex(groupId) + ":" + UpperHex(digest)
  {
    var text := CanonicalText(verb, host, resource, contentType, accept, date);
    if !IsAscii(text) then Err(NonAsciiHeader)
    else
      var canonical := AsciiBytes(text) + BodyBytes(body);
      var digestHex := HmacSignature(canonical, groupKey, mac);
      var ivBytes := FromHex(digestHex).value[..16];
      Ok(AuthHeader("MieleH256 " + LowerHex(groupId) + ":" + digestHex, ivBytes))
  }

  /** The header splits back into its scheme, the group id and the digest. */
  lemma AuthHeaderFields(h: string, groupId: Bytes, digest: Digest)
    requires h == "MieleH256 " + LowerHex(groupId) + ":" + UpperHex(digest)
    ensures |h| == 10 + 2 * |groupId| + 1 + 64
    ensures h[..10] == "MieleH256 "
    ensures FromHex(h[10..10 + 2 * |groupId|]) == Some(groupId)
    ensures h[10 + 2 * |groupId|] == ':'
    ensures FromHex(h[10 + 2 * |groupId| + 1..]) == Some(digest)
  {
    var n := 10 + 2 * |groupId|;
    assert h[10..n] == LowerHex(groupId);
    assert h[n + 1..] == UpperHex(digest);
    FromHexToHex(groupId, false);
    FromHexToHex(digest, true);
  }

  // ---------------------------------------------------------------------------
  // Encryption and decryption
  // ---------------------------------------------------------------------------

  /**
   * `encrypt_payload`: AES-CBC with no padding of its own, so `finalize` refuses a
   * plaintext that is not a whole number of 16-byte blocks.
   */
  function EncryptPayload(plaintext: Bytes, key: Bytes, iv: Bytes, encrypt: BlockCipher): (r: Option<Bytes>)
    ensures r.Some? ==> |plaintext| % AesBlockSize == 0
    ensures |plaintext| % AesBlockSize == 0 ==> r == encrypt(key, iv, plaintext)
  {
    if |plaintext| % AesBlockSize != 0 then None else encrypt(key, iv, plaintext)
  }

  /** A padded payload is always a whole number of AES blocks, so only the cipher can refuse it. */
  lemma PaddedEncrypts(p: Bytes, key: Bytes, iv: Bytes, encrypt: BlockCipher)
    ensures EncryptPayload(PadPayload(p, DefaultBlockSize), key, iv, encrypt)
      == encrypt(key, iv, PadPayload(p, DefaultBlockSize))
  {
  }

  /** `decrypt_and_unpad`: `None` where the cipher raises. */
  function DecryptAndUnpad(ciphertext: Bytes, key: Bytes, iv: Bytes, decrypt: BlockCipher): (r: Option<Bytes>)
    ensures r.Some? <==> decrypt(key, iv, ciphertext).Some?
    ensures r.Some? ==>
      && !EndsInSpace(r.value)
      && r.value <= decrypt(key, iv, ciphertext).value
      && forall i | |r.value| <= i < |decrypt(key, iv, ciphertext).value| ::
           decrypt(key, iv, ciphertext).value[i] == Space
  {
    match decrypt(key, iv, ciphertext)
    case Some(plaintext) => Some(RStripSpaces(plaintext))
    case None => None
  }

  datatype DecryptionError = DecryptionError

  /**
   * `decrypt_response`: the key is the first half of the group key, the IV the first
   * half of the received signature; any cipher failure is a DecryptionError.
   */
  function DecryptResponse(body: Bytes, signature: Bytes, groupKey: Bytes, decrypt: BlockCipher)
    : (r: Result<Bytes, DecryptionError>)
    ensures r.Ok? <==> decrypt(groupKey[..|groupKey| / 2], signature[..|signature| / 2], body).Some?
    ensures r.Ok? ==>
      Some(r.value) == DecryptAndUnpad(body, groupKey[..|groupKey| / 2], signature[..|signature| / 2], decrypt)
    ensures r.Ok? ==> !EndsInSpace(r.value)
  {
    var key := groupKey[..|groupKey| / 2];
    var iv := signature[..|signature| / 2];
    match DecryptAndUnpad(body, key, iv, decrypt)
    case Some(plaintext) => Ok(plaintext)
    case None => Err(DecryptionError)
  }

  /** The cipher pair decrypts whatever it encrypted under the same key and IV. */
  ghost predicate Inverts(encrypt: BlockCipher, decrypt: BlockCipher) {
    forall key, iv, p :: encrypt(key, iv, p).Some? ==> decrypt(key, iv, encrypt(key, iv, p).value) == Some(p)
  }

  /** Pad, encrypt, decrypt and strip gives back a payload that does not end in a space. */
  lemma PaddedRoundTrip(p: Bytes, key: Bytes, iv: Bytes, encrypt: BlockCipher, decrypt: BlockCipher)
    requires Inverts(encrypt, decrypt) && !EndsInSpace(p)
    requires EncryptPayload(PadPayload(p, DefaultBlockSize), key, iv, encrypt).Some?
    ensures DecryptAndUnpad(EncryptPayload(PadPayload(p, DefaultBlockSize), key, iv, encrypt).value,
                            key, iv, decrypt) == Some(p)
  {
    StripPadded(p, DefaultBlockSize);
  }

  /**
   * A response body the device encrypted from a padded payload under the first half of
   * the group key and the first half of its signature decrypts to that payload.
   */
  lemma ResponseRoundTrip(p: Bytes, signature: Bytes, groupKey: Bytes,
                          encrypt: BlockCipher, decrypt: BlockCipher)
    requires Inverts(encrypt, decrypt) && !EndsInSpace(p)
    requires encrypt(groupKey[..|groupKey| / 2], signature[..|signature| / 2],
                     PadPayload(p, DefaultBlockSize)).Some?
    ensures DecryptResponse(encrypt(groupKey[..|groupKey| / 2], signature[..|signature| / 2],
                                    PadPayload(p, DefaultBlockSize)).value,
                            signature, groupKey, decrypt) == Ok(p)
  {
    StripPadded(p, DefaultBlockSize);
  }

  /** `pad_payload(b"")` is empty and three bytes gain thirteen spaces. */
  lemma PadExamples()
    ensures PadPayload([], DefaultBlockSize) == []
    ensures PadPayload([1, 2, 3], -16) == [1, 2, 3]
    ensures PadPayload([1, 2, 3], DefaultBlockSize) == [1, 2, 3] + seq(13, i => Space)
  {
  }
}
