/**
 * The token codec of the registration service: a plaintext token is sealed
 * with AES-256-GCM under a fixed key, the nonce is put in front of the sealed
 * bytes, and the whole is written in padded base64url so that it can stand in
 * a query string.
 *
 * AES-GCM itself (NIST SP 800-38D) is not modelled: a value of type Aead
 * stands for the cipher under the fixed key, and the one property the codec
 * relies on, that Open undoes Seal for the same nonce, is the hypothesis
 * OpenInvertsSeal of the lemmas that need it. Go's conversions between a
 * string and its bytes are exact inverses, so they are folded into the two
 * functions of an Aead.
 */
module TokenCodec {
  import opened Wrappers
  import opened Base64Url

  /** The nonce length of Go's `cipher.NewGCM`, which uses the standard 96-bit nonce. */
  const NonceSize: nat := 12

  /** The fixed key of the codec: the bytes of the ASCII text "A1b2C3d4E5f6G7h8I9j0K1l2M3n4O5p6". */
  const EncryptionKey: seq<byte> := [
    65, 49, 98, 50, 67, 51, 100, 52, 69, 53, 102, 54, 71, 55, 104, 56,
    73, 57, 106, 48, 75, 49, 108, 50, 77, 51, 110, 52, 79, 53, 112, 54]

  datatype CodecError =
    | CorruptInput      // not padded base64url
    | KeySize           // aes.NewCipher refused the key
    | ShortCiphertext   // fewer decoded bytes than one nonce
    | OpenFailed        // authentication failed
    | RandomUnavailable // the random source gave fewer bytes than one nonce

  /** AES-GCM under the codec's key: sealing, and opening that can fail. */
  datatype Aead = Aead(
    seal: (seq<byte>, string) -> seq<byte>,
    open: (seq<byte>, seq<byte>) -> Option<string>)

  /** The correctness of authenticated encryption: opening what was sealed with the same nonce succeeds. */
  ghost predicate OpenInvertsSeal(g: Aead) {
    forall nonce: seq<byte>, plaintext: string :: |nonce| == NonceSize ==>
      g.open(nonce, g.seal(nonce, plaintext)) == Some(plaintext)
  }

  /** `aes.NewCipher`: AES takes keys of 16, 24 or 32 bytes and refuses any other length. */
  function NewCipher(key: seq<byte>): (r: Outcome<CodecError>)
    ensures r.Pass? <==> |key| in {16, 24, 32}
  {
    if |key| == 16 || |key| == 24 || |key| == 32 then Pass else Fail(KeySize)
  }

  /** The codec's key is 32 bytes long, so building the cipher never fails. */
  lemma KeyIsAes256()
    ensures |EncryptionKey| == 32
    ensures NewCipher(EncryptionKey) == Pass
  {
  }

  /**
   * `encryptToken`: the nonce is the first NonceSize bytes of `random`
   * (`io.ReadFull` fails when the source has fewer), and the encoded bytes
   * are that nonce followed by the sealed token.
   */
  function EncryptToken(g: Aead, random: seq<byte>, token: string): (r: Result<string, CodecError>)
    ensures r.Ok? <==> |random| >= NonceSize
    ensures r.Err? ==> r.error == RandomUnavailable
    ensures r.Ok? ==> Decode(r.value) == Some(random[..NonceSize] + g.seal(random[..NonceSize], token))
  {
    KeyIsAes256();
    match NewCipher(EncryptionKey)
    case Fail(e) => Err(e)
    case Pass =>
      if |random| < NonceSize then Err(RandomUnavailable)
      else
        var nonce := random[..NonceSize];
        var sealed := nonce + g.seal(nonce, token);
        DecodeEncode(sealed);
        Ok(Encode(sealed))
  }

  /**
   * `decryptToken`: decode, split off the nonce, open the rest. Every failure
   * is an error and carries no plaintext.
   */
  function DecryptToken(g: Aead, encrypted: string): (r: Result<string, CodecError>)
    ensures Decode(encrypted).None? ==> r == Err(CorruptInput)
    ensures Decode(encrypted).Some? && |Decode(encrypted).value| < NonceSize ==> r == Err(ShortCiphertext)
    ensures r.Ok? <==>
      && Decode(encrypted).Some?
      && |Decode(encrypted).value| >= NonceSize
      && g.open(Decode(encrypted).value[..NonceSize], Decode(encrypted).value[NonceSize..]).Some?
    ensures r.Ok? ==>
      g.open(Decode(encrypted).value[..NonceSize], Decode(encrypted).value[NonceSize..]) == Some(r.value)
  {
    match Decode(encrypted)
    case None => Err(CorruptInput)
    case Some(data) =>
      KeyIsAes256();
      match NewCipher(EncryptionKey)
      case Fail(e) => Err(e)
      case Pass =>
        if |data| < NonceSize then Err(ShortCiphertext)
        else
          match g.open(data[..NonceSize], data[NonceSize..])
          case None => Err(OpenFailed)
          case Some(plaintext) => Ok(plaintext)
  }

  /** Decrypting what was encrypted gives the token back. */
  lemma DecryptEncrypt(g: Aead, random: seq<byte>, token: string)
    requires OpenInvertsSeal(g)
    requires |random| >= NonceSize
    ensures EncryptToken(g, random, token).Ok?
    ensures DecryptToken(g, EncryptToken(g, random, token).value) == Ok(token)
  {
    var nonce := random[..NonceSize];
    var data := nonce + g.seal(nonce, token);
    assert Decode(EncryptToken(g, random, token).value) == Some(data);
    assert data[..NonceSize] == nonce && data[NonceSize..] == g.seal(nonce, token);
  }

  /** A text that is not padded base64url is refused before any cipher work. */
  lemma DecryptRejectsMalformed(g: Aead, encrypted: string)
    requires !WellPadded(StripNewlines(encrypted))
    ensures DecryptToken(g, encrypted) == Err(CorruptInput)
  {
    DecodeAcceptsWellPadded(StripNewlines(encrypted));
  }

  /**
   * Twelve bytes take sixteen characters, so any text with fewer than sixteen
   * characters besides line breaks is refused.
   */
  lemma DecryptRejectsShort(g: Aead, encrypted: string)
    requires |StripNewlines(encrypted)| < 16
    ensures DecryptToken(g, encrypted).Err?
  {
    if Decode(encrypted).Some? {
      DecodedLength(StripNewlines(encrypted));
    }
  }
}
