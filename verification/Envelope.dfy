/** The envelope format for key material at rest (src/crypto/mod.rs, src/crypto/local.rs). */
module Envelope {
  import opened Models

  type Nonce = n: bytes | |n| == 12 witness seq(12, _ => 0)
  type Key32 = k: bytes | |k| == 32 witness seq(32, _ => 0)

  /** AES-256-GCM: foreign code, known only by `Lawful`. */
  datatype Gcm = Gcm(enc: (Key32, Nonce, bytes) -> Option<bytes>, dec: (Key32, Nonce, bytes) -> Option<bytes>)

  /** Sections 7.1 and 7.2 of NIST SP 800-38D: a 16-byte tag, and decryption undoes encryption. */
  ghost predicate Lawful(gcm: Gcm)
  {
    forall k: Key32, n: Nonce, p: bytes :: gcm.enc(k, n, p).Some? ==>
      |gcm.enc(k, n, p).value| == |p| + 16 && gcm.dec(k, n, gcm.enc(k, n, p).value) == Some(p)
  }

  /** The KeyProvider trait; `wrap` draws its own 12 random bytes. */
  datatype Provider = Provider(wrap: (Key32, Nonce) -> Result<bytes>, unwrap: bytes -> Result<bytes>)

  ghost predicate Faithful(p: Provider)
  {
    forall dek: Key32, r: Nonce :: p.wrap(dek, r).Ok? ==> p.unwrap(p.wrap(dek, r).value) == Ok(dek)
  }

  /** The random bytes one `seal` draws. */
  datatype Coins = Coins(dek: Key32, nonce: Nonce, wrapping: Nonce)

  const MAGIC: bytes := [0x50, 0x45, 0x4E, 0x56]  // "PENV"
  const VERSION: byte := 1
  const FIXED_HEADER := 7

  predicate IsEnvelope(data: bytes) { |data| >= FIXED_HEADER && data[..4] == MAGIC }

  function Layout(wrapped: bytes, nonce: bytes, ciphertext: bytes): bytes
    requires |wrapped| < 0x1_0000
  {
    MAGIC + [VERSION] + [|wrapped| % 0x100, |wrapped| / 0x100] + wrapped + nonce + ciphertext
  }

  datatype Parsed =
    | Legacy
    | Malformed(error: Error)
    | Parts(wrapped: bytes, nonce: Nonce, ciphertext: bytes)

  function Parse(data: bytes): Parsed
  {
    if !IsEnvelope(data) then Legacy
    else if data[4] != VERSION then Malformed(UnsupportedVersion)
    else
      var wrappedEnd := FIXED_HEADER + (data[5] as int) + 0x100 * (data[6] as int);
      var nonceEnd := wrappedEnd + 12;
      if |data| < nonceEnd + 16 then Malformed(Truncated)
      else Parts(data[FIXED_HEADER..wrappedEnd], data[wrappedEnd..nonceEnd], data[nonceEnd..])
  }

  function Seal(gcm: Gcm, provider: Provider, plaintext: bytes, c: Coins): Result<bytes>
  {
    match provider.wrap(c.dek, c.wrapping)
    case Err(e) => Err(e)
    case Ok(wrapped) =>
      if |wrapped| >= 0x1_0000 then Err(KeyProvider)
      else match gcm.enc(c.dek, c.nonce, plaintext)
        case None => Err(Decryption)
        case Some(ciphertext) => Ok(Layout(wrapped, c.nonce, ciphertext))
  }

  function Open(gcm: Gcm, provider: Provider, data: bytes): Result<Option<bytes>>
  {
    match Parse(data)
    case Legacy => Ok(None)
    case Malformed(e) => Err(e)
    case Parts(wrapped, nonce, ciphertext) =>
      match provider.unwrap(wrapped)
      case Err(e) => Err(e)
      case Ok(dek) =>
        if |dek| != 32 then Err(BadKeyLength)
        else match gcm.dec(dek, nonce, ciphertext)
          case None => Err(Decryption)
          case Some(plaintext) => Ok(Some(plaintext))
  }

  /** seal, as it appends to its buffer: "PENV", version 1, the length of the wrapped key in two bytes, low
      byte first, the wrapped key, the nonce and the ciphertext. */
  method SealEnvelope(gcm: Gcm, provider: Provider, plaintext: bytes, c: Coins) returns (r: Result<bytes>)
    ensures r == Seal(gcm, provider, plaintext, c)
    ensures var wrap, encrypted := provider.wrap(c.dek, c.wrapping), gcm.enc(c.dek, c.nonce, plaintext);
            if wrap.Err? then r == Err(wrap.error)
            else if |wrap.value| > 0xFFFF then r == Err(KeyProvider)
            else if encrypted.None? then r == Err(Decryption)
            else var n := |wrap.value|;
                 r == Ok([0x50, 0x45, 0x4E, 0x56, 1, n % 256, n / 256] + wrap.value + c.nonce + encrypted.value)
  {
    var wrap := provider.wrap(c.dek, c.wrapping);
    if wrap.Err? {
      return Err(wrap.error);
    }
    var wrapped := wrap.value;
    if |wrapped| >= 0x1_0000 {
      return Err(KeyProvider);
    }
    var encrypted := gcm.enc(c.dek, c.nonce, plaintext);
    if encrypted.None? {
      return Err(Decryption);
    }
    var envelope := MAGIC;
    envelope := envelope + [VERSION];
    envelope := envelope + [|wrapped| % 0x100, |wrapped| / 0x100];
    assert envelope == [0x50, 0x45, 0x4E, 0x56, 1, |wrapped| % 256, |wrapped| / 256];
    envelope := envelope + wrapped;
    envelope := envelope + c.nonce;
    envelope := envelope + encrypted.value;
    return Ok(envelope);
  }

  /** Printing then parsing gives the three parts back. */
  lemma ParseLayout(wrapped: bytes, nonce: Nonce, ciphertext: bytes)
    requires Printable(wrapped, nonce, ciphertext)
    ensures Parse(Layout(wrapped, nonce, ciphertext)) == Parts(wrapped, nonce, ciphertext)
  {
    var data := Layout(wrapped, nonce, ciphertext);
    var end := FIXED_HEADER + |wrapped|;
    assert data[..4] == MAGIC && data[4] == VERSION;
    assert data[5] == |wrapped| % 0x100 && data[6] == |wrapped| / 0x100;
    assert data[FIXED_HEADER..end] == wrapped && data[end..end + 12] == nonce && data[end + 12..] == ciphertext;
  }

  /** Parsing then printing gives every valid version-1 envelope back. */
  lemma LayoutParse(data: bytes)
    requires Parse(data).Parts?
    ensures var p := Parse(data);
            Printable(p.wrapped, p.nonce, p.ciphertext) && Layout(p.wrapped, p.nonce, p.ciphertext) == data
  {
    var p := Parse(data);
    var end := FIXED_HEADER + |p.wrapped|;
    assert |p.wrapped| % 0x100 == data[5] && |p.wrapped| / 0x100 == data[6];
    assert data[..7] == MAGIC + [VERSION] + [data[5], data[6]];
    Pieces(data, 7, end, end + 12);
  }

  lemma Pieces(data: bytes, i: nat, j: nat, k: nat)
    requires i <= j <= k <= |data|
    ensures data == data[..i] + data[i..j] + data[j..k] + data[k..]
  {
  }

  predicate Printable(wrapped: bytes, nonce: Nonce, ciphertext: bytes)
  {
    |wrapped| < 0x1_0000 && |ciphertext| >= 16
  }

  /** The parser accepts exactly the images of the printer. */
  lemma ValidEnvelopes(data: bytes)
    ensures Parse(data).Parts? <==>
            exists w: bytes, n: Nonce, c: bytes :: Printable(w, n, c) && Layout(w, n, c) == data
  {
    if Parse(data).Parts? {
      LayoutParse(data);
      assert Printable(Parse(data).wrapped, Parse(data).nonce, Parse(data).ciphertext);
    }
    if w: bytes, n: Nonce, c: bytes :| Printable(w, n, c) && Layout(w, n, c) == data {
      ParseLayout(w, n, c);
    }
  }

  lemma OpenSeal(gcm: Gcm, provider: Provider, plaintext: bytes, c: Coins)
    requires Lawful(gcm) && Faithful(provider)
    ensures var sealed := Seal(gcm, provider, plaintext, c);
            sealed.Ok? ==> IsEnvelope(sealed.value) && Open(gcm, provider, sealed.value) == Ok(Some(plaintext))
  {
    var sealed := Seal(gcm, provider, plaintext, c);
    if sealed.Ok? {
      var wrapped := provider.wrap(c.dek, c.wrapping).value;
      ParseLayout(wrapped, c.nonce, gcm.enc(c.dek, c.nonce, plaintext).value);
    }
  }

  /** The bytes start like an envelope: the magic "PENV", a version and a length. */
  predicate Enveloped(data: bytes)
  {
    |data| >= 7 && data[0] == 0x50 && data[1] == 0x45 && data[2] == 0x4E && data[3] == 0x56
  }

  lemma EnvelopedIff(data: bytes)
    ensures IsEnvelope(data) <==> Enveloped(data)
  {
    if |data| >= 7 { assert data[..4] == [data[0], data[1], data[2], data[3]]; }
  }

  /** `open` hands data back to its caller exactly when the data is no envelope, and only then
      without consulting the provider. */
  lemma OpenNone(gcm: Gcm, provider: Provider, data: bytes)
    ensures Open(gcm, provider, data) == Ok(None) <==> !Enveloped(data)
  {
    EnvelopedIff(data);
  }

  /** An envelope of another version or without room for its wrapped key, nonce and tag is refused for
      that; of any other the wrapped key must unwrap to 32 bytes that decrypt the rest. */
  lemma OpenErrors(gcm: Gcm, provider: Provider, data: bytes)
    requires Enveloped(data)
    ensures var n: nat := (data[5] as int) + 256 * (data[6] as int);
            var r := Open(gcm, provider, data);
            if data[4] != 1 then r == Err(UnsupportedVersion)
            else if |data| < 7 + n + 12 + 16 then r == Err(Truncated)
            else var dek := provider.unwrap(data[7..7 + n]);
                 if dek.Err? then r == Err(dek.error)
                 else if |dek.value| != 32 then r == Err(BadKeyLength)
                 else var p := gcm.dec(dek.value, data[7 + n..19 + n], data[19 + n..]);
                      r == if p.Some? then Ok(Some(p.value)) else Err(Decryption)
  {
    EnvelopedIff(data);
  }

  // --- LocalKeyProvider ---

  function WrapLocal(gcm: Gcm, kek: Key32, dek: Key32, nonce: Nonce): Result<bytes>
  {
    match gcm.enc(kek, nonce, dek)
    case None => Err(KeyProvider)
    case Some(ct) => Ok(nonce + ct)
  }

  function UnwrapLocal(gcm: Gcm, kek: Key32, wrapped: bytes): Result<bytes>
  {
    if |wrapped| < 12 + 16 then Err(Truncated)
    else match gcm.dec(kek, wrapped[..12], wrapped[12..])
      case None => Err(Decryption)
      case Some(dek) => Ok(dek)
  }

  /** wrap_dek, as it fills its output buffer. */
  method WrapDek(gcm: Gcm, kek: Key32, dek: Key32, nonce: Nonce) returns (r: Result<bytes>)
    ensures r == WrapLocal(gcm, kek, dek, nonce)
    ensures r == match gcm.enc(kek, nonce, dek) case Some(ct) => Ok(nonce + ct) case None => Err(KeyProvider)
  {
    var ct := gcm.enc(kek, nonce, dek);
    if ct.None? {
      return Err(KeyProvider);
    }
    var out := nonce;
    out := out + ct.value;
    return Ok(out);
  }

  function Local(gcm: Gcm, kek: Key32): Provider
  {
    Provider((dek, nonce) => WrapLocal(gcm, kek, dek, nonce), wrapped => UnwrapLocal(gcm, kek, wrapped))
  }

  /** A blob too short for a nonce and a tag is refused; any other is decrypted under its nonce. */
  lemma LocalUnwraps(gcm: Gcm, kek: Key32, wrapped: bytes)
    ensures var r := Local(gcm, kek).unwrap(wrapped);
            if |wrapped| < 28 then r == Err(Truncated)
            else var dek := gcm.dec(kek, wrapped[..12], wrapped[12..]);
                 r == if dek.Some? then Ok(dek.value) else Err(Decryption)
  {
  }

  lemma LocalFaithful(gcm: Gcm, kek: Key32)
    requires Lawful(gcm)
    ensures Faithful(Local(gcm, kek))
    ensures forall dek: Key32, nonce: Nonce ::
              var w := Local(gcm, kek).wrap(dek, nonce); w.Ok? ==> |w.value| == 60
  {
    forall dek: Key32, nonce: Nonce | gcm.enc(kek, nonce, dek).Some?
      ensures var w := WrapLocal(gcm, kek, dek, nonce).value;
              |w| == 60 && UnwrapLocal(gcm, kek, w) == Ok(dek)
    {
      var ct := gcm.enc(kek, nonce, dek).value;
      assert (nonce + ct)[..12] == nonce && (nonce + ct)[12..] == ct;
    }
  }
}
