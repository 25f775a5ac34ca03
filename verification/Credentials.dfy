/** The byte form of a stored trading credential.  Texts are byte sequences; whether bytes are
    valid UTF-8 is a parameter. */
module Credentials {
  import opened ByteStrings
  import opened Options

  datatype Credential = Credential(login: Bytes, password: Bytes, server: Bytes)

  const VERSION: Byte := 1
  const HEADER_BYTES := 7
  const MAX_BLOB_BYTES := 5 * 512

  predicate AllDigits(text: Bytes) {
    forall b <- text :: 48 <= b <= 57
  }

  /** No carriage return, line feed or zero byte. */
  predicate PlainText(text: Bytes) {
    10 !in text && 13 !in text && 0 !in text
  }

  predicate ValidCredential(c: Credential, utf8: Bytes -> bool) {
    && 1 <= |c.login| <= 32 && AllDigits(c.login)
    && 1 <= |c.password| <= 256 && utf8(c.password) && PlainText(c.password)
    && 1 <= |c.server| <= 128 && utf8(c.server) && PlainText(c.server)
  }

  /** A length as a little-endian 16-bit number, cut to 16 bits. */
  function PutUint16(n: nat): (r: Bytes)
    ensures |r| == 2
  {
    [(n % 256) as Byte, (n / 256 % 256) as Byte]
  }

  function Uint16(low: Byte, high: Byte): nat {
    low as int + 256 * high as int
  }

  function Encoded(c: Credential): Bytes {
    [VERSION] + PutUint16(|c.login|) + PutUint16(|c.password|) + PutUint16(|c.server|) + c.login + c.password + c.server
  }

  method EncodeCredential(c: Credential, utf8: Bytes -> bool) returns (r: Option<Bytes>)
    ensures r == if ValidCredential(c, utf8) then Some(Encoded(c)) else None
  {
    if !ValidCredential(c, utf8) {
      return None;
    }
    hide ValidCredential, PutUint16, Encoded;
    var total := HEADER_BYTES + |c.login| + |c.password| + |c.server|;
    var blob := new Byte[total](_ => 0);
    WriteHeader(blob, c);
    var offset := HEADER_BYTES;
    CopyInto(blob, offset, c.login);
    offset := offset + |c.login|;
    CopyInto(blob, offset, c.password);
    offset := offset + |c.password|;
    CopyInto(blob, offset, c.server);
    assert blob[..total] == blob[..];
    EncodedIs(c);
    return Some(blob[..]);
  }

  lemma {:induction false} EncodedIs(c: Credential)
    ensures Encoded(c) == [VERSION] + PutUint16(|c.login|) + PutUint16(|c.password|) + PutUint16(|c.server|) + c.login
            + c.password + c.server
  {
  }

  method WriteHeader(blob: array<Byte>, c: Credential)
    requires blob.Length >= HEADER_BYTES
    modifies blob
    ensures blob[..HEADER_BYTES] == [VERSION] + PutUint16(|c.login|) + PutUint16(|c.password|) + PutUint16(|c.server|)
  {
    hide PutUint16;
    blob[0] := VERSION;
    assert blob[..1] == [VERSION];
    WriteUint16(blob, 1, |c.login|);
    WriteUint16(blob, 3, |c.password|);
    WriteUint16(blob, 5, |c.server|);
  }

  method WriteUint16(blob: array<Byte>, offset: nat, n: nat)
    requires offset + 2 <= blob.Length
    modifies blob
    ensures blob[..offset + 2] == old(blob[..offset]) + PutUint16(n)
  {
    blob[offset] := (n % 256) as Byte;
    blob[offset + 1] := (n / 256 % 256) as Byte;
  }

  /** copy(blob[offset:], text) where the text fits. */
  method CopyInto(blob: array<Byte>, offset: nat, text: Bytes)
    requires offset + |text| <= blob.Length
    modifies blob
    ensures blob[..offset + |text|] == old(blob[..offset]) + text
  {
    for i := 0 to |text|
      invariant blob[..offset + i] == old(blob[..offset]) + text[..i]
    {
      blob[offset + i] := text[i];
      assert blob[..offset + i + 1] == blob[..offset + i] + [text[i]];
    }
  }

  lemma {:induction false} LayOut(c: Credential, blob: Bytes)
    requires |blob| == HEADER_BYTES + |c.login| + |c.password| + |c.server|
    requires blob[..HEADER_BYTES] == [VERSION] + PutUint16(|c.login|) + PutUint16(|c.password|) + PutUint16(|c.server|)
    requires var l := HEADER_BYTES + |c.login|;
             var p := l + |c.password|;
             blob[HEADER_BYTES..l] == c.login && blob[l..p] == c.password && blob[p..] == c.server
    ensures blob == Encoded(c)
  {
  }

  function Decode(blob: Bytes, utf8: Bytes -> bool): Option<Credential> {
    if |blob| < HEADER_BYTES || |blob| > MAX_BLOB_BYTES || blob[0] != VERSION then None
    else
      var l, p, s := Uint16(blob[1], blob[2]), Uint16(blob[3], blob[4]), Uint16(blob[5], blob[6]);
      if l + p + s != |blob| - HEADER_BYTES then None
      else
        var c := Credential(blob[HEADER_BYTES..HEADER_BYTES + l], blob[HEADER_BYTES + l..HEADER_BYTES + l + p],
                            blob[HEADER_BYTES + l + p..]);
        if ValidCredential(c, utf8) then Some(c) else None
  }

  lemma {:induction false} Uint16OfPut(n: nat)
    requires n < 65536
    ensures Uint16(PutUint16(n)[0], PutUint16(n)[1]) == n
  {
  }

  lemma {:induction false} PutOfUint16(low: Byte, high: Byte)
    ensures PutUint16(Uint16(low, high)) == [low, high]
  {
  }

  lemma {:induction false} PartsOfEncoded(c: Credential)
    ensures var b := Encoded(c);
            && |b| == HEADER_BYTES + |c.login| + |c.password| + |c.server|
            && b[0] == VERSION && b[1..3] == PutUint16(|c.login|) && b[3..5] == PutUint16(|c.password|)
               && b[5..7] == PutUint16(|c.server|)
            && b[HEADER_BYTES..HEADER_BYTES + |c.login|] == c.login
            && b[HEADER_BYTES + |c.login|..HEADER_BYTES + |c.login| + |c.password|] == c.password
            && b[HEADER_BYTES + |c.login| + |c.password|..] == c.server
  {
  }

  /** Decoding undoes encoding, for every valid credential. */
  lemma {:induction false} DecodeOfEncoded(c: Credential, utf8: Bytes -> bool)
    requires ValidCredential(c, utf8)
    ensures Decode(Encoded(c), utf8) == Some(c)
  {
    hide Encoded, PutUint16, Uint16;
    var b := Encoded(c);
    PartsOfEncoded(c);
    Uint16OfPut(|c.login|);
    Uint16OfPut(|c.password|);
    Uint16OfPut(|c.server|);
    TwoBytes(b, 1);
    TwoBytes(b, 3);
    TwoBytes(b, 5);
  }

  lemma {:induction false} TwoBytes(b: Bytes, i: nat)
    requires i + 2 <= |b|
    ensures b[i..i + 2] == [b[i], b[i + 1]]
  {
  }

  /** Every accepted blob is the encoding of what it was decoded to: there is one blob for each credential. */
  lemma {:induction false} EncodedOfDecoded(blob: Bytes, utf8: Bytes -> bool)
    requires Decode(blob, utf8).Some?
    ensures ValidCredential(Decode(blob, utf8).value, utf8)
    ensures Encoded(Decode(blob, utf8).value) == blob
  {
    hide Encoded, PutUint16, Uint16;
    var c := Decode(blob, utf8).value;
    PutOfUint16(blob[1], blob[2]);
    PutOfUint16(blob[3], blob[4]);
    PutOfUint16(blob[5], blob[6]);
    assert blob[..HEADER_BYTES] == [VERSION] + [blob[1], blob[2]] + [blob[3], blob[4]] + [blob[5], blob[6]];
    LayOut(c, blob);
  }

  method DecodeCredential(blob: Bytes, utf8: Bytes -> bool) returns (r: Option<Credential>)
    ensures r == Decode(blob, utf8)
    ensures r.Some? <==> exists c :: ValidCredential(c, utf8) && Encoded(c) == blob
    ensures r.Some? ==> Encoded(r.value) == blob
  {
    if Decode(blob, utf8).Some? {
      EncodedOfDecoded(blob, utf8);
    }
    forall c | ValidCredential(c, utf8) && Encoded(c) == blob
      ensures Decode(blob, utf8).Some?
    {
      DecodeOfEncoded(c, utf8);
    }
    if |blob| < HEADER_BYTES || |blob| == 0 || |blob| > MAX_BLOB_BYTES || blob[0] != VERSION {
      return None;
    }
    var loginLength := Uint16(blob[1], blob[2]);
    var passwordLength := Uint16(blob[3], blob[4]);
    var serverLength := Uint16(blob[5], blob[6]);
    if loginLength + passwordLength + serverLength != |blob| - HEADER_BYTES {
      return None;
    }
    var passwordStart := HEADER_BYTES + loginLength;
    var serverStart := passwordStart + passwordLength;
    var c := Credential(blob[HEADER_BYTES..passwordStart], blob[passwordStart..serverStart], blob[serverStart..]);
    if !ValidCredential(c, utf8) {
      return None;
    }
    return Some(c);
  }
}
