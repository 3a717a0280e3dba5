/**
 * RADIUS packets: packing, the in-place Message-Authenticator of `build`, and the validation of
 * received packets against section 3 of RFC 2865 and section 5.14 of RFC 2869. MD5 and HMAC-MD5
 * are arbitrary functions with 16-octet results.
 */
module RadiusPackets {
  import opened Octets
  import opened RadiusAttributes
  import opened RadiusList

  const HEADER_LENGTH := 20
  const ACCESS_REQUEST: Octet := 1
  const ACCESS_ACCEPT: Octet := 2
  const ACCESS_REJECT: Octet := 3
  const ACCESS_CHALLENGE: Octet := 11

  datatype Crypto = Crypto(md5: Octets -> Digest, hmac: (Octets, Octets) -> Digest)

  datatype Error =
    | StructError    // a length does not fit its field; not caught
    | IndexError     // a write beyond the packed octets; not caught
    | SecretMissing  // ValueError; not caught
    | ShortHeader
    | UnknownCode
    | UnknownPacketId
    | BadAttributes(error: ParseError)
    | NotAuthentic

  datatype Packet = Packet(code: Octet, id: Octet, authenticator: Digest, attributes: Attributes) {
    predicate Packs() { Packable(attributes) && HEADER_LENGTH + LengthOf(attributes) < 0x1_0000 }

    function Pack(): Octets
      requires Packs()
    {
      [code, id] + Pack16(HEADER_LENGTH + LengthOf(attributes)) + authenticator + PackList(attributes)
    }

    function WithMa(digest: Digest): Packet
    {
      match FindFirst(attributes, MESSAGE_AUTHENTICATOR)
      case None => this
      case Some(k) => this.(attributes := attributes[k := MaAttribute(digest)])
    }

    /** Where `build` puts the digest: behind the header of the first Message-Authenticator. */
    function MaPosition(): Option<nat>
    {
      Shift(HEADER_LENGTH + HEADER_SIZE, PositionOf(attributes, MESSAGE_AUTHENTICATOR))
    }
  }

  /** The digest over `packed` put at the packet's Message-Authenticator, if it has one. */
  function Filled(c: Crypto, p: Packet, packed: Octets, secret: Octets): Octets
  {
    var position := p.MaPosition();
    if position.None? || secret == [] then packed
    else Patch(packed, position.value, c.hmac(secret, packed))
  }

  /** The octets of `build`. */
  function Built(c: Crypto, p: Packet, secret: Octets): Octets
    requires p.Packs()
  {
    Filled(c, p, p.Pack(), secret)
  }

  function ResponseError(c: Crypto, p: Packet, secret: Octets, request: Digest): Option<Error>
  {
    if p.code !in {ACCESS_REJECT, ACCESS_ACCEPT, ACCESS_CHALLENGE} then None
    else
      var copy := p.(authenticator := request);
      if !copy.Packs() then Some(StructError)
      else if c.md5(copy.Pack() + secret) != p.authenticator then Some(NotAuthentic)
      else None
  }

  function MaError(c: Crypto, p: Packet, secret: Octets, request: Digest): Option<Error>
  {
    match FindFirst(p.attributes, MESSAGE_AUTHENTICATOR)
    case None => None
    case Some(k) =>
      var copy := p.(authenticator := request).WithMa(ZERO_DIGEST);
      if !copy.Packs() then Some(StructError)
      else if c.hmac(secret, copy.Pack()) != p.attributes[k].data then Some(NotAuthentic)
      else None
  }

  function ValidationError(c: Crypto, p: Packet, secret: Octets, request: Digest): Option<Error>
  {
    if secret == [] then Some(SecretMissing)
    else if ResponseError(c, p, secret, request).Some? then ResponseError(c, p, secret, request)
    else MaError(c, p, secret, request)
  }

  /** What `Radius.parse` returns or raises; the Length field of the header plays no part. */
  function ParsePacket(c: Crypto, message: Octets, secret: Octets, known: map<Octet, Digest>)
    : (r: Result<Packet, Error>)
  {
    if |message| < HEADER_LENGTH then Err(ShortHeader)
    else
      var code, id, authenticator := message[0], message[1], message[4..HEADER_LENGTH];
      if code !in {ACCESS_REQUEST, ACCESS_ACCEPT, ACCESS_REJECT, ACCESS_CHALLENGE} then
        Err(UnknownCode)
      else
        var attributes := ParseList(message[HEADER_LENGTH..]);
        if attributes.Err? then Err(BadAttributes(attributes.error))
        else if code != ACCESS_REQUEST && id !in known then Err(UnknownPacketId)
        else
          var packet := Packet(code, id, authenticator, attributes.value);
          var request := if code == ACCESS_REQUEST then authenticator else known[id];
          var error := ValidationError(c, packet, secret, request);
          if error.Some? then Err(error.value) else Ok(packet)
  }

  /** Writes a digest into a byte array octet by octet until it is done or runs off the end. */
  method Overwrite(buffer: array<Octet>, at: nat, digest: Digest) returns (fits: bool)
    modifies buffer
    ensures buffer[..] == Patch(old(buffer[..]), at, digest)
    ensures fits == (at + 16 <= buffer.Length)
  {
    ghost var before := buffer[..];
    for i := 0 to 16
      invariant i > 0 ==> at + i <= buffer.Length
      invariant forall j :: 0 <= j < buffer.Length ==>
                  buffer[j] == if at <= j < at + i then digest[j - at] else before[j]
    {
      if i + at >= buffer.Length {
        return false;
      }
      buffer[i + at] := digest[i];
    }
    return true;
  }

  // ---- the packet object ----------------------------------------------------------------------

  class RadiusPacket {
    const code: Octet
    const id: Octet
    var authenticator: Digest
    var attributes: Attributes
    var packed: array?<Octet>

    constructor (code: Octet, id: Octet, authenticator: Digest, attributes: Attributes)
      ensures Value() == Packet(code, id, authenticator, attributes) && packed == null
    {
      this.code, this.id := code, id;
      this.authenticator, this.attributes, packed := authenticator, attributes, null;
    }

    function Value(): Packet
      reads this
    {
      Packet(code, id, authenticator, attributes)
    }

    /** Packs into a new byte array, or raises and leaves the packet as it was. */
    method Pack() returns (ok: bool)
      modifies this`packed
      ensures ok == Value().Packs()
      ensures ok ==> packed != null && fresh(packed) && packed[..] == Value().Pack()
      ensures !ok ==> packed == old(packed)
    {
      if exists i :: 0 <= i < |attributes| && !attributes[i].Packable() {
        return false;
      }
      LengthIsPackedLength(attributes);
      var n := ListLength(attributes);
      if HEADER_LENGTH + n >= 0x1_0000 {
        return false;
      }
      var body := PackAttributes(attributes);
      var octets: Octets := [code, id] + Pack16(HEADER_LENGTH + n) + authenticator + body;
      packed := new Octet[|octets|](i requires 0 <= i < |octets| => octets[i]);
      assert packed[..] == octets;
      ok := true;
    }

    /** Overwrites the digest in the packed octets; on an index error what fitted is written. */
    method FillDigest(c: Crypto, secret: Octets) returns (fits: bool)
      requires packed != null
      modifies packed
      ensures packed[..] == Filled(c, Value(), old(packed[..]), secret)
      ensures fits <==> Value().MaPosition().None? || secret == []
                        || Value().MaPosition().value + 16 <= packed.Length
    {
      ghost var before := packed[..];
      var index := IndexOf(attributes, MESSAGE_AUTHENTICATOR);
      if index.None? || secret == [] {
        return true;
      }
      var position := HEADER_LENGTH + HEADER_SIZE + index.value;
      assert Value().MaPosition() == Some(position);
      var digest := c.hmac(secret, packed[..]);
      fits := Overwrite(packed, position, digest);
      assert packed[..] == Patch(before, position, digest);
    }

    /** There are octets from an earlier call; an empty array does not count. */
    predicate AlreadyPacked()
      reads this
    {
      packed != null && packed.Length > 0
    }

    /** Packs unless already packed, then fills in the digest. */
    method Build(c: Crypto, secret: Octets) returns (r: Result<array<Octet>, Error>)
      modifies this`packed, packed
      ensures Value() == old(Value())
      ensures !old(AlreadyPacked()) && !Value().Packs() ==> r == Err(StructError) && packed == old(packed)
      ensures old(AlreadyPacked()) || Value().Packs() ==>
                && packed != null
                && packed[..] == Filled(c, Value(), if old(AlreadyPacked()) then old(packed[..]) else Value().Pack(), secret)
                && r in {Ok(packed), Err(IndexError)}
                && (r.Ok? <==> Value().MaPosition().None? || secret == []
                               || Value().MaPosition().value + 16 <= packed.Length)
    {
      if packed == null || packed.Length == 0 {
        var ok := Pack();
        if !ok {
          return Err(StructError);
        }
      }
      var fits := FillDigest(c, secret);
      r := if fits then Ok(packed) else Err(IndexError);
    }

    /**
     * Validates on a copy whose authenticator and Message-Authenticator are overwritten; this
     * packet, which is the one returned to the caller, keeps what was received.
     */
    method ValidatePacket(c: Crypto, secret: Octets, request: Digest) returns (error: Option<Error>)
      ensures error == ValidationError(c, Value(), secret, request)
    {
      var copy := new RadiusPacket(code, id, authenticator, attributes);
      if secret == [] {
        return Some(SecretMissing);
      }
      if code in {ACCESS_REJECT, ACCESS_ACCEPT, ACCESS_CHALLENGE} {
        var response := copy.authenticator;
        copy.authenticator := request;
        var ok := copy.Pack();
        if !ok {
          return Some(StructError);
        }
        if c.md5(copy.packed[..] + secret) != response {
          return Some(NotAuthentic);
        }
      }
      var found := FindFirst(copy.attributes, MESSAGE_AUTHENTICATOR);
      if found.Some? {
        copy.authenticator := request;
        var original := copy.attributes[found.value].data;
        copy.attributes := copy.attributes[found.value := MaAttribute(ZERO_DIGEST)];
        var ok := copy.Pack();
        if !ok {
          return Some(StructError);
        }
        if c.hmac(secret, copy.packed[..]) != original {
          return Some(NotAuthentic);
        }
      }
      return None;
    }
  }

  method ParseMessage(c: Crypto, message: Octets, secret: Octets, known: map<Octet, Digest>)
    returns (r: Result<RadiusPacket, Error>)
    ensures match r
            case Ok(packet) => fresh(packet) && ParsePacket(c, message, secret, known) == Ok(packet.Value())
            case Err(e) => ParsePacket(c, message, secret, known) == Err(e)
  {
    if |message| < HEADER_LENGTH {
      return Err(ShortHeader);
    }
    var code, id, authenticator := message[0], message[1], message[4..HEADER_LENGTH];
    if code !in {ACCESS_REQUEST, ACCESS_ACCEPT, ACCESS_REJECT, ACCESS_CHALLENGE} {
      return Err(UnknownCode);
    }
    var attributes := ParseAttributes(message[HEADER_LENGTH..]);
    if attributes.Err? {
      return Err(BadAttributes(attributes.error));
    }
    var packet := new RadiusPacket(code, id, authenticator, attributes.value);
    var request: Digest := authenticator;
    if code != ACCESS_REQUEST {
      if id !in known {
        return Err(UnknownPacketId);
      }
      request := known[id];
    }
    var error := packet.ValidatePacket(c, secret, request);
    if error.Some? {
      return Err(error.value);
    }
    return Ok(packet);
  }
}
