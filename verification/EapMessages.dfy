/**
 * EAP messages in their layers: EAP (section 4 of RFC 3748) inside EAPOL (IEEE 802.1X) inside an
 * Ethernet frame, with the packers and parsers of each layer.
 */
module EapMessages {
  import opened Octets

  const REQUEST: Octet := 1
  const RESPONSE: Octet := 2
  const SUCCESS: Octet := 3
  const FAILURE: Octet := 4
  const IDENTITY: Octet := 1
  const LEGACY_NAK: Octet := 3
  const MD5_CHALLENGE: Octet := 4
  const EAP_HEADER_LENGTH := 4
  const ETHERTYPE := 0x888e
  const ETHERNET_HEADER_LENGTH := 14

  /** Text encoding, left abstract: encoding is total, decoding may fail. */
  datatype TextCodec = TextCodec(encode: string -> Octets, decode: Octets -> Option<string>) {
    ghost predicate Lawful()
    {
      && (forall s :: decode(encode(s)) == Some(s))
      && (forall b :: decode(b).Some? ==> encode(decode(b).value) == b)
    }
  }

  type Mac = m: Octets | |m| == 6 witness [0, 0, 0, 0, 0, 0]

  datatype TlsKind = Tls | Ttls | Peap {
    function TypeOctet(): Octet
    {
      match this case Tls => 13 case Ttls => 21 case Peap => 25
    }
  }

  datatype Message =
    | Success(id: Octet)
    | Failure(id: Octet)
    | Identity(id: Octet, code: Octet, identity: string)
    | LegacyNak(id: Octet, code: Octet, desired: seq<Octets>)
    | Md5Challenge(id: Octet, code: Octet, challenge: Octets, extra: Octets)
    | TlsMessage(kind: TlsKind, id: Octet, code: Octet, flags: Octet, extra: Octets)
    | EapolStart
    | EapolLogoff

  // ---- packing; None is a struct error --------------------------------------------------------

  /** `Eap.pack`: code, identifier, length and type in front of the body. */
  function PackTyped(code: Octet, id: Octet, typ: Octet, body: Octets): Option<Octets>
  {
    var length := EAP_HEADER_LENGTH + 1 + |body|;
    if length >= 0x1_0000 then None else Some([code, id] + Pack16(length) + [typ] + body)
  }

  function PackEap(t: TextCodec, m: Message): Option<Octets>
  {
    match m
    case Success(id) => Some([SUCCESS, id] + Pack16(EAP_HEADER_LENGTH))
    case Failure(id) => Some([FAILURE, id] + Pack16(EAP_HEADER_LENGTH))
    case Identity(id, code, identity) => PackTyped(code, id, IDENTITY, t.encode(identity))
    case LegacyNak(id, code, desired) =>
      // The format `<n>s` takes one argument and n octets of it, n being the number of arguments.
      if |desired| != 1 then None
      else PackTyped(code, id, LEGACY_NAK, if desired[0] == [] then [0] else desired[0][..1])
    case Md5Challenge(id, code, challenge, extra) =>
      if |challenge| > 255 then None
      else PackTyped(code, id, MD5_CHALLENGE, [|challenge|] + challenge + extra)
    case TlsMessage(kind, id, code, flags, extra) =>
      PackTyped(code, id, kind.TypeOctet(), if extra != [] then [flags] + extra else [flags])
    case EapolStart => Some([])
    case EapolLogoff => Some([])
  }

  function PacketType(m: Message): Octet
  {
    match m case EapolStart => 1 case EapolLogoff => 2 case _ => 0
  }

  function PackEapol(t: TextCodec, m: Message): Option<Octets>
  {
    var data := PackEap(t, m);
    if data.None? || |data.value| >= 0x1_0000 then None
    else Some([1, PacketType(m)] + Pack16(|data.value|) + data.value)
  }

  function PackEthernet(t: TextCodec, m: Message, src: Mac, dst: Mac): Option<Octets>
  {
    var data := PackEapol(t, m);
    if data.None? then None else Some(dst + src + Pack16(ETHERTYPE) + data.value)
  }

  // ---- parsing; None is a message parse error -------------------------------------------------

  function ParseTyped(t: TextCodec, code: Octet, id: Octet, typ: Octet, data: Octets): Option<Message>
  {
    match typ
    case 1 =>
      var identity := t.decode(data);
      if identity.None? then None else Some(Identity(id, code, identity.value))
    case 3 => Some(LegacyNak(id, code, [data]))
    case 4 =>
      if data == [] then None
      else
        var end: nat := 1 + data[0] as int;
        Some(Md5Challenge(id, code, Slice(data, 1, end), Slice(data, end, |data|)))
    case 13 => ParseTls(Tls, code, id, data)
    case 21 => ParseTls(Ttls, code, id, data)
    case 25 => ParseTls(Peap, code, id, data)
    case _ => None
  }

  function ParseTls(kind: TlsKind, code: Octet, id: Octet, data: Octets): Option<Message>
  {
    if data == [] then None else Some(TlsMessage(kind, id, code, data[0], data[1..]))
  }

  function ParseEap(t: TextCodec, packed: Octets): Option<Message>
  {
    if |packed| < EAP_HEADER_LENGTH then None
    else
      var code, id, length := packed[0], packed[1], Unpack16(packed[2..4]);
      if code == REQUEST || code == RESPONSE then
        if |packed| == EAP_HEADER_LENGTH then None
        else ParseTyped(t, code, id, packed[4], Slice(packed, 5, length))
      else if code == SUCCESS then Some(Success(id))
      else if code == FAILURE then Some(Failure(id))
      else None
  }

  function ParseEapol(t: TextCodec, packed: Octets): Option<Message>
  {
    if |packed| < 4 then None
    else
      var data := Slice(packed, 4, 4 + Unpack16(packed[2..4]));
      match packed[1]
      case 0 => ParseEap(t, data)
      case 1 => Some(EapolStart)
      case 2 => Some(EapolLogoff)
      case _ => None
  }

  datatype Frame = Frame(message: Message, src: Mac, dst: Mac)

  function ParseEthernet(t: TextCodec, packed: Octets): Option<Frame>
  {
    if |packed| < ETHERNET_HEADER_LENGTH || Unpack16(packed[12..14]) != ETHERTYPE then None
    else
      var message := ParseEapol(t, packed[ETHERNET_HEADER_LENGTH..]);
      if message.None? then None else Some(Frame(message.value, packed[6..12], packed[..6]))
  }

  // ---- pack, then parse -----------------------------------------------------------------------

  /**
   * The messages that survive the wire: typed messages are requests or responses, and a Legacy-Nak
   * names exactly one authentication type.
   */
  predicate Survives(m: Message)
  {
    match m
    case Success(_) => true
    case Failure(_) => true
    case Identity(_, code, _) => code in {REQUEST, RESPONSE}
    case LegacyNak(_, code, desired) =>
      code in {REQUEST, RESPONSE} && |desired| == 1 && |desired[0]| == 1
    case Md5Challenge(_, code, _, _) => code in {REQUEST, RESPONSE}
    case TlsMessage(_, _, code, _, _) => code in {REQUEST, RESPONSE}
    case EapolStart => true
    case EapolLogoff => true
  }

  /** A typed packet gives its body to the parser of its type, whatever follows it. */
  lemma ParseTypedPacket(t: TextCodec, code: Octet, id: Octet, typ: Octet, body: Octets, tail: Octets)
    requires PackTyped(code, id, typ, body).Some?
    ensures ParseEap(t, PackTyped(code, id, typ, body).value + tail)
            == if code in {REQUEST, RESPONSE} then ParseTyped(t, code, id, typ, body)
               else if code == SUCCESS then Some(Success(id))
               else if code == FAILURE then Some(Failure(id))
               else None
  {
    var length := EAP_HEADER_LENGTH + 1 + |body|;
    var packed := PackTyped(code, id, typ, body).value + tail;
    assert packed[2..4] == Pack16(length);
    assert packed[5..length] == body;
  }

  lemma ParseMd5Body(t: TextCodec, code: Octet, id: Octet, challenge: Octets, extra: Octets)
    requires |challenge| <= 255
    ensures ParseTyped(t, code, id, MD5_CHALLENGE, [|challenge|] + challenge + extra)
            == Some(Md5Challenge(id, code, challenge, extra))
  {
    var data: Octets := [|challenge|] + challenge + extra;
    var end := 1 + |challenge|;
    assert data[0] == |challenge|;
    assert Slice(data, 1, end) == data[1..end] == challenge;
    assert Slice(data, end, |data|) == data[end..] == extra;
  }

  /** The EAP layer alone: the EAP length cuts off anything behind the packet. */
  lemma EapSurvivesIff(t: TextCodec, m: Message, tail: Octets)
    requires t.Lawful() && !m.EapolStart? && !m.EapolLogoff? && PackEap(t, m).Some?
    ensures (ParseEap(t, PackEap(t, m).value + tail) == Some(m)) <==> Survives(m)
  {
    match m
    case Success(id) =>
    case Failure(id) =>
    case Identity(id, code, identity) =>
      ParseTypedPacket(t, code, id, IDENTITY, t.encode(identity), tail);
    case LegacyNak(id, code, desired) =>
      var body := if desired[0] == [] then [0] else desired[0][..1];
      ParseTypedPacket(t, code, id, LEGACY_NAK, body, tail);
      assert |desired[0]| == 1 ==> body == desired[0];
      assert [body] == desired ==> |desired[0]| == 1;
    case Md5Challenge(id, code, challenge, extra) =>
      ParseTypedPacket(t, code, id, MD5_CHALLENGE, [|challenge|] + challenge + extra, tail);
      ParseMd5Body(t, code, id, challenge, extra);
    case TlsMessage(kind, id, code, flags, extra) =>
      var body := if extra != [] then [flags] + extra else [flags];
      ParseTypedPacket(t, code, id, kind.TypeOctet(), body, tail);
      assert body[1..] == extra;
  }

  lemma ParseEapolPacket(t: TextCodec, m: Message, padding: Octets)
    requires PackEapol(t, m).Some?
    ensures ParseEapol(t, PackEapol(t, m).value + padding)
            == match m
               case EapolStart => Some(EapolStart)
               case EapolLogoff => Some(EapolLogoff)
               case _ => ParseEap(t, PackEap(t, m).value)
  {
    var data := PackEap(t, m).value;
    var packed := PackEapol(t, m).value + padding;
    assert packed[2..4] == Pack16(|data|);
    assert packed[4..4 + |data|] == data;
  }

  /**
   * A packed frame, with any padding behind it, parses to the same message, source and destination
   * exactly when the message is one that survives.
   */
  lemma FrameSurvivesIff(t: TextCodec, m: Message, src: Mac, dst: Mac, padding: Octets)
    requires t.Lawful() && PackEthernet(t, m, src, dst).Some?
    ensures (ParseEthernet(t, PackEthernet(t, m, src, dst).value + padding) == Some(Frame(m, src, dst)))
            <==> Survives(m)
  {
    var eapol := PackEapol(t, m).value;
    var packed := PackEthernet(t, m, src, dst).value + padding;
    assert packed[..6] == dst && packed[6..12] == src && packed[12..14] == Pack16(ETHERTYPE);
    assert packed[ETHERNET_HEADER_LENGTH..] == eapol + padding;
    ParseEapolPacket(t, m, padding);
    if !m.EapolStart? && !m.EapolLogoff? {
      EapSurvivesIff(t, m, []);
      Units(PackEap(t, m).value);
    }
  }

  // ---- parse, then pack: what is forwarded to the RADIUS server ---------------------------------

  /** Octet strings the parser reads without dropping or changing anything. */
  predicate ReadsExactly(packed: Octets)
    requires |packed| >= EAP_HEADER_LENGTH
  {
    if packed[0] in {SUCCESS, FAILURE} then |packed| == EAP_HEADER_LENGTH
    else |packed| > EAP_HEADER_LENGTH ==>
      && (packed[4] == LEGACY_NAK ==> |packed| == 6)
      && (packed[4] == MD5_CHALLENGE ==> |packed| >= 6 && packed[5] <= |packed| - 6)
  }

  lemma TypedForwarding(t: TextCodec, packed: Octets)
    requires t.Lawful() && |packed| > EAP_HEADER_LENGTH && packed[0] in {REQUEST, RESPONSE}
    requires Unpack16(packed[2..4]) == |packed| && ParseEap(t, packed).Some?
    requires packed[4] != LEGACY_NAK
    ensures (PackEap(t, ParseEap(t, packed).value) == Some(packed)) <==> ReadsExactly(packed)
  {
    var body := packed[5..];
    assert Slice(packed, 5, |packed|) == body;
    Pack16Unique(packed[2..4]);
    assert packed == [packed[0], packed[1]] + packed[2..4] + [packed[4]] + body;
    assert PackTyped(packed[0], packed[1], packed[4], body) == Some(packed);
    if packed[4] == MD5_CHALLENGE {
      Md5Forwarding(t, packed[0], packed[1], body);
    } else if packed[4] in {13, 21, 25} {
      assert (if body[1..] != [] then [body[0]] + body[1..] else [body[0]]) == body;
    }
  }

  lemma Md5Forwarding(t: TextCodec, code: Octet, id: Octet, body: Octets)
    requires body != [] && |body| < 0x1_0000 - 5
    ensures var m := ParseTyped(t, code, id, MD5_CHALLENGE, body);
            m.Some? && (PackEap(t, m.value) == PackTyped(code, id, MD5_CHALLENGE, body) <==> body[0] <= |body| - 1)
  {
    var m := ParseTyped(t, code, id, MD5_CHALLENGE, body).value;
    var n: nat := body[0];
    if n <= |body| - 1 {
      assert m.challenge == body[1..1 + n] && m.extra == body[1 + n..];
      assert [n] + body[1..1 + n] + body[1 + n..] == body;
    } else {
      assert m.challenge == body[1..] && m.extra == [];
      assert |body| - 1 < 256;
      assert PackEap(t, m).value[5] == |body| - 1;
    }
  }

  lemma Pack16Unique(s: Octets)
    requires |s| == 2
    ensures Pack16(Unpack16(s)) == s
  {
  }

  lemma NakForwarding(t: TextCodec, packed: Octets)
    requires |packed| > EAP_HEADER_LENGTH && packed[0] in {REQUEST, RESPONSE} && packed[4] == LEGACY_NAK
    requires Unpack16(packed[2..4]) == |packed|
    ensures ParseEap(t, packed) == Some(LegacyNak(packed[1], packed[0], [packed[5..]]))
    ensures var again := PackEap(t, ParseEap(t, packed).value);
            && again.Some? && |again.value| == 6
            && again.value[5] == (if |packed| == 5 then 0 else packed[5])
            && (again == Some(packed) <==> |packed| == 6)
  {
    assert Slice(packed, 5, |packed|) == packed[5..];
    Pack16Unique(packed[2..4]);
    if |packed| == 6 {
      assert packed == [packed[0], packed[1]] + packed[2..4] + [packed[4]] + packed[5..];
      assert packed[5..][..1] == packed[5..];
    }
  }

  /** The length field of a packed message is its size. */
  lemma PackedLengthIsSize(t: TextCodec, m: Message)
    requires !m.EapolStart? && !m.EapolLogoff? && PackEap(t, m).Some?
    ensures var packed := PackEap(t, m).value;
            |packed| >= EAP_HEADER_LENGTH && Unpack16(packed[2..4]) == |packed|
  {
    var packed := PackEap(t, m).value;
    assert packed[2..4] == Pack16(|packed|);
  }

  /**
   * Parsing an EAP packet and packing it again, which is how a supplicant's packet reaches the
   * RADIUS server, reproduces it exactly when its length field is its size and it reads exactly: a
   * packet longer or shorter than it declares comes out with another length, a Legacy-Nak that offers
   * several methods is cut to the first, an MD5 value length beyond the packet is rewritten, and
   * octets behind a Success or Failure header are dropped.
   */
  lemma ForwardedUnchangedIff(t: TextCodec, packed: Octets)
    requires t.Lawful() && ParseEap(t, packed).Some?
    ensures (PackEap(t, ParseEap(t, packed).value) == Some(packed))
            <==> Unpack16(packed[2..4]) == |packed| && ReadsExactly(packed)
  {
    if PackEap(t, ParseEap(t, packed).value) == Some(packed) {
      PackedLengthIsSize(t, ParseEap(t, packed).value);
    }
    if Unpack16(packed[2..4]) == |packed| {
      WholePacketForwarding(t, packed);
    }
  }

  lemma WholePacketForwarding(t: TextCodec, packed: Octets)
    requires t.Lawful() && ParseEap(t, packed).Some? && Unpack16(packed[2..4]) == |packed|
    ensures (PackEap(t, ParseEap(t, packed).value) == Some(packed)) <==> ReadsExactly(packed)
  {
    Pack16Unique(packed[2..4]);
    if packed[0] in {SUCCESS, FAILURE} {
      if |packed| == EAP_HEADER_LENGTH {
        assert packed == [packed[0], packed[1]] + packed[2..4];
      }
    } else if packed[4] == LEGACY_NAK {
      NakForwarding(t, packed);
    } else {
      TypedForwarding(t, packed);
    }
  }
}
