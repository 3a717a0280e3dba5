/**
 * The octets of EAP messages, EAPOL packets and Ethernet frames, written out: IEEE 802.1X, section 4 of
 * RFC 3748. Nothing here is stated through the constants of the packers and parsers.
 */
module EapLayout {
  import opened Octets
  import opened EapMessages

  /** A length in two octets, the high one first. */
  predicate IsLength(high: Octet, low: Octet, n: nat)
  {
    n == 256 * high as int + low
  }

  lemma PackedLength(n: nat)
    requires n < 0x1_0000
    ensures |Pack16(n)| == 2 && IsLength(Pack16(n)[0], Pack16(n)[1], n)
  {
    Pack16Octets(n);
  }

  // ---- EAP ------------------------------------------------------------------------------------------

  /** The type octet and what is behind it. */
  function Body(t: TextCodec, m: Message): Octets
    requires !m.Success? && !m.Failure? && !m.EapolStart? && !m.EapolLogoff? && PackEap(t, m).Some?
  {
    match m
    case Identity(_, _, identity) => [1] + t.encode(identity)
    case LegacyNak(_, _, desired) => if |desired| == 1 && desired[0] != [] then [3, desired[0][0]] else [3, 0]
    case Md5Challenge(_, _, challenge, extra) => if |challenge| < 256 then [4, |challenge|] + challenge + extra else []
    case TlsMessage(Tls, _, _, flags, extra) => [13, flags] + extra
    case TlsMessage(Ttls, _, _, flags, extra) => [21, flags] + extra
    case TlsMessage(Peap, _, _, flags, extra) => [25, flags] + extra
  }

  lemma TypedOctets(code: Octet, id: Octet, typ: Octet, body: Octets)
    requires PackTyped(code, id, typ, body).Some?
    ensures var r := PackTyped(code, id, typ, body).value;
            |r| == 5 + |body| && r[0] == code && r[1] == id && IsLength(r[2], r[3], |r|) && r[4..] == [typ] + body
  {
    PackedLength(5 + |body|);
  }

  /** Every packed EAP message: code, identifier, length, and for requests and responses type and data. */
  lemma EapOctets(t: TextCodec, m: Message)
    requires PackEap(t, m).Some? && !m.EapolStart? && !m.EapolLogoff?
    ensures var r := PackEap(t, m).value;
            if m.Success? then r == [3, m.id, 0, 4]
            else if m.Failure? then r == [4, m.id, 0, 4]
            else |r| >= 5 && r[0] == m.code && r[1] == m.id && IsLength(r[2], r[3], |r|) && r[4..] == Body(t, m)
  {
    match m
    case Success(id) => Pack16Octets(4);
    case Failure(id) => Pack16Octets(4);
    case Identity(id, code, identity) => TypedOctets(code, id, 1, t.encode(identity));
    case LegacyNak(id, code, desired) =>
      TypedOctets(code, id, 3, if desired[0] == [] then [0] else desired[0][..1]);
    case Md5Challenge(id, code, challenge, extra) =>
      TypedOctets(code, id, 4, [|challenge|] + challenge + extra);
      assert [4] + ([|challenge|] + challenge + extra) == [4, |challenge|] + challenge + extra;
    case TlsMessage(kind, id, code, flags, extra) =>
      TlsOctets(kind, id, code, flags, extra);
  }

  lemma TlsOctets(kind: TlsKind, id: Octet, code: Octet, flags: Octet, extra: Octets)
    requires PackTyped(code, id, kind.TypeOctet(), if extra != [] then [flags] + extra else [flags]).Some?
    ensures var r := PackTyped(code, id, kind.TypeOctet(), if extra != [] then [flags] + extra else [flags]).value;
            && |r| >= 5 && r[0] == code && r[1] == id && IsLength(r[2], r[3], |r|)
            && r[4..] == [match kind case Tls => 13 case Ttls => 21 case Peap => 25, flags] + extra
  {
    var body := if extra != [] then [flags] + extra else [flags];
    TypedOctets(code, id, kind.TypeOctet(), body);
    assert [kind.TypeOctet()] + body == [kind.TypeOctet(), flags] + extra;
  }

  /** When a message packs at all: its length fits, a Legacy-Nak names one type, an MD5 value fits an octet. */
  lemma PacksIff(t: TextCodec, m: Message)
    ensures PackEap(t, m).Some?
            <==> match m
                 case Identity(_, _, identity) => |t.encode(identity)| < 65531
                 case LegacyNak(_, _, desired) => |desired| == 1
                 case Md5Challenge(_, _, challenge, extra) => |challenge| <= 255 && |challenge| + |extra| < 65530
                 case TlsMessage(_, _, _, _, extra) => |extra| < 65530
                 case _ => true
  {
  }

  /** The data of an EAP packet: up to its declared length, as far as there are octets. */
  function Data(packed: Octets): Octets
    requires |packed| >= 5
  {
    Slice(packed, 5, 256 * packed[2] as int + packed[3])
  }

  /** What any octets are read as, by code and type. */
  lemma EapByOctets(t: TextCodec, packed: Octets)
    ensures ParseEap(t, packed)
            == if |packed| < 4 then None
               else if packed[0] == 3 then Some(Success(packed[1]))
               else if packed[0] == 4 then Some(Failure(packed[1]))
               else if (packed[0] == 1 || packed[0] == 2) && |packed| >= 5 then TypedByOctets(t, packed)
               else None
  {
    if |packed| >= 5 {
      assert packed[2..4] == [packed[2], packed[3]];
      DataByType(t, packed[0], packed[1], packed[4], Data(packed));
    }
  }

  lemma DataByType(t: TextCodec, code: Octet, id: Octet, typ: Octet, data: Octets)
    ensures ParseTyped(t, code, id, typ, data) == TypedBy(t, code, id, typ, data)
  {
    if typ == 4 && data != [] {
      var end := 1 + data[0] as int;
      if end <= |data| {
        assert Slice(data, 1, end) == data[1..end] && Slice(data, end, |data|) == data[end..];
      } else {
        assert Slice(data, 1, end) == data[1..|data|] && Slice(data, end, |data|) == data[|data|..];
      }
    }
  }

  function TypedByOctets(t: TextCodec, packed: Octets): Option<Message>
    requires |packed| >= 5
  {
    TypedBy(t, packed[0], packed[1], packed[4], Data(packed))
  }

  /** A request or response of a type, from its data. */
  function TypedBy(t: TextCodec, code: Octet, id: Octet, typ: Octet, data: Octets): Option<Message>
  {
    if typ == 1 then (if t.decode(data).Some? then Some(Identity(id, code, t.decode(data).value)) else None)
    else if typ == 3 then Some(LegacyNak(id, code, [data]))
    else if data == [] then None
    else if typ == 4 then
      var n := if 1 + data[0] as int <= |data| then 1 + data[0] as int else |data|;
      Some(Md5Challenge(id, code, data[1..n], data[n..]))
    else if typ == 13 then Some(TlsMessage(Tls, id, code, data[0], data[1..]))
    else if typ == 21 then Some(TlsMessage(Ttls, id, code, data[0], data[1..]))
    else if typ == 25 then Some(TlsMessage(Peap, id, code, data[0], data[1..]))
    else None
  }

  // ---- EAPOL and Ethernet ---------------------------------------------------------------------------

  /** A start, a logoff, and a frame with an EAP packet in it, octet by octet. */
  lemma FrameOctets(t: TextCodec, m: Message, src: Mac, dst: Mac)
    ensures PackEthernet(t, EapolStart, src, dst) == Some(dst + src + [0x88, 0x8e, 1, 1, 0, 0])
    ensures PackEthernet(t, EapolLogoff, src, dst) == Some(dst + src + [0x88, 0x8e, 1, 2, 0, 0])
    ensures !m.EapolStart? && !m.EapolLogoff? && PackEthernet(t, m, src, dst).Some? ==>
              && PackEap(t, m).Some?
              && var (r, eap) := (PackEthernet(t, m, src, dst).value, PackEap(t, m).value);
                 && |r| == 18 + |eap| && r[..6] == dst && r[6..12] == src && r[12..16] == [0x88, 0x8e, 1, 0]
                 && IsLength(r[16], r[17], |eap|) && r[18..] == eap
  {
    Pack16Octets(0);
    Pack16Octets(0x888e);
    assert Pack16(0x888e) == [0x88, 0x8e] && Pack16(0) == [0, 0];
    assert dst + src + [0x88, 0x8e] + ([1, 1] + [0, 0] + []) == dst + src + [0x88, 0x8e, 1, 1, 0, 0];
    assert dst + src + [0x88, 0x8e] + ([1, 2] + [0, 0] + []) == dst + src + [0x88, 0x8e, 1, 2, 0, 0];
    if !m.EapolStart? && !m.EapolLogoff? && PackEthernet(t, m, src, dst).Some? {
      var (r, eap) := (PackEthernet(t, m, src, dst).value, PackEap(t, m).value);
      PackedLength(|eap|);
      FrameWithEap(dst, src, Pack16(|eap|), eap);
      assert r == dst + src + [0x88, 0x8e] + ([1, 0] + Pack16(|eap|) + eap);
    }
  }

  lemma FrameWithEap(dst: Mac, src: Mac, length: Octets, eap: Octets)
    requires |length| == 2
    ensures var r := dst + src + [0x88, 0x8e] + ([1, 0] + length + eap);
            && |r| == 18 + |eap| && r[..6] == dst && r[6..12] == src && r[12..16] == [0x88, 0x8e, 1, 0]
            && r[16] == length[0] && r[17] == length[1] && r[18..] == eap
  {
  }

  /** What any frame is read as, by its type octets and its packet type. */
  lemma FrameByOctets(t: TextCodec, f: Octets)
    ensures ParseEthernet(t, f)
            == if |f| < 18 || f[12] != 0x88 || f[13] != 0x8e then None
               else if f[15] == 1 then Some(Frame(EapolStart, f[6..12], f[..6]))
               else if f[15] == 2 then Some(Frame(EapolLogoff, f[6..12], f[..6]))
               else if f[15] == 0 then EapFrame(t, f)
               else None
  {
    if |f| >= 18 {
      assert f[14..][2..4] == [f[16], f[17]];
      assert f[12..14] == [f[12], f[13]];
    }
  }

  function EapFrame(t: TextCodec, f: Octets): Option<Frame>
    requires |f| >= 18
  {
    var message := ParseEap(t, Slice(f[14..], 4, 4 + 256 * f[16] as int + f[17]));
    if message.None? then None else Some(Frame(message.value, f[6..12], f[..6]))
  }
}
