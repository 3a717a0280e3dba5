/**
 * What becomes of every datagram, by its octets: the packet it is read as, and each error exactly
 * when it is raised. Nothing here is stated through the packets' own constants.
 */
module RadiusOutcomes {
  import opened Octets
  import opened RadiusAttributes
  import opened RadiusList
  import opened RadiusRoundTrip
  import opened RadiusPackets
  import opened RadiusAuthentication
  import opened RadiusReceived
  import opened RadiusReceivedMa

  /** Access-Request, -Accept, -Reject or -Challenge, by the code octet. */
  predicate KnownCode(m: Octets)
  {
    |m| >= 20 && (m[0] == 1 || m[0] == 2 || m[0] == 3 || m[0] == 11)
  }

  predicate KnownAttributes(m: Octets)
  {
    KnownCode(m) && ParseList(m[20..]).Ok?
  }

  /** A request, or a response to a request that is outstanding. */
  predicate Expected(m: Octets, known: map<Octet, Digest>)
  {
    KnownAttributes(m) && (m[0] == 1 || m[1] in known)
  }

  /** Each error before the hashes is raised exactly when the octets call for it, in this order. */
  lemma ErrorsByOctets(c: Crypto, m: Octets, secret: Octets, known: map<Octet, Digest>)
    ensures var r := ParsePacket(c, m, secret, known);
            && (r == Err(ShortHeader) <==> |m| < 20)
            && (r == Err(UnknownCode) <==> |m| >= 20 && !KnownCode(m))
            && (forall e :: r == Err(BadAttributes(e)) <==> KnownCode(m) && ParseList(m[20..]) == Err(e))
            && (r == Err(UnknownPacketId) <==> KnownAttributes(m) && m[0] != 1 && m[1] !in known)
            && (r == Err(SecretMissing) <==> Expected(m, known) && secret == [])
            && r != Err(IndexError)
  {
  }

  /** An accepted datagram is expected, is checked with a secret, and is read octet by octet. */
  lemma AcceptedByOctets(c: Crypto, m: Octets, secret: Octets, known: map<Octet, Digest>)
    requires ParsePacket(c, m, secret, known).Ok?
    ensures |m| >= 20 && m[0] in {1, 2, 3, 11} && (m[0] != 1 ==> m[1] in known) && secret != []
    ensures ParseList(m[20..]).Ok?
    ensures ParsePacket(c, m, secret, known).value == Packet(m[0], m[1], m[4..20], ParseList(m[20..]).value)
  {
  }

  /** An unsolicited response is refused under every secret and every hash function. */
  lemma UnsolicitedIsRefused(c: Crypto, m: Octets, secret: Octets, known: map<Octet, Digest>)
    requires |m| >= 20 && m[0] != 1 && m[1] !in known
    ensures ParsePacket(c, m, secret, known).Err?
  {
    if ParsePacket(c, m, secret, known).Ok? {
      AcceptedByOctets(c, m, secret, known);
    }
  }

  /** What the hashes decide: an expected datagram with a secret is accepted, not authentic, or too long. */
  lemma HashesDecideTheRest(c: Crypto, m: Octets, secret: Octets, known: map<Octet, Digest>)
    requires Expected(m, known) && secret != []
    ensures var r := ParsePacket(c, m, secret, known);
            r.Ok? || r == Err(NotAuthentic) || r == Err(StructError)
    ensures ParsePacket(c, m, secret, known) == Err(StructError) ==> !Received(m).Packs() || HasMa(Received(m))
    ensures m[0] == 1 && !HasMa(Received(m)) ==> ParsePacket(c, m, secret, known).Ok?
  {
  }

  /** A packed packet, octet by octet; the length high octet first. */
  lemma PackedByOctets(p: Packet)
    requires p.Packs()
    ensures var m := p.Pack();
            && |m| == 20 + |PackList(p.attributes)| && m[0] == p.code && m[1] == p.id
            && m[2] == |m| / 256 && m[3] == |m| % 256
            && m[4..20] == p.authenticator && m[20..] == PackList(p.attributes)
  {
    LengthFieldIsSize(p);
    Layout(p);
    LengthIsPackedLength(p.attributes);
    Pack16Octets(|p.Pack()|);
    assert p.Pack()[2..4] == Pack16(|p.Pack()|);
  }

  /** Without a secret, or without a Message-Authenticator, `build` only packs. */
  lemma BuiltWithoutDigest(c: Crypto, p: Packet, secret: Octets)
    requires p.Packs() && (secret == [] || FindFirst(p.attributes, 80).None?)
    ensures Built(c, p, secret) == p.Pack()
  {
    PositionIsPackedPrefix(p.attributes, 80);
  }
}
