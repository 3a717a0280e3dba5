/**
 * The hash checks on the octets a response really arrived as. The checks hash the attributes packed
 * again, so their verdict is about the octets received exactly when these are the packer's own.
 */
module RadiusReceived {
  import opened Octets
  import opened RadiusAttributes
  import opened RadiusList
  import opened RadiusRoundTrip
  import opened RadiusPackets
  import opened RadiusAuthentication

  // ---- parsed attributes are valid ----------------------------------------------------------------

  lemma {:induction false} ExtractedAreValid(data: Octets)
    requires Extract(data).Ok?
    ensures AllValid(Extract(data).value)
    decreases |data|
  {
    if data != [] {
      var (a, length) := First(data).value;
      ExtractedAreValid(Slice(data, length, |data|));
    }
  }

  lemma {:induction false} NonEapAreValid(attrs: Attributes)
    requires AllValid(attrs)
    ensures AllValid(NonEap(attrs))
  {
    if attrs != [] {
      NonEapAreValid(attrs[1..]);
    }
  }

  lemma InsertKeepsValid(attrs: Attributes, i: nat, a: Attribute)
    requires AllValid(attrs) && a.Valid()
    ensures AllValid(Insert(attrs, i, a))
  {
  }

  lemma ParsedAreValid(data: Octets)
    requires ParseList(data).Ok?
    ensures AllValid(ParseList(data).value)
  {
    var attrs := Extract(data).value;
    ExtractedAreValid(data);
    NonEapAreValid(attrs);
    var toConcat := Track(attrs);
    if toConcat != [] {
      InsertKeepsValid(NonEap(attrs), toConcat[|toConcat| - 1].1, EapAttribute(JoinData(toConcat)));
    }
  }

  // ---- received messages --------------------------------------------------------------------------

  /** A response to a known request whose attributes parse. */
  predicate IsResponse(m: Octets, known: map<Octet, Digest>)
  {
    && |m| >= HEADER_LENGTH && m[0] in {ACCESS_ACCEPT, ACCESS_REJECT, ACCESS_CHALLENGE} && m[1] in known
    && ParseList(m[HEADER_LENGTH..]).Ok?
  }

  /** The packet a message stands for. */
  function Received(m: Octets): Packet
    requires |m| >= HEADER_LENGTH && ParseList(m[HEADER_LENGTH..]).Ok?
  {
    Packet(m[0], m[1], m[4..HEADER_LENGTH], ParseList(m[HEADER_LENGTH..]).value)
  }

  /** No hash function makes the checks accept: they raise, or compare with a digest of another size. */
  predicate NeverAccepted(q: Packet, secret: Octets)
  {
    secret == [] || !q.Packs() || (HasMa(q) && |Ma(q).data| != 16)
  }

  predicate HasMa(q: Packet)
  {
    FindFirst(q.attributes, MESSAGE_AUTHENTICATOR).Some?
  }

  function Ma(q: Packet): Attribute
    requires HasMa(q)
  {
    q.attributes[FindFirst(q.attributes, MESSAGE_AUTHENTICATOR).value]
  }

  lemma ParseReceived(c: Crypto, m: Octets, secret: Octets, known: map<Octet, Digest>)
    requires IsResponse(m, known)
    ensures ParsePacket(c, m, secret, known).Ok? <==> ValidationError(c, Received(m), secret, known[m[1]]).None?
  {
  }

  /** The packer's own encoding is canonical, so what holds of canonical packets holds of it. */
  lemma OwnEncodingIsCanonical(m: Octets, known: map<Octet, Digest>)
    requires IsResponse(m, known) && Received(m).Packs() && Received(m).Pack() == m
    ensures Canonical(Received(m))
  {
    var q := Received(m);
    ParsedAreValid(m[HEADER_LENGTH..]);
    Layout(q);
    PackThenParseIffOneEap(q.attributes);
  }

  lemma CancelSuffix(a: Octets, b: Octets, suffix: Octets)
    requires a + suffix == b + suffix
    ensures a == b
  {
    assert |a + suffix| == |a| + |suffix| && |b + suffix| == |b| + |suffix|;
    assert a == (a + suffix)[..|a|] && b == (b + suffix)[..|b|];
  }

  lemma SplitHeader(m: Octets)
    requires |m| >= HEADER_LENGTH
    ensures m == m[..4] + m[4..HEADER_LENGTH] + m[HEADER_LENGTH..]
  {
  }

  lemma SameParts(a: Octets, b: Octets, mid: Digest)
    requires |a| >= HEADER_LENGTH && |b| >= HEADER_LENGTH
    requires a[..4] + mid + a[HEADER_LENGTH..] == b[..4] + mid + b[HEADER_LENGTH..]
    ensures a[..4] == b[..4] && a[HEADER_LENGTH..] == b[HEADER_LENGTH..]
  {
    var (x, y) := (a[..4] + mid + a[HEADER_LENGTH..], b[..4] + mid + b[HEADER_LENGTH..]);
    assert x[..4] == a[..4] && y[..4] == b[..4];
    assert x[HEADER_LENGTH..] == a[HEADER_LENGTH..] && y[HEADER_LENGTH..] == b[HEADER_LENGTH..];
  }

  /** What section 3 of RFC 2865 hashes is what the check hashes only if the octets are the same. */
  lemma SameHashedOctets(m: Octets, q: Packet, request: Digest, secret: Octets)
    requires |m| >= HEADER_LENGTH && q.Packs() && m[4..HEADER_LENGTH] == q.authenticator
    ensures q.(authenticator := request).Packs()
    ensures m[..4] + request + m[HEADER_LENGTH..] + secret == q.(authenticator := request).Pack() + secret
            <==> q.Pack() == m
  {
    ReplaceAuthenticator(q, request);
    Layout(q);
    if m[..4] + request + m[HEADER_LENGTH..] + secret == q.(authenticator := request).Pack() + secret {
      CancelSuffix(m[..4] + request + m[HEADER_LENGTH..], q.(authenticator := request).Pack(), secret);
      SameParts(m, q.Pack(), request);
      SplitHeader(m);
      SplitHeader(q.Pack());
    }
  }

  /** Hash functions under which a packet passes, and nothing but its own hashed octets does. */
  function Separating(q: Packet, hashed: Octets): Crypto
  {
    Crypto((x: Octets) => if x == hashed then q.authenticator else Other(q.authenticator),
           (key: Octets, x: Octets) => CarriedMa(q))
  }

  function CarriedMa(q: Packet): Digest
  {
    if HasMa(q) && |Ma(q).data| == 16 then Ma(q).data else q.authenticator
  }

  function Other(d: Digest): (r: Digest)
    ensures r != d
  {
    [if d[0] == 0 then 1 else 0] + d[1..]
  }

  lemma ZeroedPacks(q: Packet, k: nat)
    requires q.Packs() && AllValid(q.attributes) && FindFirst(q.attributes, MESSAGE_AUTHENTICATOR) == Some(k)
    requires |q.attributes[k].data| == 16
    ensures q.WithMa(ZERO_DIGEST).Packs()
  {
    assert q.attributes[k].Valid();
    FillingMaPatchesOctets(q, k, ZERO_DIGEST);
  }

  lemma SeparatingAccepts(q: Packet, secret: Octets, request: Digest)
    requires !NeverAccepted(q, secret) && AllValid(q.attributes)
    ensures q.(authenticator := request).Packs()
    ensures var c := Separating(q, q.(authenticator := request).Pack() + secret);
            ValidationError(c, q, secret, request).None?
  {
    ReplaceAuthenticator(q, request);
    var ma := FindFirst(q.attributes, MESSAGE_AUTHENTICATOR);
    if ma.Some? {
      ZeroedPacks(q.(authenticator := request), ma.value);
    }
  }

  lemma NeverAcceptedIsRejected(c: Crypto, q: Packet, secret: Octets, request: Digest)
    requires NeverAccepted(q, secret) && q.code in {ACCESS_ACCEPT, ACCESS_REJECT, ACCESS_CHALLENGE}
    ensures ValidationError(c, q, secret, request).Some?
  {
  }

  // ---- main results ---------------------------------------------------------------------------

  /**
   * For every received response: under all hash functions its acceptance means that section 3 of RFC
   * 2865 holds of the octets received, if and only if those are the octets the packer itself would
   * have made, or no hash function gets it accepted at all.
   */
  lemma AcceptedMeansAuthenticIff(m: Octets, secret: Octets, known: map<Octet, Digest>)
    requires IsResponse(m, known)
    ensures (forall c :: ParsePacket(c, m, secret, known).Ok? ==> ResponseAuthenticatorHolds(c, m, known[m[1]], secret))
            <==> NeverAccepted(Received(m), secret) || Received(m).Pack() == m
  {
    var (q, request) := (Received(m), known[m[1]]);
    if NeverAccepted(q, secret) {
      forall c ensures !ParsePacket(c, m, secret, known).Ok? {
        ParseReceived(c, m, secret, known);
        NeverAcceptedIsRejected(c, q, secret, request);
      }
    } else {
      SameHashedOctets(m, q, request, secret);
      if q.Pack() == m {
        forall c ensures ParsePacket(c, m, secret, known).Ok? ==> ResponseAuthenticatorHolds(c, m, request, secret) {
          ParseReceived(c, m, secret, known);
        }
      } else {
        ForgedIsAccepted(m, secret, known);
      }
    }
  }

  /** Otherwise there are hash functions under which it is accepted and does not hold. */
  lemma ForgedIsAccepted(m: Octets, secret: Octets, known: map<Octet, Digest>)
    requires IsResponse(m, known) && !NeverAccepted(Received(m), secret) && Received(m).Pack() != m
    ensures exists c :: ParsePacket(c, m, secret, known).Ok? && !ResponseAuthenticatorHolds(c, m, known[m[1]], secret)
  {
    var (q, request) := (Received(m), known[m[1]]);
    ParsedAreValid(m[HEADER_LENGTH..]);
    SameHashedOctets(m, q, request, secret);
    SeparatingAccepts(q, secret, request);
    var c := Separating(q, q.(authenticator := request).Pack() + secret);
    ParseReceived(c, m, secret, known);
    assert c.md5(m[..4] + request + m[HEADER_LENGTH..] + secret) == Other(q.authenticator);
    assert !ResponseAuthenticatorHolds(c, m, request, secret);
  }

  /**
   * Without a Message-Authenticator the verdict is exactly the one of section 3 of RFC 2865 on the
   * octets received, under all hash functions, if and only if they are the packer's own.
   */
  lemma VerdictIsTheStandardsIff(m: Octets, secret: Octets, known: map<Octet, Digest>)
    requires IsResponse(m, known) && !HasMa(Received(m))
    ensures (forall c :: ParsePacket(c, m, secret, known).Ok? <==> ResponseAuthenticatorHolds(c, m, known[m[1]], secret))
            <==> secret != [] && Received(m).Packs() && Received(m).Pack() == m
  {
    var (q, request) := (Received(m), known[m[1]]);
    if NeverAccepted(q, secret) {
      var c := Crypto((x: Octets) => q.authenticator, (key: Octets, x: Octets) => q.authenticator);
      ParseReceived(c, m, secret, known);
      NeverAcceptedIsRejected(c, q, secret, request);
      assert ResponseAuthenticatorHolds(c, m, request, secret);
    } else if q.Pack() == m {
      SameHashedOctets(m, q, request, secret);
      forall c ensures ParsePacket(c, m, secret, known).Ok? <==> ResponseAuthenticatorHolds(c, m, request, secret) {
        ParseReceived(c, m, secret, known);
      }
    } else {
      ForgedIsAccepted(m, secret, known);
    }
  }
}
