/**
 * The Message-Authenticator on the octets a packet really arrived as, request or response: its check
 * zeroes and hashes the attributes packed again, so acceptance means what section 5.14 of RFC 2869
 * says of the octets received exactly when these are the packer's own.
 */
module RadiusReceivedMa {
  import opened Octets
  import opened RadiusAttributes
  import opened RadiusList
  import opened RadiusRoundTrip
  import opened RadiusWire
  import opened RadiusPackets
  import opened RadiusAuthentication
  import opened RadiusReceived

  /** A packet of a known kind whose attributes parse; a response is to a known request. */
  predicate IsPacket(m: Octets, known: map<Octet, Digest>)
  {
    && |m| >= HEADER_LENGTH && m[0] in {ACCESS_REQUEST, ACCESS_ACCEPT, ACCESS_REJECT, ACCESS_CHALLENGE}
    && (m[0] != ACCESS_REQUEST ==> m[1] in known) && ParseList(m[HEADER_LENGTH..]).Ok?
  }

  function RequestOf(m: Octets, known: map<Octet, Digest>): Digest
    requires IsPacket(m, known)
  {
    if m[0] == ACCESS_REQUEST then m[4..HEADER_LENGTH] else known[m[1]]
  }

  lemma ParseArrived(c: Crypto, m: Octets, secret: Octets, known: map<Octet, Digest>)
    requires IsPacket(m, known)
    ensures ParsePacket(c, m, secret, known).Ok? <==> ValidationError(c, Received(m), secret, RequestOf(m, known)).None?
  {
  }

  /** Where the value of the first Message-Authenticator stands in the octets received. */
  function MaPlace(m: Octets): Option<nat>
    requires |m| >= HEADER_LENGTH
  {
    Shift(HEADER_LENGTH + HEADER_SIZE, WirePosition(m[HEADER_LENGTH..]))
  }

  /** Section 5.14 of RFC 2869 on the octets received, at the attribute's own place. */
  predicate MaHolds(c: Crypto, m: Octets, request: Digest, secret: Octets)
    requires |m| >= HEADER_LENGTH
  {
    && MaPlace(m).Some? && MaPlace(m).value + 16 <= |m|
    && MessageAuthenticatorHolds(c, m, request, secret, MaPlace(m).value)
  }

  lemma MaWhereReceived(m: Octets)
    requires |m| >= HEADER_LENGTH && ParseList(m[HEADER_LENGTH..]).Ok? && HasMa(Received(m)) && |Ma(Received(m)).data| == 16
    ensures MaPlace(m).Some? && HEADER_LENGTH + 2 <= MaPlace(m).value && MaPlace(m).value + 16 <= |m|
    ensures m[MaPlace(m).value..MaPlace(m).value + 16] == Ma(Received(m)).data
  {
    var body := m[HEADER_LENGTH..];
    FirstOfParsed(body);
    FirstOfIsFound(Received(m).attributes, MESSAGE_AUTHENTICATOR);
    WireValue(body);
    BodySlice(m, WirePosition(body).value);
  }

  lemma BodySlice(m: Octets, p: nat)
    requires |m| >= HEADER_LENGTH && p + 18 <= |m[HEADER_LENGTH..]|
    ensures m[p + 22..p + 38] == m[HEADER_LENGTH..][p + 2..p + 18]
  {
  }

  /** Octets with something else in place of their authenticator. */
  function Under(m: Octets, request: Digest): (r: Octets)
    requires |m| >= HEADER_LENGTH
    ensures |r| == |m|
  {
    m[..4] + request + m[HEADER_LENGTH..]
  }

  lemma UnderKeeps(m: Octets, request: Digest, at: nat)
    requires HEADER_LENGTH <= at <= |m|
    ensures Under(m, request)[HEADER_LENGTH..] == m[HEADER_LENGTH..]
    ensures Under(m, request)[at..] == m[at..]
    ensures Under(m, request)[..at][HEADER_LENGTH..] == m[HEADER_LENGTH..][..at - HEADER_LENGTH]
  {
  }

  lemma PatchIs(s: Octets, at: nat, digest: Digest)
    requires at + 16 <= |s|
    ensures Patch(s, at, digest) == s[..at] + digest + s[at + 16..]
  {
  }

  lemma ZeroedPack(q: Packet, request: Digest, k: nat)
    requires q.Packs() && FindFirst(q.attributes, MESSAGE_AUTHENTICATOR) == Some(k)
    requires q.attributes[k] == MaAttribute(q.attributes[k].data) && |q.attributes[k].data| == 16
    ensures q.(authenticator := request).WithMa(ZERO_DIGEST).Packs() && |q.Pack()| >= HEADER_LENGTH
    ensures q.MaPosition().Some? && q.MaPosition().value + 16 <= |q.Pack()|
    ensures q.(authenticator := request).WithMa(ZERO_DIGEST).Pack()
            == Patch(Under(q.Pack(), request), q.MaPosition().value, ZERO_DIGEST)
  {
    var p := q.(authenticator := request);
    ReplaceAuthenticator(q, request);
    Layout(q);
    FillingMaPatchesOctets(p, k, ZERO_DIGEST);
    MaOnTheWire(q, k);
  }

  /** Zeroed at their own places two messages are the same only if the places are. */
  lemma SamePlace(m: Octets, n: Octets, request: Digest)
    requires |m| == |n| && |m| >= HEADER_LENGTH && MaPlace(m).Some? && MaPlace(n).Some?
    requires MaPlace(m).value + 16 <= |m| && MaPlace(n).value + 16 <= |n|
    requires Patch(Under(m, request), MaPlace(m).value, ZERO_DIGEST) == Patch(Under(n, request), MaPlace(n).value, ZERO_DIGEST)
    ensures MaPlace(m) == MaPlace(n)
  {
    var z := Patch(Under(m, request), MaPlace(m).value, ZERO_DIGEST);
    PlaceInPatched(m, request, z);
    PlaceInPatched(n, request, z);
  }

  lemma PlaceInPatched(m: Octets, request: Digest, z: Octets)
    requires |m| >= HEADER_LENGTH && MaPlace(m).Some? && MaPlace(m).value + 16 <= |m|
    requires z == Patch(Under(m, request), MaPlace(m).value, ZERO_DIGEST)
    ensures Shift(HEADER_LENGTH + HEADER_SIZE, WirePosition(z[HEADER_LENGTH..])) == MaPlace(m)
  {
    var at := MaPlace(m).value;
    var u := Under(m, request);
    PatchIs(u, at, ZERO_DIGEST);
    UnderKeeps(m, request, at);
    SuffixOfJoined(u[..at], ZERO_DIGEST + u[at + 16..]);
    Assoc(u[..at], ZERO_DIGEST, u[at + 16..]);
    WalkToSamePlace(m[HEADER_LENGTH..], z[HEADER_LENGTH..], at - HEADER_LENGTH - 2);
  }

  lemma SuffixOfJoined(a: Octets, b: Octets)
    requires |a| >= HEADER_LENGTH
    ensures |(a + b)[HEADER_LENGTH..]| == |a| + |b| - HEADER_LENGTH
    ensures (a + b)[HEADER_LENGTH..][..|a| - HEADER_LENGTH] == a[HEADER_LENGTH..]
  {
  }

  lemma SameAround(s: Octets, t: Octets, at: nat)
    requires |s| == |t| && at + 16 <= |s| && s[at..at + 16] == t[at..at + 16]
    requires s[..at] + ZERO_DIGEST + s[at + 16..] == t[..at] + ZERO_DIGEST + t[at + 16..]
    ensures s == t
  {
    var (x, y) := (s[..at] + ZERO_DIGEST + s[at + 16..], t[..at] + ZERO_DIGEST + t[at + 16..]);
    assert x[..at] == s[..at] && y[..at] == t[..at];
    assert x[at + 16..] == s[at + 16..] && y[at + 16..] == t[at + 16..];
    assert s == s[..at] + s[at..at + 16] + s[at + 16..] && t == t[..at] + t[at..at + 16] + t[at + 16..];
  }

  lemma UnderSlice(m: Octets, request: Digest, at: nat)
    requires HEADER_LENGTH <= at && at + 16 <= |m|
    ensures Under(m, request)[at..at + 16] == m[at..at + 16]
  {
  }

  lemma SameUnder(m: Octets, n: Octets, request: Digest, at: nat)
    requires |m| == |n| && HEADER_LENGTH <= at && at + 16 <= |m| && m[at..at + 16] == n[at..at + 16]
    requires m[4..HEADER_LENGTH] == n[4..HEADER_LENGTH]
    requires Patch(Under(m, request), at, ZERO_DIGEST) == Patch(Under(n, request), at, ZERO_DIGEST)
    ensures m == n
  {
    var (s, t) := (Under(m, request), Under(n, request));
    PatchIs(s, at, ZERO_DIGEST);
    PatchIs(t, at, ZERO_DIGEST);
    UnderSlice(m, request, at);
    UnderSlice(n, request, at);
    SameAround(s, t, at);
    SameParts(m, n, request);
    SplitHeader(m);
    SplitHeader(n);
  }

  /** What section 5.14 hashes is what the check hashes exactly if the octets are the packer's own. */
  lemma {:induction false} SameZeroedOctets(m: Octets, request: Digest)
    requires |m| >= HEADER_LENGTH && ParseList(m[HEADER_LENGTH..]).Ok?
    requires var q := Received(m); HasMa(q) && |Ma(q).data| == 16 && q.Packs()
    ensures MaPlace(m).Some? && MaPlace(m).value + 16 <= |m|
    ensures m[MaPlace(m).value..MaPlace(m).value + 16] == Ma(Received(m)).data
    ensures var zeroed := Received(m).(authenticator := request).WithMa(ZERO_DIGEST);
            zeroed.Packs() &&
            (Patch(Under(m, request), MaPlace(m).value, ZERO_DIGEST) == zeroed.Pack() <==> Received(m).Pack() == m)
  {
    var q := Received(m);
    var (n, k) := (q.Pack(), FindFirst(q.attributes, MESSAGE_AUTHENTICATOR).value);
    MaWhereReceived(m);
    ParsedAreValid(m[HEADER_LENGTH..]);
    assert q.attributes[k].Valid();
    ZeroedPack(q, request, k);
    PlaceInPacked(q, k);
    ZeroedSameIff(m, n, request);
  }

  lemma PlaceInPacked(q: Packet, k: nat)
    requires q.Packs() && AllValid(q.attributes) && FindFirst(q.attributes, MESSAGE_AUTHENTICATOR) == Some(k)
    requires q.attributes[k] == MaAttribute(q.attributes[k].data) && |q.attributes[k].data| == 16
    ensures var n := q.Pack();
            && |n| >= HEADER_LENGTH && n[4..HEADER_LENGTH] == q.authenticator && MaPlace(n) == q.MaPosition()
            && MaPlace(n).Some? && HEADER_LENGTH <= MaPlace(n).value && MaPlace(n).value + 16 <= |n|
            && n[MaPlace(n).value..MaPlace(n).value + 16] == q.attributes[k].data
  {
    MaOnTheWire(q, k);
    Layout(q);
    WirePositionOfPacked(q.attributes);
  }

  /** Messages that carry the same value are the same, zeroed, exactly if they are the same. */
  lemma ZeroedSameIff(m: Octets, n: Octets, request: Digest)
    requires |m| >= HEADER_LENGTH && |n| >= HEADER_LENGTH && m[4..HEADER_LENGTH] == n[4..HEADER_LENGTH]
    requires MaPlace(m).Some? && MaPlace(n).Some? && MaPlace(m).value + 16 <= |m| && MaPlace(n).value + 16 <= |n|
    requires m[MaPlace(m).value..MaPlace(m).value + 16] == n[MaPlace(n).value..MaPlace(n).value + 16]
    ensures Patch(Under(m, request), MaPlace(m).value, ZERO_DIGEST) == Patch(Under(n, request), MaPlace(n).value, ZERO_DIGEST)
            <==> n == m
  {
    if Patch(Under(m, request), MaPlace(m).value, ZERO_DIGEST) == Patch(Under(n, request), MaPlace(n).value, ZERO_DIGEST) {
      assert |m| == |n|;
      SamePlace(m, n, request);
      SameUnder(m, n, request, MaPlace(m).value);
    }
  }

  /** Hash functions under which a packet passes, and nothing but its own zeroed octets does. */
  function SeparatingMac(q: Packet, zeroed: Octets): Crypto
  {
    Crypto((x: Octets) => q.authenticator,
           (key: Octets, x: Octets) => if x == zeroed then CarriedMa(q) else Other(CarriedMa(q)))
  }

  lemma SeparatingMacAccepts(q: Packet, secret: Octets, request: Digest)
    requires !NeverAccepted(q, secret) && HasMa(q) && q.(authenticator := request).WithMa(ZERO_DIGEST).Packs()
    ensures var c := SeparatingMac(q, q.(authenticator := request).WithMa(ZERO_DIGEST).Pack());
            ValidationError(c, q, secret, request).None?
  {
  }

  /** Without fitting octets, or with a value of another size, no hash function helps. */
  lemma NeverAcceptedAtAll(c: Crypto, q: Packet, secret: Octets, request: Digest)
    requires NeverAccepted(q, secret) && HasMa(q) && AllValid(q.attributes)
    ensures ValidationError(c, q, secret, request).Some?
  {
    var k := FindFirst(q.attributes, MESSAGE_AUTHENTICATOR).value;
    if secret != [] && |Ma(q).data| == 16 {
      assert q.attributes[k].Valid();
      ZeroingKeepsSize(q.attributes, k);
    }
  }

  lemma ZeroingKeepsSize(attrs: Attributes, k: nat)
    requires AllValid(attrs) && k < |attrs| && attrs[k] == MaAttribute(attrs[k].data) && |attrs[k].data| == 16
    ensures Packable(attrs) && Packable(attrs[k := MaAttribute(ZERO_DIGEST)])
    ensures LengthOf(attrs[k := MaAttribute(ZERO_DIGEST)]) == LengthOf(attrs)
  {
    ValidListIsPackable(attrs);
    MaBody(attrs, k, ZERO_DIGEST);
    MaBody(attrs, k, attrs[k].data);
    assert attrs[k := MaAttribute(attrs[k].data)] == attrs;
    LengthIsPackedLength(attrs);
    LengthIsPackedLength(attrs[k := MaAttribute(ZERO_DIGEST)]);
  }

  lemma CheckIsOnZeroed(c: Crypto, m: Octets, secret: Octets, request: Digest)
    requires |m| >= HEADER_LENGTH && ParseList(m[HEADER_LENGTH..]).Ok?
    requires var q := Received(m); HasMa(q) && |Ma(q).data| == 16 && q.Packs() && q.Pack() == m
    ensures ValidationError(c, Received(m), secret, request).None? ==> MaHolds(c, m, request, secret)
  {
    SameZeroedOctets(m, request);
  }

  /** Otherwise there are hash functions under which it is accepted and does not hold. */
  lemma ForgedMaIsAccepted(m: Octets, secret: Octets, known: map<Octet, Digest>)
    requires IsPacket(m, known) && HasMa(Received(m)) && !NeverAccepted(Received(m), secret) && Received(m).Pack() != m
    ensures exists c :: ParsePacket(c, m, secret, known).Ok? && !MaHolds(c, m, RequestOf(m, known), secret)
  {
    var (q, request) := (Received(m), RequestOf(m, known));
    SameZeroedOctets(m, request);
    var c := SeparatingMac(q, q.(authenticator := request).WithMa(ZERO_DIGEST).Pack());
    SeparatingMacAccepts(q, secret, request);
    ParseArrived(c, m, secret, known);
    assert c.hmac(secret, Patch(Under(m, request), MaPlace(m).value, ZERO_DIGEST)) == Other(CarriedMa(q));
    assert !MaHolds(c, m, request, secret);
  }

  /**
   * For every received packet with a Message-Authenticator, request or response: under all hash
   * functions its acceptance means that section 5.14 of RFC 2869 holds of the octets received, if and
   * only if those are the octets the packer itself would have made, or it is never accepted.
   */
  lemma AcceptedMeansMaHoldsIff(m: Octets, secret: Octets, known: map<Octet, Digest>)
    requires IsPacket(m, known) && HasMa(Received(m))
    ensures (forall c :: ParsePacket(c, m, secret, known).Ok? ==> MaHolds(c, m, RequestOf(m, known), secret))
            <==> NeverAccepted(Received(m), secret) || Received(m).Pack() == m
  {
    var (q, request) := (Received(m), RequestOf(m, known));
    if NeverAccepted(q, secret) {
      ParsedAreValid(m[HEADER_LENGTH..]);
      forall c ensures !ParsePacket(c, m, secret, known).Ok? {
        ParseArrived(c, m, secret, known);
        NeverAcceptedAtAll(c, q, secret, request);
      }
    } else if q.Pack() == m {
      forall c ensures ParsePacket(c, m, secret, known).Ok? ==> MaHolds(c, m, request, secret) {
        ParseArrived(c, m, secret, known);
        CheckIsOnZeroed(c, m, secret, request);
      }
    } else {
      ForgedMaIsAccepted(m, secret, known);
    }
  }
}
