/**
 * The hash checks of RADIUS end to end: a built Access-Request is accepted by the parser with the
 * same secret, a response is accepted exactly when its two authenticators are right on the octets
 * received, and what the checks do not see.
 */
module RadiusAuthentication {
  import opened Octets
  import opened RadiusAttributes
  import opened RadiusList
  import opened RadiusRoundTrip
  import opened RadiusPackets

  // ---- layout of a packed packet ---------------------------------------------------------------

  /** The RADIUS Length field equals the size of the packet. */
  lemma LengthFieldIsSize(p: Packet)
    requires p.Packs()
    ensures |p.Pack()| == HEADER_LENGTH + |PackList(p.attributes)|
    ensures Unpack16(p.Pack()[2..4]) == |p.Pack()|
  {
    LengthIsPackedLength(p.attributes);
    assert p.Pack()[2..4] == Pack16(HEADER_LENGTH + LengthOf(p.attributes));
  }

  lemma Layout(p: Packet)
    requires p.Packs()
    ensures var m := p.Pack();
            && |m| >= HEADER_LENGTH && m[0] == p.code && m[1] == p.id
            && m[4..HEADER_LENGTH] == p.authenticator && m[HEADER_LENGTH..] == PackList(p.attributes)
  {
  }

  /** The same packet under another authenticator. */
  lemma ReplaceAuthenticator(p: Packet, request: Digest)
    requires p.Packs()
    ensures p.(authenticator := request).Packs()
    ensures p.(authenticator := request).Pack() == p.Pack()[..4] + request + p.Pack()[HEADER_LENGTH..]
  {
    var m := p.Pack();
    assert m[..4] == [p.code, p.id] + Pack16(HEADER_LENGTH + LengthOf(p.attributes));
    Layout(p);
  }

  lemma PatchMiddle(pre: Octets, mid: Octets, post: Octets, with: Octets)
    requires |mid| == |with|
    ensures Patch(pre + mid + post, |pre|, with) == pre + with + post
  {
  }

  lemma Regroup(a: Octets, b: Octets, c: Octets, d: Octets, e: Octets)
    ensures a + (b + (c + d) + e) == (a + b + c) + d + e
  {
  }

  lemma MaBody(attrs: Attributes, k: nat, digest: Digest)
    requires Packable(attrs) && k < |attrs|
    requires attrs[k] == MaAttribute(attrs[k].data) && |attrs[k].data| == 16
    ensures var filled := attrs[k := MaAttribute(digest)];
            && Packable(filled)
            && PackList(filled) == PackList(attrs[..k]) + ([MESSAGE_AUTHENTICATOR, 18] + digest) + PackList(attrs[k + 1..])
  {
    var filled := attrs[k := MaAttribute(digest)];
    PackAround(filled, k);
    assert filled[..k] == attrs[..k] && filled[k + 1..] == attrs[k + 1..];
  }

  /**
   * Changing a 16-octet Message-Authenticator changes exactly its 16 value octets on the wire:
   * lengths, headers, other attributes and the RADIUS header stay as they are.
   */
  lemma FillingMaPatchesOctets(p: Packet, k: nat, digest: Digest)
    requires p.Packs() && FindFirst(p.attributes, MESSAGE_AUTHENTICATOR) == Some(k)
    requires p.attributes[k] == MaAttribute(p.attributes[k].data) && |p.attributes[k].data| == 16
    ensures p.WithMa(digest).Packs() && p.MaPosition().Some?
    ensures p.WithMa(digest).Pack() == Patch(p.Pack(), p.MaPosition().value, digest)
  {
    var attrs, q := p.attributes, p.WithMa(digest);
    PositionIsPackedPrefix(attrs, MESSAGE_AUTHENTICATOR);
    var before, after := PackList(attrs[..k]), PackList(attrs[k + 1..]);
    var data := attrs[k].data;
    MaBody(attrs, k, digest);
    MaBody(attrs, k, data);
    assert attrs[k := MaAttribute(data)] == attrs;
    LengthIsPackedLength(attrs);
    LengthIsPackedLength(q.attributes);
    var head := [p.code, p.id] + Pack16(HEADER_LENGTH + LengthOf(attrs)) + p.authenticator;
    var pre := head + before + [MESSAGE_AUTHENTICATOR, 18];
    Regroup(head, before, [MESSAGE_AUTHENTICATOR, 18], data, after);
    Regroup(head, before, [MESSAGE_AUTHENTICATOR, 18], digest, after);
    PatchMiddle(pre, data, after, digest);
  }

  lemma WithMaTwice(p: Packet, k: nat, d: Digest, e: Digest)
    requires FindFirst(p.attributes, MESSAGE_AUTHENTICATOR) == Some(k)
    ensures FindFirst(p.WithMa(d).attributes, MESSAGE_AUTHENTICATOR) == Some(k)
    ensures p.WithMa(d).WithMa(e) == p.WithMa(e)
  {
    var q := p.WithMa(d).attributes;
    assert q[k].typ == MESSAGE_AUTHENTICATOR;
    assert forall i :: 0 <= i < k ==> q[i].typ == p.attributes[i].typ;
    FindFirstIs(q, MESSAGE_AUTHENTICATOR, k);
  }

  // ---- canonical packets -----------------------------------------------------------------------

  /** A packet the attribute list parser gives back as it was. */
  predicate Canonical(p: Packet)
  {
    p.Packs() && AllValid(p.attributes) && AtMostOneEap(p.attributes) && NoEmptyEap(p.attributes)
  }

  lemma ParsePacked(c: Crypto, p: Packet, secret: Octets, known: map<Octet, Digest>)
    requires Canonical(p) && p.code in {ACCESS_REQUEST, ACCESS_ACCEPT, ACCESS_REJECT, ACCESS_CHALLENGE}
    requires p.code != ACCESS_REQUEST ==> p.id in known
    ensures var request := if p.code == ACCESS_REQUEST then p.authenticator else known[p.id];
            ParsePacket(c, p.Pack(), secret, known)
            == match ValidationError(c, p, secret, request)
               case Some(e) => Err(e)
               case None => Ok(p)
  {
    Layout(p);
    PackThenParse(p.attributes);
  }

  lemma MaIsWellFormed(p: Packet, k: nat)
    requires Canonical(p) && FindFirst(p.attributes, MESSAGE_AUTHENTICATOR) == Some(k)
    ensures p.attributes[k] == MaAttribute(p.attributes[k].data)
  {
    assert p.attributes[k].Valid();
  }

  lemma FillingKeepsCanonical(p: Packet, k: nat, digest: Digest)
    requires Canonical(p) && FindFirst(p.attributes, MESSAGE_AUTHENTICATOR) == Some(k)
    requires p.WithMa(digest).Packs()
    ensures Canonical(p.WithMa(digest))
  {
    var attrs, filled := p.attributes, p.WithMa(digest).attributes;
    assert forall i :: 0 <= i < |attrs| && i != k ==> filled[i] == attrs[i];
    assert filled[k].Valid() && !filled[k].IsEap() && !attrs[k].IsEap();
  }

  /** Zeroing the filled-in value again restores the packet the digest was taken over. */
  lemma FilledMaIsRight(c: Crypto, p: Packet, k: nat, secret: Octets)
    requires p.Packs() && FindFirst(p.attributes, MESSAGE_AUTHENTICATOR) == Some(k)
    requires p.attributes[k] == MaAttribute(ZERO_DIGEST)
    ensures MaError(c, p.WithMa(c.hmac(secret, p.Pack())), secret, p.authenticator) == None
  {
    var digest := c.hmac(secret, p.Pack());
    WithMaTwice(p, k, digest, ZERO_DIGEST);
    assert p.WithMa(ZERO_DIGEST) == p;
    assert p.WithMa(digest).(authenticator := p.authenticator) == p.WithMa(digest);
  }

  lemma BuiltIsFilled(c: Crypto, p: Packet, k: nat, secret: Octets)
    requires p.Packs() && FindFirst(p.attributes, MESSAGE_AUTHENTICATOR) == Some(k) && secret != []
    requires p.attributes[k] == MaAttribute(p.attributes[k].data) && |p.attributes[k].data| == 16
    ensures var q := p.WithMa(c.hmac(secret, p.Pack()));
            q.Packs() && Built(c, p, secret) == q.Pack()
  {
    FillingMaPatchesOctets(p, k, c.hmac(secret, p.Pack()));
  }

  lemma RequestParses(c: Crypto, p: Packet, secret: Octets, known: map<Octet, Digest>)
    requires Canonical(p) && p.code == ACCESS_REQUEST && secret != []
    requires MaError(c, p, secret, p.authenticator) == None
    ensures ParsePacket(c, p.Pack(), secret, known) == Ok(p)
  {
    ParsePacked(c, p, secret, known);
  }

  // ---- main results ---------------------------------------------------------------------------

  /**
   * An Access-Request built with a secret is accepted by the parser with that secret, and comes
   * back with nothing changed but the first Message-Authenticator, if any, filled in.
   */
  lemma BuiltRequestIsAccepted(c: Crypto, p: Packet, secret: Octets, known: map<Octet, Digest>)
    requires p.code == ACCESS_REQUEST && Canonical(p) && secret != []
    requires var ma := FindFirst(p.attributes, MESSAGE_AUTHENTICATOR);
             ma.Some? ==> p.attributes[ma.value].data == ZERO_DIGEST
    ensures ParsePacket(c, Built(c, p, secret), secret, known)
            == Ok(p.WithMa(c.hmac(secret, p.Pack())))
  {
    var ma := FindFirst(p.attributes, MESSAGE_AUTHENTICATOR);
    if ma.None? {
      PositionIsPackedPrefix(p.attributes, MESSAGE_AUTHENTICATOR);
      RequestParses(c, p, secret, known);
    } else {
      var q := p.WithMa(c.hmac(secret, p.Pack()));
      MaIsWellFormed(p, ma.value);
      BuiltIsFilled(c, p, ma.value, secret);
      FillingKeepsCanonical(p, ma.value, c.hmac(secret, p.Pack()));
      FilledMaIsRight(c, p, ma.value, secret);
      assert q.code == p.code && q.authenticator == p.authenticator;
      RequestParses(c, q, secret, known);
    }
  }

  /** Section 3 of RFC 2865, on the octets received. */
  predicate ResponseAuthenticatorHolds(c: Crypto, message: Octets, request: Digest, secret: Octets)
    requires |message| >= HEADER_LENGTH
  {
    c.md5(message[..4] + request + message[HEADER_LENGTH..] + secret) == message[4..HEADER_LENGTH]
  }

  /** Section 5.14 of RFC 2869, on the octets received; `at` is where the value starts. */
  predicate MessageAuthenticatorHolds(c: Crypto, message: Octets, request: Digest, secret: Octets, at: nat)
    requires HEADER_LENGTH <= at && at + 16 <= |message|
  {
    c.hmac(secret, Patch(message[..4] + request + message[HEADER_LENGTH..], at, ZERO_DIGEST)) == message[at..at + 16]
  }

  lemma MaOnTheWire(p: Packet, k: nat)
    requires p.Packs() && FindFirst(p.attributes, MESSAGE_AUTHENTICATOR) == Some(k)
    requires p.attributes[k] == MaAttribute(p.attributes[k].data) && |p.attributes[k].data| == 16
    ensures p.MaPosition().Some?
    ensures var at := p.MaPosition().value;
            HEADER_LENGTH <= at && at + 16 <= |p.Pack()| && p.Pack()[at..at + 16] == p.attributes[k].data
  {
    PositionIsPackedPrefix(p.attributes, MESSAGE_AUTHENTICATOR);
    var attrs, at := p.attributes, p.MaPosition().value;
    PackAround(attrs, k);
    LengthFieldIsSize(p);
    Layout(p);
    var body := p.Pack()[HEADER_LENGTH..];
    var from := at - HEADER_LENGTH;
    assert body[from..from + 16] == attrs[k].data;
    assert p.Pack()[at..at + 16] == body[from..from + 16];
  }

  lemma MaErrorOnTheWire(c: Crypto, p: Packet, k: nat, secret: Octets, request: Digest)
    requires p.Packs() && FindFirst(p.attributes, MESSAGE_AUTHENTICATOR) == Some(k)
    requires p.attributes[k] == MaAttribute(p.attributes[k].data) && |p.attributes[k].data| == 16
    ensures p.MaPosition().Some? && HEADER_LENGTH <= p.MaPosition().value
    ensures p.MaPosition().value + 16 <= |p.Pack()|
    ensures MaError(c, p, secret, request).None?
            <==> MessageAuthenticatorHolds(c, p.Pack(), request, secret, p.MaPosition().value)
  {
    var q := p.(authenticator := request);
    ReplaceAuthenticator(p, request);
    FillingMaPatchesOctets(q, k, ZERO_DIGEST);
    MaOnTheWire(p, k);
    assert q.MaPosition() == p.MaPosition();
  }

  /**
   * A response to a known request, in the packer's own encoding, is accepted exactly when its
   * Response Authenticator holds and its Message-Authenticator, if present, has 16 octets and
   * holds. The packet handed out is the one received, not the zeroed working copy.
   */
  lemma ResponseAcceptedIffAuthentic(c: Crypto, p: Packet, secret: Octets, known: map<Octet, Digest>)
    requires p.code in {ACCESS_ACCEPT, ACCESS_REJECT, ACCESS_CHALLENGE}
    requires Canonical(p) && secret != [] && p.id in known
    ensures |p.Pack()| >= HEADER_LENGTH
    ensures var (message, request, ma) := (p.Pack(), known[p.id], FindFirst(p.attributes, MESSAGE_AUTHENTICATOR));
            var accepted := ParsePacket(c, message, secret, known);
            && (accepted.Ok? ==> accepted.value == p)
            && (accepted.Ok? <==>
                && ResponseAuthenticatorHolds(c, message, request, secret)
                && (ma.Some? ==>
                    && |p.attributes[ma.value].data| == 16
                    && p.MaPosition().Some? && p.MaPosition().value >= HEADER_LENGTH
                    && p.MaPosition().value + 16 <= |message|
                    && MessageAuthenticatorHolds(c, message, request, secret, p.MaPosition().value)))
  {
    var request := known[p.id];
    Layout(p);
    ParsePacked(c, p, secret, known);
    ReplaceAuthenticator(p, request);
    assert ResponseError(c, p, secret, request).None?
      <==> ResponseAuthenticatorHolds(c, p.Pack(), request, secret);
    var ma := FindFirst(p.attributes, MESSAGE_AUTHENTICATOR);
    if ma.Some? && |p.attributes[ma.value].data| == 16 {
      MaErrorOnTheWire(c, p, ma.value, secret, request);
    }
  }

  /**
   * The checks run on the re-packed attributes: how the sender split its EAP-Message and what it
   * put in the Length field make no difference to the verdict. A sender that hashes another split
   * than the packer's own is therefore not checked on the octets it sent.
   */
  lemma VerdictIgnoresSplitAndLength(c: Crypto, p: Packet, pre: Attributes, parts: seq<Octets>, post: Attributes,
                                     length: Octets, secret: Octets, known: map<Octet, Digest>)
    requires Canonical(p) && parts != [] && Fits(parts) && |length| == 2
    requires NoEap(pre) && NoEap(post)
    requires p.attributes == pre + [EapAttribute(Flatten(parts))] + post
    ensures Packable(pre) && Packable(post)
    ensures var body := PackList(pre) + PackParts(parts) + PackList(post);
            ParsePacket(c, [p.code, p.id] + length + p.authenticator + body, secret, known)
            == ParsePacket(c, p.Pack(), secret, known)
  {
    assert AllValid(pre) && AllValid(post) by {
      assert forall i :: 0 <= i < |pre| ==> pre[i] == p.attributes[i];
      assert forall i :: 0 <= i < |post| ==> post[i] == p.attributes[|pre| + 1 + i];
    }
    ValidListIsPackable(pre);
    ValidListIsPackable(post);
    FragmentationIsInvisible(pre, parts, post);
    PackThenParse(p.attributes);
    SameVerdict(c, p, length, PackList(pre) + PackParts(parts) + PackList(post), secret, known);
  }

  lemma SameVerdict(c: Crypto, p: Packet, length: Octets, body: Octets, secret: Octets, known: map<Octet, Digest>)
    requires p.Packs() && |length| == 2 && ParseList(body) == ParseList(PackList(p.attributes))
    ensures ParsePacket(c, [p.code, p.id] + length + p.authenticator + body, secret, known)
            == ParsePacket(c, p.Pack(), secret, known)
  {
    Layout(p);
    var sent := [p.code, p.id] + length + p.authenticator + body;
    assert sent[HEADER_LENGTH..] == body && sent[4..HEADER_LENGTH] == p.authenticator;
  }
}
