/**
 * Where the first Message-Authenticator stands on the wire, found by walking the headers as they
 * came, in whatever encoding; and that its value there is the one the parsed list carries.
 */
module RadiusWire {
  import opened Octets
  import opened RadiusAttributes
  import opened RadiusList
  import opened RadiusRoundTrip

  /** Octet position of the header of the first Message-Authenticator, by types and declared lengths. */
  function WirePosition(data: Octets): Option<nat>
    decreases |data|
  {
    if |data| < HEADER_SIZE then None
    else if data[0] == MESSAGE_AUTHENTICATOR then Some(0)
    else if data[1] == 0 then None
    else Shift(data[1], WirePosition(Slice(data, data[1], |data|)))
  }

  /** The first attribute of a type. */
  function FirstOf(attrs: Attributes, typ: Octet): Option<Attribute>
  {
    if attrs == [] then None else if attrs[0].typ == typ then Some(attrs[0]) else FirstOf(attrs[1..], typ)
  }

  lemma {:induction false} FirstOfIsFound(attrs: Attributes, typ: Octet)
    ensures match FindFirst(attrs, typ)
            case None => FirstOf(attrs, typ).None?
            case Some(k) => FirstOf(attrs, typ) == Some(attrs[k])
  {
    if attrs != [] && attrs[0].typ != typ {
      FirstOfIsFound(attrs[1..], typ);
    }
  }

  lemma {:induction false} FirstOfAppend(a: Attributes, b: Attributes, typ: Octet)
    ensures FirstOf(a + b, typ) == if FirstOf(a, typ).Some? then FirstOf(a, typ) else FirstOf(b, typ)
  {
    if a == [] {
      Units(b);
    } else {
      TailOfAppend(a, b);
      FirstOfAppend(a[1..], b, typ);
    }
  }

  lemma {:induction false} FirstOfNonEap(attrs: Attributes)
    ensures FirstOf(NonEap(attrs), MESSAGE_AUTHENTICATOR) == FirstOf(attrs, MESSAGE_AUTHENTICATOR)
  {
    if attrs != [] {
      FirstOfNonEap(attrs[1..]);
      if attrs[0].IsEap() {
        Units(NonEap(attrs[1..]));
      } else {
        FirstOfAppend([attrs[0]], NonEap(attrs[1..]), MESSAGE_AUTHENTICATOR);
        assert [attrs[0]][1..] == [];
      }
    }
  }

  lemma {:induction false} FirstOfInsert(attrs: Attributes, i: nat, eap: Attribute)
    requires eap.IsEap()
    ensures FirstOf(Insert(attrs, i, eap), MESSAGE_AUTHENTICATOR) == FirstOf(attrs, MESSAGE_AUTHENTICATOR)
  {
    var at := if i <= |attrs| then i else |attrs|;
    FirstOfAppend(attrs[..at] + [eap], attrs[at..], MESSAGE_AUTHENTICATOR);
    FirstOfAppend(attrs[..at], [eap], MESSAGE_AUTHENTICATOR);
    assert [eap][1..] == [];
    FirstOfAppend(attrs[..at], attrs[at..], MESSAGE_AUTHENTICATOR);
    assert attrs[..at] + attrs[at..] == attrs;
  }

  /** Merging fragments does not change which Message-Authenticator comes first. */
  lemma {:induction false} FirstOfParsed(data: Octets)
    requires ParseList(data).Ok?
    ensures FirstOf(ParseList(data).value, MESSAGE_AUTHENTICATOR) == FirstOf(Extract(data).value, MESSAGE_AUTHENTICATOR)
  {
    var attrs := Extract(data).value;
    var toConcat := Track(attrs);
    if toConcat != [] {
      FirstOfNonEap(attrs);
      FirstOfInsert(NonEap(attrs), toConcat[|toConcat| - 1].1, EapAttribute(JoinData(toConcat)));
    }
  }

  /** The value at the position, if it has 16 octets. */
  ghost predicate ValueAt(data: Octets, position: Option<nat>, a: Option<Attribute>)
  {
    && (position.Some? <==> a.Some?)
    && (a.Some? && |a.value.data| == 16 ==>
          position.value + 18 <= |data| && data[position.value + 2..position.value + 18] == a.value.data)
  }

  lemma ValueBehind(data: Octets, length: nat, rest: Option<nat>, a: Option<Attribute>)
    requires ValueAt(Slice(data, length, |data|), rest, a)
    ensures ValueAt(data, Shift(length, rest), a)
  {
    if a.Some? && |a.value.data| == 16 {
      assert Slice(data, length, |data|) == data[length..];
    }
  }

  lemma HeadValue(data: Octets)
    requires data != [] && First(data).Ok? && |First(data).value.0.data| == 16
    ensures |data| >= 18 && data[2..18] == First(data).value.0.data
  {
  }

  lemma {:induction false} WireValue(data: Octets)
    requires Extract(data).Ok?
    ensures ValueAt(data, WirePosition(data), FirstOf(Extract(data).value, MESSAGE_AUTHENTICATOR))
    decreases |data|
  {
    if data != [] {
      var (a, length) := First(data).value;
      var rest := Slice(data, length, |data|);
      assert a.typ == data[0] && length == data[1];
      TailOfAppend([a], Extract(rest).value);
      assert [a][1..] == [];
      Units(Extract(rest).value);
      if a.typ == MESSAGE_AUTHENTICATOR {
        if |a.data| == 16 {
          HeadValue(data);
        }
      } else {
        WireValue(rest);
        ValueBehind(data, length, WirePosition(rest), FirstOf(Extract(rest).value, MESSAGE_AUTHENTICATOR));
      }
    }
  }

  // ---- packed lists -------------------------------------------------------------------------------

  /** Walking over one attribute of another type. */
  lemma {:induction false} WalkOver(typ: Octet, value: Octets, tail: Octets)
    requires Lookup(typ).Some? && IsValidLength(Lookup(typ).value, value) && |value| <= MAX_DATA_LENGTH
    ensures WirePosition(PackFragment(typ, value) + tail)
            == if typ == MESSAGE_AUTHENTICATOR then Some(0) else Shift(|value| + HEADER_SIZE, WirePosition(tail))
  {
    var data: Octets := PackFragment(typ, value) + tail;
    var length := |value| + HEADER_SIZE;
    assert Slice(data, length, |data|) == data[length..] == tail;
    assert Slice(data, HEADER_SIZE, length) == data[HEADER_SIZE..length] == value;
  }

  lemma ShiftShift(a: nat, b: nat, position: Option<nat>)
    ensures Shift(a, Shift(b, position)) == Shift(a + b, position)
  {
  }

  lemma {:induction false} WalkOverFragments(data: Octets, tail: Octets)
    ensures WirePosition(PackFragments(EAP_MESSAGE, data) + tail)
            == Shift(|PackFragments(EAP_MESSAGE, data)|, WirePosition(tail))
    decreases |data|
  {
    if data == [] {
      Units(tail);
    } else {
      var n := FirstPiece(data);
      WalkOverFragments(data[n..], tail);
      WalkOverOne(data[..n], PackFragments(EAP_MESSAGE, data[n..]), tail, WirePosition(tail));
      assert PackFragments(EAP_MESSAGE, data) == PackFragment(EAP_MESSAGE, data[..n]) + PackFragments(EAP_MESSAGE, data[n..]);
    }
  }

  lemma {:induction false} WalkOverOne(value: Octets, rest: Octets, tail: Octets, r: Option<nat>)
    requires |value| <= MAX_DATA_LENGTH && WirePosition(rest + tail) == Shift(|rest|, r)
    ensures var packed := PackFragment(EAP_MESSAGE, value) + rest;
            WirePosition(packed + tail) == Shift(|packed|, r)
  {
    WalkOver(EAP_MESSAGE, value, rest + tail);
    Assoc(PackFragment(EAP_MESSAGE, value), rest, tail);
    ShiftShift(|value| + HEADER_SIZE, |rest|, r);
  }

  lemma {:induction false} WalkOverPacked(a: Attribute, tail: Octets)
    requires a.Valid() && a.Packable()
    ensures WirePosition(a.Pack() + tail)
            == if a.typ == MESSAGE_AUTHENTICATOR then Some(0) else Shift(a.FullLength(), WirePosition(tail))
  {
    FullLengthIsPackedLength(a);
    ValidIsPackable(a);
    if a.IsEap() {
      WalkOverFragments(a.data, tail);
    } else {
      PackHead(a);
      WalkOver(a.typ, a.data, tail);
    }
  }

  /** In the packer's own encoding the walk comes to the position the packer computes. */
  lemma {:induction false} WirePositionOfPacked(attrs: Attributes)
    requires AllValid(attrs) && Packable(attrs)
    ensures WirePosition(PackList(attrs)) == PositionOf(attrs, MESSAGE_AUTHENTICATOR)
  {
    if attrs != [] {
      var (a, rest) := (attrs[0], attrs[1..]);
      WirePositionOfPacked(rest);
      WalkOverPacked(a, PackList(rest));
      assert PackList(attrs) == a.Pack() + PackList(rest);
    }
  }

  // ---- changed values -----------------------------------------------------------------------------

  lemma PrefixOfSuffix(data: Octets, q: Octets, length: nat, n: nat)
    requires length <= n <= |data| == |q| && q[..n] == data[..n]
    ensures q[length..][..n - length] == data[length..][..n - length]
  {
    assert q[length..][..n - length] == q[..n][length..] && data[length..][..n - length] == data[..n][length..];
  }

  lemma {:induction false} WalkOn(data: Octets)
    requires |data| >= 2 && data[0] != MESSAGE_AUTHENTICATOR && 0 < data[1] <= |data|
    ensures WirePosition(data) == Shift(data[1], WirePosition(data[data[1]..]))
  {
    assert Slice(data, data[1], |data|) == data[data[1]..];
  }

  /** Nothing behind the first Message-Authenticator's header moves it. */
  lemma {:induction false} WalkToSamePlace(data: Octets, q: Octets, p: nat)
    requires WirePosition(data) == Some(p) && p + 2 <= |data| == |q| && q[..p + 2] == data[..p + 2]
    ensures WirePosition(q) == Some(p)
    decreases |data|
  {
    assert q[0] == q[..p + 2][0] && q[1] == q[..p + 2][1] && data[0] == data[..p + 2][0] && data[1] == data[..p + 2][1];
    if data[0] != MESSAGE_AUTHENTICATOR {
      var length: nat := data[1];
      WalkOn(data);
      PrefixOfSuffix(data, q, length, p + 2);
      WalkToSamePlace(data[length..], q[length..], p - length);
      WalkOn(q);
    }
  }
}
