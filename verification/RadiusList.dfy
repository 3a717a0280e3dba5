/**
 * The RADIUS attribute list: packing, lengths and positions, extraction of attributes from octets
 * and the merging of EAP-Message fragments back into one attribute at its own position.
 */
module RadiusList {
  import opened Octets
  import opened RadiusAttributes

  type Attributes = seq<Attribute>

  datatype ParseError =
    | ShortAttributeHeader
    | UnknownAttribute(typ: Octet)
    | BadValue(typ: Octet)
    | Diverges  // no error at all: the extraction loop never ends

  predicate Packable(attrs: Attributes)
  {
    forall i :: 0 <= i < |attrs| ==> attrs[i].Packable()
  }

  // ---- packing, lengths and positions -------------------------------------------------------

  function PackList(attrs: Attributes): Octets
    requires Packable(attrs)
  {
    if attrs == [] then [] else attrs[0].Pack() + PackList(attrs[1..])
  }

  function LengthOf(attrs: Attributes): nat
    requires Packable(attrs)
  {
    if attrs == [] then 0 else attrs[0].FullLength() + LengthOf(attrs[1..])
  }

  /** The first attribute of a type, as an index into the list. */
  function FindFirst(attrs: Attributes, typ: Octet): (k: Option<nat>)
    ensures k.Some? ==> k.value < |attrs| && attrs[k.value].typ == typ
                        && forall i :: 0 <= i < k.value ==> attrs[i].typ != typ
    ensures k.None? ==> forall i :: 0 <= i < |attrs| ==> attrs[i].typ != typ
  {
    if attrs == [] then None
    else if attrs[0].typ == typ then Some(0)
    else
      var k := FindFirst(attrs[1..], typ);
      if k.None? then None else Some(k.value + 1)
  }

  method ListLength(attrs: Attributes) returns (total: nat)
    requires Packable(attrs)
    ensures total == |PackList(attrs)|
  {
    total := 0;
    for i := 0 to |attrs|
      invariant LengthOf(attrs) == total + LengthOf(attrs[i..])
    {
      SuffixHead(attrs, i);
      total := total + attrs[i].FullLength();
    }
    LengthIsPackedLength(attrs);
  }

  method PackAttributes(attrs: Attributes) returns (packed: Octets)
    requires Packable(attrs)
    ensures packed == PackList(attrs)
  {
    packed := [];
    for i := 0 to |attrs|
      invariant packed == PackList(attrs[..i])
    {
      var one := attrs[i].Pack();
      if attrs[i].kind.Concat? {
        one := PackConcat(attrs[i].typ, attrs[i].data);
      }
      PackSnoc(attrs, i);
      packed := packed + one;
    }
    assert attrs[..|attrs|] == attrs;
  }

  /** Octet position of the first attribute of a type, by adding up the lengths before it. */
  function PositionOf(attrs: Attributes, typ: Octet): Option<nat>
  {
    if attrs == [] then None
    else if attrs[0].typ == typ then Some(0)
    else Shift(attrs[0].FullLength(), PositionOf(attrs[1..], typ))
  }

  function Shift(n: nat, position: Option<nat>): Option<nat>
  {
    if position.None? then None else Some(n + position.value)
  }

  method IndexOf(attrs: Attributes, typ: Octet) returns (position: Option<nat>)
    ensures position == PositionOf(attrs, typ)
  {
    var i: nat := 0;
    for k := 0 to |attrs|
      invariant PositionOf(attrs, typ) == Shift(i, PositionOf(attrs[k..], typ))
    {
      SuffixHead(attrs, k);
      if attrs[k].typ == typ {
        return Some(i);
      }
      i := i + attrs[k].FullLength();
    }
    return None;
  }

  /** The position found is where the attribute's octets start in the packed list. */
  lemma {:induction false} PositionIsPackedPrefix(attrs: Attributes, typ: Octet)
    requires Packable(attrs)
    ensures PositionOf(attrs, typ) == PackedPrefix(attrs, FindFirst(attrs, typ))
  {
    if attrs != [] && attrs[0].typ != typ {
      PositionIsPackedPrefix(attrs[1..], typ);
      FullLengthIsPackedLength(attrs[0]);
      var k := FindFirst(attrs[1..], typ);
      if k.Some? {
        PackPrefix(attrs, k.value);
      }
    }
  }

  /** How many octets the attributes in front of the k-th pack to. */
  function PackedPrefix(attrs: Attributes, k: Option<nat>): Option<nat>
    requires Packable(attrs) && (k.Some? ==> k.value <= |attrs|)
  {
    if k.None? then None else Some(|PackList(attrs[..k.value])|)
  }

  lemma PackPrefix(attrs: Attributes, k: nat)
    requires Packable(attrs) && k < |attrs|
    ensures PackList(attrs[..k + 1]) == attrs[0].Pack() + PackList(attrs[1..][..k])
  {
    assert attrs[..k + 1][1..] == attrs[1..][..k];
  }

  lemma {:induction false} PackAppend(a: Attributes, b: Attributes)
    requires Packable(a) && Packable(b)
    ensures Packable(a + b) && PackList(a + b) == PackList(a) + PackList(b)
  {
    if a == [] {
      Units(b);
      Units(PackList(b));
    } else {
      TailOfAppend(a, b);
      PackAppend(a[1..], b);
      Assoc(a[0].Pack(), PackList(a[1..]), PackList(b));
    }
  }

  lemma PackSnoc(attrs: Attributes, i: nat)
    requires Packable(attrs) && i < |attrs|
    ensures PackList(attrs[..i + 1]) == PackList(attrs[..i]) + attrs[i].Pack()
  {
    PackAppend(attrs[..i], [attrs[i]]);
    SplitAround(attrs, i);
    assert [attrs[i]][1..] == [];
    Units(attrs[i].Pack());
  }

  lemma FindFirstIs(attrs: Attributes, typ: Octet, k: nat)
    requires k < |attrs| && attrs[k].typ == typ
    requires forall i :: 0 <= i < k ==> attrs[i].typ != typ
    ensures FindFirst(attrs, typ) == Some(k)
  {
    var found := FindFirst(attrs, typ);
    assert found.Some? ==> found.value >= k;
  }

  lemma PackAround(attrs: Attributes, k: nat)
    requires Packable(attrs) && k < |attrs|
    ensures PackList(attrs) == PackList(attrs[..k]) + attrs[k].Pack() + PackList(attrs[k + 1..])
  {
    PackSnoc(attrs, k);
    PackAppend(attrs[..k + 1], attrs[k + 1..]);
    SplitAround(attrs, k);
  }

  /** The computed length of a list is the number of octets it packs to. */
  lemma {:induction false} LengthIsPackedLength(attrs: Attributes)
    requires Packable(attrs)
    ensures LengthOf(attrs) == |PackList(attrs)|
  {
    if attrs != [] {
      FullLengthIsPackedLength(attrs[0]);
      LengthIsPackedLength(attrs[1..]);
    }
  }

  // ---- extraction -----------------------------------------------------------------------------

  /** The attribute at the head of the octets, and the length its header declares. */
  function First(data: Octets): (r: Result<(Attribute, nat), ParseError>)
    requires data != []
    ensures r.Ok? ==> |data| >= 2 && r.value.0.Valid() && |r.value.0.data| <= MAX_DATA_LENGTH
    ensures r != Err(Diverges)
  {
    if |data| == 1 then Err(ShortAttributeHeader)
    else
      var typ, length := data[0], data[1];
      var value := Slice(data, HEADER_SIZE, length);
      if Lookup(typ).None? then Err(UnknownAttribute(typ))
      else if !IsValidLength(Lookup(typ).value, value) then Err(BadValue(typ))
      else Ok((Attribute(typ, Lookup(typ).value, value), length))
  }

  function Prepend(attrs: Attributes, r: Result<Attributes, ParseError>): Result<Attributes, ParseError>
  {
    if r.Ok? then Ok(attrs + r.value) else r
  }

  /**
   * Every attribute on the wire in order, EAP-Message fragments still apart. A declared length of 0
   * leaves the loop where it was; RadiusTermination shows that it then never ends.
   */
  function Extract(data: Octets): (r: Result<Attributes, ParseError>)
    decreases |data|
  {
    if data == [] then Ok([])
    else
      var first := First(data);
      if first.Err? then Err(first.error)
      else if first.value.1 == 0 then Err(Diverges)
      else Prepend([first.value.0], Extract(Slice(data, first.value.1, |data|)))
  }

  /** The index of the last attribute in a list where a run of fragments counts once. */
  function Index(attrs: Attributes): (i: int)
    ensures i >= -1 && (attrs != [] ==> i >= 0)
  {
    if attrs == [] then -1
    else
      var n := |attrs| - 1;
      var continues := attrs[n].IsEap() && n > 0 && attrs[n - 1].IsEap();
      Index(attrs[..n]) + if continues then 0 else 1
  }

  /** EAP-Message fragments in order, each with the position it was given. */
  function Track(attrs: Attributes): (r: seq<(Attribute, nat)>)
  {
    if attrs == [] then []
    else
      var n := |attrs| - 1;
      Track(attrs[..n]) + if attrs[n].IsEap() then [(attrs[n], Index(attrs))] else []
  }

  lemma PrependPrepend(a: Attributes, b: Attributes, r: Result<Attributes, ParseError>)
    ensures Prepend(a, Prepend(b, r)) == Prepend(a + b, r)
  {
    if r.Ok? {
      Assoc(a, b, r.value);
    }
  }

  lemma PrependNothing(r: Result<Attributes, ParseError>)
    ensures Prepend([], r) == r
  {
    if r.Ok? {
      Units(r.value);
    }
  }

  lemma SliceOfSuffix(data: Octets, pos: nat, length: nat)
    requires pos <= |data|
    ensures Slice(data[pos..], length, |data[pos..]|) == if pos + length <= |data| then data[pos + length..] else []
  {
  }

  lemma ExtractStep(before: Attributes, data: Octets)
    requires data != [] && First(data).Ok? && First(data).value.1 > 0
    ensures var (a, length) := First(data).value;
            Prepend(before, Extract(data)) == Prepend(before + [a], Extract(Slice(data, length, |data|)))
  {
    var (a, length) := First(data).value;
    PrependPrepend(before, [a], Extract(Slice(data, length, |data|)));
  }

  /** One header and its value, read at a position of the whole data. */
  method ReadAttribute(data: Octets, pos: nat) returns (r: Result<(Attribute, nat), ParseError>)
    requires pos < |data|
    ensures r == First(data[pos..])
  {
    if pos + 1 == |data| {
      return Err(ShortAttributeHeader);
    }
    var typ, length := data[pos], data[pos + 1];
    var value := Slice(data, pos + HEADER_SIZE, pos + length);
    assert value == Slice(data[pos..], HEADER_SIZE, length);
    if Lookup(typ).None? {
      return Err(UnknownAttribute(typ));
    }
    if !IsValidLength(Lookup(typ).value, value) {
      return Err(BadValue(typ));
    }
    return Ok((Attribute(typ, Lookup(typ).value, value), length));
  }

  lemma TrackSnoc(attrs: Attributes, a: Attribute)
    ensures Index(attrs + [a])
            == Index(attrs) + if a.IsEap() && attrs != [] && attrs[|attrs| - 1].IsEap() then 0 else 1
    ensures Track(attrs + [a]) == Track(attrs) + if a.IsEap() then [(a, Index(attrs + [a]) as nat)] else []
  {
    Snoc(attrs, a);
  }

  predicate IsLast(attrs: Attributes, last: int)
  {
    last == if attrs == [] then -1 else attrs[|attrs| - 1].typ
  }

  /** Keeps track of where a fragment should be in the list. */
  method TrackAttribute(ghost before: Attributes, a: Attribute, toConcat: seq<(Attribute, nat)>, index: int, last: int)
    returns (toConcat': seq<(Attribute, nat)>, index': int)
    requires IsLast(before, last) && index == Index(before) && toConcat == Track(before)
    ensures index' == Index(before + [a]) && toConcat' == Track(before + [a])
  {
    TrackSnoc(before, a);
    index', toConcat' := index, toConcat;
    if !a.IsEap() || last != a.typ {
      index' := index + 1;
    }
    if a.IsEap() {
      toConcat' := toConcat + [(a, index')];
    }
  }

  /** The extraction loop. `Diverges` stands for the run that never ends. */
  method ExtractAttributes(data: Octets)
    returns (r: Result<Attributes, ParseError>, toConcat: seq<(Attribute, nat)>)
    ensures r == Extract(data)
    ensures r.Ok? ==> toConcat == Track(r.value)
  {
    var attributes: Attributes := [];
    toConcat := [];
    var pos, index, last: int := 0, -1, -1;
    ghost var rest := data;
    PrependNothing(Extract(data));
    while pos < |data|
      invariant rest == if pos <= |data| then data[pos..] else []
      invariant Extract(data) == Prepend(attributes, Extract(rest))
      invariant IsLast(attributes, last) && index == Index(attributes) && toConcat == Track(attributes)
      decreases |data| - pos
    {
      var first := ReadAttribute(data, pos);
      if first.Err? {
        return Err(first.error), toConcat;
      }
      var (attribute, length) := first.value;
      if length == 0 {
        return Err(Diverges), toConcat;  // the next iteration would be this one again
      }
      ExtractStep(attributes, rest);
      SliceOfSuffix(data, pos, length);
      rest := Slice(rest, length, |rest|);
      pos := pos + length;
      toConcat, index := TrackAttribute(attributes, attribute, toConcat, index, last);
      last := attribute.typ;
      attributes := attributes + [attribute];
    }
    Units(attributes);
    r := Ok(attributes);
  }

  // ---- merging of fragments -----------------------------------------------------------------

  function NonEap(attrs: Attributes): (r: Attributes)
    ensures forall i :: 0 <= i < |r| ==> !r[i].IsEap()
  {
    if attrs == [] then []
    else (if attrs[0].IsEap() then [] else [attrs[0]]) + NonEap(attrs[1..])
  }

  function JoinData(list: seq<(Attribute, nat)>): Octets
  {
    if list == [] then [] else list[0].0.data + JoinData(list[1..])
  }

  /** `list.insert(i, x)`: an index beyond the end appends. */
  function Insert(attrs: Attributes, i: nat, x: Attribute): Attributes
  {
    var at := if i <= |attrs| then i else |attrs|;
    attrs[..at] + [x] + attrs[at..]
  }

  function Merge(attrs: Attributes, toConcat: seq<(Attribute, nat)>): Attributes
  {
    if toConcat == [] then attrs
    else
      Insert(NonEap(attrs), toConcat[|toConcat| - 1].1, EapAttribute(JoinData(toConcat)))
  }

  method JoinFragments(toConcat: seq<(Attribute, nat)>) returns (data: Octets)
    ensures data == JoinData(toConcat)
  {
    data := [];
    for k := 0 to |toConcat|
      invariant JoinData(toConcat) == data + JoinData(toConcat[k..])
    {
      SuffixHead(toConcat, k);
      Assoc(data, toConcat[k].0.data, JoinData(toConcat[k + 1..]));
      data := data + toConcat[k].0.data;
    }
    Units(data);
  }

  method RemoveFragments(attrs: Attributes) returns (kept: Attributes)
    ensures kept == NonEap(attrs)
  {
    kept := [];
    for k := 0 to |attrs|
      invariant NonEap(attrs) == kept + NonEap(attrs[k..])
    {
      SuffixHead(attrs, k);
      Units(NonEap(attrs[k + 1..]));
      Assoc(kept, [attrs[k]], NonEap(attrs[k + 1..]));
      if !attrs[k].IsEap() {
        kept := kept + [attrs[k]];
      }
    }
    Units(kept);
  }

  /** EAP-Message is the only registered Concat type, so there is one list to join. */
  method MergeConcatAttributes(attrs: Attributes, toConcat: seq<(Attribute, nat)>)
    returns (merged: Attributes)
    ensures merged == Merge(attrs, toConcat)
  {
    if toConcat == [] {
      return attrs;
    }
    var data := JoinFragments(toConcat);
    var kept := RemoveFragments(attrs);
    merged := Insert(kept, toConcat[|toConcat| - 1].1, EapAttribute(data));
  }

  function ParseList(data: Octets): (r: Result<Attributes, ParseError>)
  {
    match Extract(data)
    case Err(e) => Err(e)
    case Ok(attrs) =>
      Ok(Merge(attrs, Track(attrs)))
  }

  method ParseAttributes(data: Octets) returns (r: Result<Attributes, ParseError>)
    ensures r == ParseList(data)
  {
    var extracted, toConcat := ExtractAttributes(data);
    if extracted.Err? {
      return Err(extracted.error);
    }
    var merged := MergeConcatAttributes(extracted.value, toConcat);
    r := Ok(merged);
  }
}
