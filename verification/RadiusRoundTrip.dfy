/**
 * What the attribute list parser makes of octets the packer, or any other sender, produced: the
 * fragments of an EAP-Message are invisible after parsing, and parsing undoes packing exactly on
 * the lists with at most one EAP-Message, none of them empty.
 */
module RadiusRoundTrip {
  import opened Octets
  import opened RadiusAttributes
  import opened RadiusList

  predicate AllValid(attrs: Attributes)
  {
    forall i :: 0 <= i < |attrs| ==> attrs[i].Valid()
  }

  predicate NoEap(attrs: Attributes)
  {
    forall i :: 0 <= i < |attrs| ==> !attrs[i].IsEap()
  }

  predicate AtMostOneEap(attrs: Attributes)
  {
    forall i, j :: 0 <= i < j < |attrs| ==> !(attrs[i].IsEap() && attrs[j].IsEap())
  }

  predicate NoEmptyEap(attrs: Attributes)
  {
    forall i :: 0 <= i < |attrs| && attrs[i].IsEap() ==> attrs[i].data != []
  }

  lemma ValidListIsPackable(attrs: Attributes)
    requires AllValid(attrs)
    ensures Packable(attrs)
  {
    forall i | 0 <= i < |attrs| ensures attrs[i].Packable() {
      ValidIsPackable(attrs[i]);
    }
  }

  // ---- fragments ------------------------------------------------------------------------------

  predicate Fits(parts: seq<Octets>)
  {
    forall i :: 0 <= i < |parts| ==> |parts[i]| <= MAX_DATA_LENGTH
  }

  /** Any split of an EAP-Message into consecutive fragments, as it appears on the wire. */
  function PackParts(parts: seq<Octets>): Octets
    requires Fits(parts)
  {
    if parts == [] then [] else PackFragment(EAP_MESSAGE, parts[0]) + PackParts(parts[1..])
  }

  function FragmentAttributes(parts: seq<Octets>): (r: Attributes)
    ensures |r| == |parts|
    ensures forall i :: 0 <= i < |parts| ==> r[i] == EapAttribute(parts[i])
  {
    seq(|parts|, i requires 0 <= i < |parts| => EapAttribute(parts[i]))
  }

  lemma FragmentsCons(parts: seq<Octets>)
    requires parts != []
    ensures [EapAttribute(parts[0])] + FragmentAttributes(parts[1..]) == FragmentAttributes(parts)
  {
  }

  lemma FragmentsSnoc(pre: Attributes, parts: seq<Octets>, n: nat)
    requires |parts| == n + 1
    ensures pre + FragmentAttributes(parts)
            == (pre + FragmentAttributes(parts[..n])) + [EapAttribute(parts[n])]
  {
  }

  /** The packer's own split. */
  function Chunks(data: Octets): (parts: seq<Octets>)
    ensures Fits(parts) && (data != [] ==> parts != [])
    decreases |data|
  {
    if data == [] then [] else
      var n := FirstPiece(data);
      [data[..n]] + Chunks(data[n..])
  }

  lemma {:induction false} ChunksArePacked(data: Octets)
    ensures PackFragments(EAP_MESSAGE, data) == PackParts(Chunks(data))
    ensures Flatten(Chunks(data)) == data
    decreases |data|
  {
    if data != [] {
      var n := FirstPiece(data);
      ChunksArePacked(data[n..]);
      assert Chunks(data)[1..] == Chunks(data[n..]);
      assert data[..n] + data[n..] == data;
    }
  }

  /** Every piece but the last has 253 octets, and they follow one another. */
  lemma {:induction false} ChunkAt(data: Octets, i: nat)
    requires 253 * i < |data|
    ensures i < |Chunks(data)|
    ensures Chunks(data)[i] == if 253 * (i + 1) <= |data| then data[253 * i..253 * (i + 1)] else data[253 * i..]
    decreases i
  {
    var n := FirstPiece(data);
    if i > 0 {
      assert n == 253;
      ChunkAt(data[n..], i - 1);
    }
  }

  // ---- extraction of packed octets ------------------------------------------------------------

  /** Extraction of one attribute behind its own header. */
  lemma ExtractHead(typ: Octet, value: Octets, tail: Octets)
    requires Lookup(typ).Some? && IsValidLength(Lookup(typ).value, value)
    requires |value| <= MAX_DATA_LENGTH
    ensures Extract([typ, |value| + HEADER_SIZE] + value + tail)
            == Prepend([Attribute(typ, Lookup(typ).value, value)], Extract(tail))
  {
    var data: Octets := [typ, |value| + HEADER_SIZE] + value + tail;
    var length := |value| + HEADER_SIZE;
    assert Slice(data, length, |data|) == data[length..] == tail;
    assert Slice(data, HEADER_SIZE, length) == data[HEADER_SIZE..length] == value;
  }

  lemma PackHead(a: Attribute)
    requires a.Valid() && !a.IsEap()
    ensures a.Packable()
    ensures a.Pack() == [a.typ, |a.data| + HEADER_SIZE] + a.data && |a.data| <= MAX_DATA_LENGTH
  {
  }

  /** An attribute in front of octets whose extraction is known. */
  lemma ExtractCons(a: Attribute, packed: Octets, tail: Octets, attrs: Attributes, r: Result<Attributes, ParseError>)
    requires a.Valid() && |a.data| <= MAX_DATA_LENGTH && Extract(packed + tail) == Prepend(attrs, r)
    ensures Extract(([a.typ, |a.data| + HEADER_SIZE] + a.data + packed) + tail) == Prepend([a] + attrs, r)
  {
    var head: Octets := [a.typ, |a.data| + HEADER_SIZE] + a.data;
    ExtractHead(a.typ, a.data, packed + tail);
    Assoc(head, packed, tail);
    PrependPrepend([a], attrs, r);
  }

  lemma ExtractPackedCons(a: Attribute, packed: Octets, tail: Octets, attrs: Attributes, r: Result<Attributes, ParseError>)
    requires a.Valid() && !a.IsEap() && a.Packable() && Extract(packed + tail) == Prepend(attrs, r)
    ensures Extract((a.Pack() + packed) + tail) == Prepend([a] + attrs, r)
  {
    PackHead(a);
    ExtractCons(a, packed, tail, attrs, r);
  }

  lemma {:induction false} ExtractPacked(attrs: Attributes, tail: Octets)
    requires AllValid(attrs) && NoEap(attrs) && Packable(attrs)
    ensures Extract(PackList(attrs) + tail) == Prepend(attrs, Extract(tail))
  {
    if attrs == [] {
      Units(tail);
      PrependNothing(Extract(tail));
    } else {
      var (a, rest) := (attrs[0], attrs[1..]);
      ExtractPacked(rest, tail);
      ExtractPackedCons(a, PackList(rest), tail, rest, Extract(tail));
      HeadAndTail(attrs);
      assert PackList(attrs) == a.Pack() + PackList(rest);
    }
  }

  lemma {:induction false} ExtractParts(parts: seq<Octets>, tail: Octets)
    requires Fits(parts)
    ensures Extract(PackParts(parts) + tail) == Prepend(FragmentAttributes(parts), Extract(tail))
  {
    if parts == [] {
      Units(tail);
      PrependNothing(Extract(tail));
    } else {
      ExtractParts(parts[1..], tail);
      ExtractCons(EapAttribute(parts[0]), PackParts(parts[1..]), tail, FragmentAttributes(parts[1..]), Extract(tail));
      FragmentsCons(parts);
    }
  }

  // ---- positions of fragments -----------------------------------------------------------------

  lemma {:induction false} TrackPlain(attrs: Attributes)
    requires NoEap(attrs)
    ensures Track(attrs) == [] && Index(attrs) == |attrs| - 1
  {
    if attrs != [] {
      TrackPlain(attrs[..|attrs| - 1]);
    }
  }

  lemma {:induction false} NonEapPlain(attrs: Attributes)
    requires NoEap(attrs)
    ensures NonEap(attrs) == attrs
  {
    if attrs != [] {
      NonEapPlain(attrs[1..]);
    }
  }

  lemma {:induction false} NonEapFragments(parts: seq<Octets>)
    ensures NonEap(FragmentAttributes(parts)) == []
  {
    if parts != [] {
      NonEapFragments(parts[1..]);
      assert FragmentAttributes(parts)[1..] == FragmentAttributes(parts[1..]);
    }
  }

  lemma {:induction false} NonEapAppend(a: Attributes, b: Attributes)
    ensures NonEap(a + b) == NonEap(a) + NonEap(b)
  {
    if a == [] {
      Units(b);
    } else {
      TailOfAppend(a, b);
      NonEapAppend(a[1..], b);
      Units(NonEap(a[1..]));
      Units(NonEap(a[1..] + b));
      Assoc([a[0]], NonEap(a[1..]), NonEap(b));
    }
  }

  /** Trailing attributes of other types leave the tracked fragments alone. */
  lemma {:induction false} TrackTrailing(attrs: Attributes, post: Attributes)
    requires NoEap(post)
    ensures Track(attrs + post) == Track(attrs)
  {
    if post == [] {
      Units(attrs);
    } else {
      var init := post[..|post| - 1];
      TrackTrailing(attrs, init);
      assert (attrs + post)[..|attrs + post| - 1] == attrs + init;
    }
  }

  function Tagged(parts: seq<Octets>, at: nat): (r: seq<(Attribute, nat)>)
    ensures |r| == |parts|
    ensures forall i :: 0 <= i < |parts| ==> r[i] == (EapAttribute(parts[i]), at)
  {
    seq(|parts|, i requires 0 <= i < |parts| => (EapAttribute(parts[i]), at))
  }

  lemma TaggedSnoc(parts: seq<Octets>, n: nat, at: nat)
    requires |parts| == n + 1
    ensures Tagged(parts, at) == Tagged(parts[..n], at) + [(EapAttribute(parts[n]), at)]
  {
  }

  lemma {:induction false} JoinTagged(parts: seq<Octets>, at: nat)
    ensures JoinData(Tagged(parts, at)) == Flatten(parts)
  {
    if parts != [] {
      JoinTagged(parts[1..], at);
      assert Tagged(parts, at)[1..] == Tagged(parts[1..], at);
    }
  }

  /** A run of fragments is tracked whole, at the position of its first one. */
  lemma {:induction false} TrackRun(pre: Attributes, parts: seq<Octets>)
    requires NoEap(pre)
    ensures Index(pre + FragmentAttributes(parts)) == |pre| - (if parts == [] then 1 else 0)
    ensures Track(pre + FragmentAttributes(parts)) == Tagged(parts, |pre|)
  {
    if parts == [] {
      Units(pre);
      TrackPlain(pre);
    } else {
      var n := |parts| - 1;
      var init, last := pre + FragmentAttributes(parts[..n]), EapAttribute(parts[n]);
      TrackRun(pre, parts[..n]);
      FragmentsSnoc(pre, parts, n);
      TrackSnoc(init, last);
      assert init != [] ==> (init[|init| - 1].IsEap() <==> n > 0);
      TaggedSnoc(parts, n, |pre|);
    }
  }

  // ---- main results ---------------------------------------------------------------------------

  /**
   * However an EAP-Message is split, into one or more consecutive fragments of at most 253 octets
   * each, the parsed list holds it once, whole, between the same neighbours.
   */
  lemma FragmentationIsInvisible(pre: Attributes, parts: seq<Octets>, post: Attributes)
    requires AllValid(pre) && NoEap(pre) && AllValid(post) && NoEap(post)
    requires Packable(pre) && Packable(post)
    requires parts != [] && Fits(parts)
    ensures ParseList(PackList(pre) + PackParts(parts) + PackList(post))
            == Ok(pre + [EapAttribute(Flatten(parts))] + post)
  {
    var frs, data := FragmentAttributes(parts), PackList(post);
    var all := pre + frs + post;
    assert Extract(PackList(pre) + PackParts(parts) + data) == Ok(all) by {
      ExtractPacked(pre, PackParts(parts) + data);
      ExtractParts(parts, data);
      ExtractPacked(post, []);
      assert data + [] == data && post + [] == post;
      PrependPrepend(pre, frs, Ok(post));
      assert PackList(pre) + PackParts(parts) + data == PackList(pre) + (PackParts(parts) + data);
    }
    assert Track(all) == Tagged(parts, |pre|) by {
      TrackRun(pre, parts);
      TrackTrailing(pre + frs, post);
    }
    assert NonEap(all) == pre + post by {
      NonEapAppend(pre + frs, post);
      NonEapAppend(pre, frs);
      NonEapPlain(pre);
      NonEapPlain(post);
      NonEapFragments(parts);
      Units(pre);
    }
    JoinTagged(parts, |pre|);
    assert (pre + post)[..|pre|] == pre && (pre + post)[|pre|..] == post;
  }

  lemma PlainListParses(attrs: Attributes)
    requires AllValid(attrs) && NoEap(attrs) && Packable(attrs)
    ensures ParseList(PackList(attrs)) == Ok(attrs)
  {
    ExtractPacked(attrs, []);
    assert PackList(attrs) + [] == PackList(attrs) && attrs + [] == attrs;
    TrackPlain(attrs);
  }

  lemma SplitAtEap(attrs: Attributes, k: nat)
    requires AllValid(attrs) && AtMostOneEap(attrs) && k < |attrs| && attrs[k].IsEap()
    ensures Packable(attrs) && AllValid(attrs[..k]) && AllValid(attrs[k + 1..])
    ensures NoEap(attrs[..k]) && NoEap(attrs[k + 1..]) && attrs[k] == EapAttribute(attrs[k].data)
    ensures PackList(attrs) == PackList(attrs[..k]) + PackFragments(EAP_MESSAGE, attrs[k].data) + PackList(attrs[k + 1..])
  {
    ValidListIsPackable(attrs);
    ValidIsPackable(attrs[k]);
    PackAround(attrs, k);
  }

  lemma PackThenParse(attrs: Attributes)
    requires AllValid(attrs) && AtMostOneEap(attrs) && NoEmptyEap(attrs)
    ensures Packable(attrs) && ParseList(PackList(attrs)) == Ok(attrs)
  {
    ValidListIsPackable(attrs);
    if k :| 0 <= k < |attrs| && attrs[k].IsEap() {
      var parts := Chunks(attrs[k].data);
      SplitAtEap(attrs, k);
      ChunksArePacked(attrs[k].data);
      FragmentationIsInvisible(attrs[..k], parts, attrs[k + 1..]);
      SplitAround(attrs, k);
    } else {
      PlainListParses(attrs);
    }
  }

  lemma {:induction false} NothingTracked(attrs: Attributes)
    requires Track(attrs) == []
    ensures NoEap(attrs)
  {
    if attrs != [] {
      NothingTracked(attrs[..|attrs| - 1]);
    }
  }

  /** A parsed list never holds two EAP-Messages. */
  lemma ParsedListHasOneEap(data: Octets)
    requires ParseList(data).Ok?
    ensures AtMostOneEap(ParseList(data).value)
  {
    var attrs := Extract(data).value;
    if Track(attrs) == [] {
      NothingTracked(attrs);
    } else {
      assert NoEap(NonEap(attrs));
    }
  }

  /** Parsing undoes packing on exactly the lists with at most one, non-empty EAP-Message. */
  lemma PackThenParseIffOneEap(attrs: Attributes)
    requires AllValid(attrs)
    ensures Packable(attrs)
    ensures ParseList(PackList(attrs)) == Ok(attrs) <==> AtMostOneEap(attrs) && NoEmptyEap(attrs)
  {
    ValidListIsPackable(attrs);
    if AtMostOneEap(attrs) && NoEmptyEap(attrs) {
      PackThenParse(attrs);
    } else if AtMostOneEap(attrs) {
      EmptyEapIsLost(attrs);
    } else if ParseList(PackList(attrs)) == Ok(attrs) {
      ParsedListHasOneEap(PackList(attrs));
    }
  }

  lemma EmptyEapIsLost(attrs: Attributes)
    requires AllValid(attrs) && AtMostOneEap(attrs) && !NoEmptyEap(attrs) && Packable(attrs)
    ensures ParseList(PackList(attrs)) != Ok(attrs)
  {
    var k :| 0 <= k < |attrs| && attrs[k].IsEap() && attrs[k].data == [];
    SplitAtEap(attrs, k);
    var others := attrs[..k] + attrs[k + 1..];
    PackAppend(attrs[..k], attrs[k + 1..]);
    assert PackList(attrs) == PackList(others) by {
      Units(PackList(attrs[..k]));
    }
    PlainListParses(others);
  }
}
