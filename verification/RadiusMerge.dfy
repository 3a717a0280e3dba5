/**
 * Where merging puts the joined EAP-Message for every extracted list, its fragments consecutive or
 * not: each run of fragments after the first pushes it one place further back.
 */
module RadiusMerge {
  import opened Octets
  import opened RadiusAttributes
  import opened RadiusList
  import opened RadiusRoundTrip

  /** How many runs of consecutive fragments a list has. */
  function Runs(attrs: Attributes): nat
  {
    if attrs == [] then 0
    else
      var n := |attrs| - 1;
      Runs(attrs[..n]) + if attrs[n].IsEap() && !(n > 0 && attrs[n - 1].IsEap()) then 1 else 0
  }

  /** The values of all fragments, in order. */
  function EapData(attrs: Attributes): Octets
  {
    if attrs == [] then []
    else
      var n := |attrs| - 1;
      EapData(attrs[..n]) + if attrs[n].IsEap() then attrs[n].data else []
  }

  lemma {:induction false} LastOne(attrs: Attributes)
    requires attrs != []
    ensures var n := |attrs| - 1;
            NonEap(attrs) == NonEap(attrs[..n]) + if attrs[n].IsEap() then [] else [attrs[n]]
  {
    var n := |attrs| - 1;
    SplitAround(attrs, n);
    NonEapAppend(attrs[..n], [attrs[n]]);
    assert attrs[..n] + [attrs[n]] == attrs;
    assert [attrs[n]][1..] == [];
  }

  /** The tracked index counts the other attributes, and each run of fragments once. */
  lemma {:induction false} IndexCounts(attrs: Attributes)
    ensures Index(attrs) == |NonEap(attrs)| + Runs(attrs) - 1
  {
    if attrs != [] {
      IndexCounts(attrs[..|attrs| - 1]);
      LastOne(attrs);
    }
  }

  lemma {:induction false} JoinSnoc(list: seq<(Attribute, nat)>, one: (Attribute, nat))
    ensures JoinData(list + [one]) == JoinData(list) + one.0.data
  {
    if list == [] {
      assert (list + [one])[1..] == [];
      Units(one.0.data);
    } else {
      TailOfAppend(list, [one]);
      JoinSnoc(list[1..], one);
      Assoc(list[0].0.data, JoinData(list[1..]), one.0.data);
    }
  }

  lemma {:induction false} TrackedData(attrs: Attributes)
    ensures JoinData(Track(attrs)) == EapData(attrs)
  {
    if attrs != [] {
      var n := |attrs| - 1;
      TrackedData(attrs[..n]);
      if attrs[n].IsEap() {
        JoinSnoc(Track(attrs[..n]), (attrs[n], Index(attrs)));
      } else {
        Units(Track(attrs[..n]));
        Units(EapData(attrs[..n]));
      }
    }
  }

  ghost predicate IsLastFragment(attrs: Attributes, k: nat)
  {
    k < |attrs| && attrs[k].IsEap() && NoEap(attrs[k + 1..])
  }

  lemma {:induction false} RunsTrailing(attrs: Attributes, post: Attributes)
    requires NoEap(post)
    ensures Runs(attrs + post) == Runs(attrs)
  {
    if post == [] {
      Units(attrs);
    } else {
      var n := |post| - 1;
      RunsTrailing(attrs, post[..n]);
      AppendSnoc(attrs, post);
      Snoc(attrs + post[..n], post[n]);
    }
  }

  /** The last tracked fragment is the last one of the list, with the index it was given. */
  lemma {:induction false} LastTracked(attrs: Attributes, k: nat)
    requires IsLastFragment(attrs, k)
    ensures Track(attrs) != []
    ensures Track(attrs)[|Track(attrs)| - 1].1 == |NonEap(attrs[..k])| + Runs(attrs) - 1
  {
    var (upTo, post) := (attrs[..k + 1], attrs[k + 1..]);
    SplitAround(attrs, k);
    TrackTrailing(upTo, post);
    RunsTrailing(upTo, post);
    IndexCounts(upTo);
    LastOne(upTo);
    assert upTo[..k] == attrs[..k];
    Units(NonEap(attrs[..k]));
  }

  lemma {:induction false} OthersAround(attrs: Attributes, k: nat)
    requires IsLastFragment(attrs, k)
    ensures NonEap(attrs) == NonEap(attrs[..k]) + attrs[k + 1..]
  {
    SplitAround(attrs, k);
    NonEapAppend(attrs[..k + 1], attrs[k + 1..]);
    NonEapPlain(attrs[k + 1..]);
    LastOne(attrs[..k + 1]);
    assert attrs[..k + 1][..k] == attrs[..k];
    Units(NonEap(attrs[..k]));
  }

  lemma {:induction false} HasRun(attrs: Attributes, k: nat)
    requires k < |attrs| && attrs[k].IsEap()
    ensures Runs(attrs) >= 1
  {
    var n := |attrs| - 1;
    if k < n {
      HasRun(attrs[..n], k);
    } else if n > 0 && attrs[n - 1].IsEap() {
      HasRun(attrs[..n], n - 1);
    }
  }

  lemma MergeInserts(attrs: Attributes, list: seq<(Attribute, nat)>, others: Attributes, at: nat, data: Octets)
    requires list != [] && list[|list| - 1].1 == at && NonEap(attrs) == others && JoinData(list) == data
    ensures Merge(attrs, list) == Insert(others, at, EapAttribute(data))
  {
  }

  /**
   * The joined attribute lands behind the other attributes in front of its last fragment, and behind
   * one more for every further run of fragments, as far as there are any.
   */
  lemma {:induction false} MergedLandsAt(attrs: Attributes, k: nat)
    requires IsLastFragment(attrs, k)
    ensures Runs(attrs) >= 1
    ensures Merge(attrs, Track(attrs))
            == Insert(NonEap(attrs[..k]) + attrs[k + 1..], |NonEap(attrs[..k])| + (Runs(attrs) - 1), EapAttribute(EapData(attrs)))
  {
    HasRun(attrs, k);
    LastTracked(attrs, k);
    OthersAround(attrs, k);
    TrackedData(attrs);
    MergeInserts(attrs, Track(attrs), NonEap(attrs[..k]) + attrs[k + 1..], |NonEap(attrs[..k])| + (Runs(attrs) - 1), EapData(attrs));
  }

  /** The list is an attribute between its neighbours on either side. */
  predicate Between(list: Attributes, a: Attributes, x: Attribute, b: Attributes)
  {
    list == a + [x] + b
  }

  lemma InsertAtIff(a: Attributes, b: Attributes, d: nat, x: Attribute)
    requires NoEap(b) && x.IsEap()
    ensures Between(Insert(a + b, |a| + d, x), a, x, b) <==> d == 0 || b == []
  {
    if d == 0 || b == [] {
      assert (a + b)[..|a|] == a && (a + b)[|a|..] == b;
    } else {
      assert Insert(a + b, |a| + d, x)[|a|] == b[0];
      assert (a + [x] + b)[|a|] == x;
    }
  }

  /**
   * That is the place of its last fragment, between the same neighbours, if and only if the
   * fragments are consecutive or nothing follows them.
   */
  lemma {:induction false} MergedInPlaceIff(attrs: Attributes, k: nat)
    requires IsLastFragment(attrs, k)
    ensures Between(Merge(attrs, Track(attrs)), NonEap(attrs[..k]), EapAttribute(EapData(attrs)), attrs[k + 1..])
            <==> Runs(attrs) == 1 || k == |attrs| - 1
  {
    MergedLandsAt(attrs, k);
    PlaceIff(Merge(attrs, Track(attrs)), NonEap(attrs[..k]), attrs, k, Runs(attrs), EapAttribute(EapData(attrs)));
  }

  lemma PlaceIff(merged: Attributes, before: Attributes, attrs: Attributes, k: nat, runs: nat, x: Attribute)
    requires IsLastFragment(attrs, k) && runs >= 1 && x.IsEap()
    requires merged == Insert(before + attrs[k + 1..], |before| + (runs - 1), x)
    ensures Between(merged, before, x, attrs[k + 1..]) <==> runs == 1 || k == |attrs| - 1
  {
    InsertAtIff(before, attrs[k + 1..], runs - 1, x);
  }

  // ---- octets that show it --------------------------------------------------------------------------

  /** One attribute in front of octets that extract to a list. */
  lemma {:induction false} ExtractBefore(a: Attribute, tail: Octets, rest: Attributes)
    requires a.Valid() && |a.data| <= MAX_DATA_LENGTH && Extract(tail) == Ok(rest)
    ensures Extract(PackFragment(a.typ, a.data) + tail) == Ok([a] + rest)
  {
    ExtractHead(a.typ, a.data, tail);
  }

  lemma {:induction false} ExtractFour(a: Octets, x: Attribute, b: Octets, y: Attribute)
    requires |a| <= MAX_DATA_LENGTH && |b| <= MAX_DATA_LENGTH
    requires x.Valid() && |x.data| <= MAX_DATA_LENGTH && y.Valid() && |y.data| <= MAX_DATA_LENGTH
    ensures var last := PackFragment(y.typ, y.data) + [];
            Extract(PackFragment(EAP_MESSAGE, a) + (PackFragment(x.typ, x.data) + (PackFragment(EAP_MESSAGE, b) + last)))
            == Ok([EapAttribute(a)] + ([x] + ([EapAttribute(b)] + ([y] + []))))
  {
    var last := PackFragment(y.typ, y.data) + [];
    ExtractBefore(y, [], []);
    ExtractBefore(EapAttribute(b), last, [y] + []);
    ExtractBefore(x, PackFragment(EAP_MESSAGE, b) + last, [EapAttribute(b)] + ([y] + []));
    ExtractBefore(EapAttribute(a), PackFragment(x.typ, x.data) + (PackFragment(EAP_MESSAGE, b) + last),
                  [x] + ([EapAttribute(b)] + ([y] + [])));
  }

  lemma {:induction false} SnocFacts(attrs: Attributes, a: Attribute)
    ensures Runs(attrs + [a])
            == Runs(attrs) + if a.IsEap() && !(attrs != [] && attrs[|attrs| - 1].IsEap()) then 1 else 0
    ensures EapData(attrs + [a]) == EapData(attrs) + if a.IsEap() then a.data else []
  {
    Snoc(attrs, a);
  }

  lemma {:induction false} FourFacts(e: Attribute, x: Attribute, f: Attribute, y: Attribute)
    requires e.IsEap() && !x.IsEap() && f.IsEap() && !y.IsEap()
    ensures Runs([e, x, f, y]) == 2 && EapData([e, x, f, y]) == e.data + f.data
  {
    SnocFacts([], e);
    SnocFacts([e], x);
    SnocFacts([e, x], f);
    SnocFacts([e, x, f], y);
    assert [] + [e] == [e] && [e] + [x] == [e, x] && [e, x] + [f] == [e, x, f] && [e, x, f] + [y] == [e, x, f, y];
    Units(e.data);
    Units(e.data + f.data);
  }

  lemma {:induction false} MergeFour(a: Octets, x: Attribute, b: Octets, y: Attribute)
    requires !x.IsEap() && !y.IsEap()
    ensures var attrs := [EapAttribute(a), x, EapAttribute(b), y];
            Merge(attrs, Track(attrs)) == [x, y, EapAttribute(a + b)]
  {
    var (e, f) := (EapAttribute(a), EapAttribute(b));
    var attrs := [e, x, f, y];
    FourFacts(e, x, f, y);
    assert attrs[..2] == [e, x] && attrs[3..] == [y];
    LastOne([e, x]);
    assert [e, x][..1] == [e] && [e][1..] == [];
    MergedLandsAt(attrs, 2);
    assert Insert([x] + [y], 2, EapAttribute(a + b)) == [x, y, EapAttribute(a + b)];
  }

  /** A fragment, an attribute, another fragment and another attribute: the joined one comes out last. */
  lemma {:induction false} ScatteredFragmentsMove(a: Octets, x: Attribute, b: Octets, y: Attribute)
    requires |a| <= MAX_DATA_LENGTH && |b| <= MAX_DATA_LENGTH
    requires x.Valid() && !x.IsEap() && x.Packable() && y.Valid() && !y.IsEap() && y.Packable()
    ensures ParseList(PackFragment(EAP_MESSAGE, a) + (x.Pack() + (PackFragment(EAP_MESSAGE, b) + y.Pack())))
            == Ok([x, y, EapAttribute(a + b)])
  {
    ExtractFour(a, x, b, y);
    PackHead(x);
    PackHead(y);
    Units(y.Pack());
    assert [EapAttribute(a)] + ([x] + ([EapAttribute(b)] + ([y] + []))) == [EapAttribute(a), x, EapAttribute(b), y];
    MergeFour(a, x, b, y);
  }
}
