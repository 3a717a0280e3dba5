/** The whole access lists of the primary switch, and what their first matching rule means. */
module MirrorMeaning {
  import opened Octets
  import opened GatewayPorts
  import opened MirrorAcl

  ghost predicate DistinctMacs(targets: seq<Target>)
  {
    forall i, j :: 0 <= i < j < |targets| ==> targets[i].mac != targets[j].mac
  }

  // ---- the lists ------------------------------------------------------------------------------

  /** 802.1X reflection: the frames of one VLAN tag go to the given ports. */
  function Dot1xRules(dot1x: seq<(nat, seq<nat>)>): (r: seq<Rule>)
    ensures |r| == |dot1x|
  {
    seq(|dot1x|, i requires 0 <= i < |dot1x| =>
      ANY.(ethType := Some(DOT1X), vlan := Vid(dot1x[i].0), ports := dot1x[i].1))
  }

  const ALLOW := ANY.(allow := true)

  function IncomingAcl(dot1x: seq<(nat, seq<nat>)>, targets: seq<Target>, reflectors: seq<Rule>): seq<Rule>
  {
    Dot1xRules(dot1x) + SetsRules(targets, Sets(targets)) + (reflectors + [ALLOW])
  }

  function LocalRules(extOfIp: Option<string>): seq<Rule>
  {
    if extOfIp.None? then []
    else [ANY.(ports := [SWITCH_LOCAL_PORT], ipv4Dst := extOfIp, ethType := Some(IPV4))]
  }

  const DOT1X_TO_TRUNK := ANY.(ethType := Some(DOT1X), ports := [PRI_TRUNK_PORT])

  function PortsetAcl(targets: seq<Target>, extOfIp: Option<string>, portSet: nat): seq<Rule>
  {
    LocalRules(extOfIp) + TargetRules(targets, portSet)
    + (if portSet in Sets(targets) then [BroadcastRule(Tuples(targets, portSet))] else [])
    + [DOT1X_TO_TRUNK, ALLOW]
  }

  lemma {:induction false} SetsAreDistinct(targets: seq<Target>)
    ensures forall i, j :: 0 <= i < j < |Sets(targets)| ==> Sets(targets)[i] != Sets(targets)[j]
    ensures forall s :: s in Sets(targets) <==> exists k :: 0 <= k < |targets| && targets[k].portSet == s
  {
    if targets != [] {
      var n := |targets| - 1;
      SetsAreDistinct(targets[..n]);
      forall s | s in Sets(targets) ensures exists k :: 0 <= k < |targets| && targets[k].portSet == s {
        if s in Sets(targets[..n]) {
          var k :| 0 <= k < n && targets[..n][k].portSet == s;
          assert targets[k].portSet == s;
        } else {
          assert targets[n].portSet == s;
        }
      }
      forall k | 0 <= k < |targets| ensures targets[k].portSet in Sets(targets) {
        assert k < n ==> targets[..n][k].portSet == targets[k].portSet;
      }
    }
  }

  /** Empty lists for the numbered port sets, then the rule towards the switch's own address. */
  method StartPortsets(secPort: nat, extOfIp: Option<string>) returns (acls: map<nat, seq<Rule>>)
    ensures forall s :: s in acls <==> 1 <= s < secPort
    ensures forall s :: s in acls ==> acls[s] == LocalRules(extOfIp)
  {
    acls := map[];
    var portSet := 1;
    while portSet < secPort
      invariant portSet >= 1 && (portSet <= secPort || portSet == 1)
      invariant forall s :: s in acls <==> 1 <= s < portSet
      invariant forall s :: s in acls ==> acls[s] == LocalRules(extOfIp)
    {
      acls := acls[portSet := LocalRules(extOfIp)];
      portSet := portSet + 1;
    }
  }

  method FinishPortsets(secPort: nat, acls: map<nat, seq<Rule>>) returns (done: map<nat, seq<Rule>>)
    requires forall s :: s in acls <==> 1 <= s < secPort
    ensures done.Keys == acls.Keys && forall s :: s in acls ==> done[s] == acls[s] + [DOT1X_TO_TRUNK, ALLOW]
  {
    done := acls;
    var portSet := 1;
    while portSet < secPort
      invariant portSet >= 1 && (portSet <= secPort || portSet == 1) && done.Keys == acls.Keys
      invariant forall s :: s in acls ==> done[s] == acls[s] + if s < portSet then [DOT1X_TO_TRUNK, ALLOW] else []
    {
      done := done[portSet := done[portSet] + [DOT1X_TO_TRUNK, ALLOW]];
      portSet := portSet + 1;
    }
  }

  method AddDot1xRules(dot1x: seq<(nat, seq<nat>)>) returns (acl: seq<Rule>)
    ensures acl == Dot1xRules(dot1x)
  {
    acl := [];
    for i := 0 to |dot1x|
      invariant acl == Dot1xRules(dot1x)[..i]
    {
      acl := acl + [ANY.(ethType := Some(DOT1X), vlan := Vid(dot1x[i].0), ports := dot1x[i].1)];
    }
  }

  method GenerateMainAcls(secPort: nat, dot1x: seq<(nat, seq<nat>)>, targets: seq<Target>,
                          extOfIp: Option<string>, reflectors: seq<Rule>)
    returns (incoming: seq<Rule>, portsets: map<nat, seq<Rule>>)
    requires forall i :: 0 <= i < |targets| ==> 1 <= targets[i].portSet < secPort
    ensures incoming == IncomingAcl(dot1x, targets, reflectors)
    ensures forall s :: s in portsets <==> 1 <= s < secPort
    ensures forall s :: s in portsets ==> portsets[s] == PortsetAcl(targets, extOfIp, s)
  {
    var dot1xRules := AddDot1xRules(dot1x);
    var empty := StartPortsets(secPort, extOfIp);
    var order, mirrors, directed := GeneratePortTargetAcls(targets, empty);
    SetsInRange(targets, secPort);
    SetsAreDistinct(targets);
    var acls;
    incoming, acls := GenerateMirrorAcls(targets, order, mirrors, dot1xRules, directed);
    Assoc(incoming, reflectors, [ALLOW]);
    incoming := incoming + reflectors + [ALLOW];
    portsets := FinishPortsets(secPort, acls);
    forall s | s in portsets ensures portsets[s] == PortsetAcl(targets, extOfIp, s) {
      assert acls[s] == directed[s] + if s in order then [BroadcastRule(mirrors[s])] else [];
      assert directed[s] == LocalRules(extOfIp) + TargetRules(targets, s);
    }
  }

  lemma SetsInRange(targets: seq<Target>, secPort: nat)
    requires forall i :: 0 <= i < |targets| ==> 1 <= targets[i].portSet < secPort
    ensures forall i :: 0 <= i < |Sets(targets)| ==> 1 <= Sets(targets)[i] < secPort
  {
    SetsAreDistinct(targets);
    assert forall i :: 0 <= i < |Sets(targets)| ==> Sets(targets)[i] in Sets(targets);
  }

  // ---- tuples ---------------------------------------------------------------------------------

  lemma {:induction false} TupleFrom(targets: seq<Target>, portSet: nat, j: nat) returns (k: nat)
    requires j < |Tuples(targets, portSet)|
    ensures k < |targets| && targets[k].portSet == portSet
    ensures Tuples(targets, portSet)[j] == (targets[k].mac, MirrorPort(targets[k].port))
  {
    var n := |targets| - 1;
    if j < |Tuples(targets[..n], portSet)| {
      k := TupleFrom(targets[..n], portSet, j);
    } else {
      k := n;
    }
  }

  lemma {:induction false} TupleFor(targets: seq<Target>, k: nat) returns (j: nat)
    requires k < |targets|
    ensures j < |Tuples(targets, targets[k].portSet)|
    ensures Tuples(targets, targets[k].portSet)[j] == (targets[k].mac, MirrorPort(targets[k].port))
  {
    var n := |targets| - 1;
    if k < n {
      j := TupleFor(targets[..n], k);
    } else {
      j := |Tuples(targets, targets[k].portSet)| - 1;
    }
  }

  ghost predicate DistinctTuples(tuples: seq<Tuple>)
  {
    forall i, j :: 0 <= i < j < |tuples| ==> tuples[i].0 != tuples[j].0
  }

  lemma {:induction false} TuplesAreDistinct(targets: seq<Target>, portSet: nat)
    requires DistinctMacs(targets)
    ensures DistinctTuples(Tuples(targets, portSet))
  {
    if targets != [] {
      var n := |targets| - 1;
      var rest := Tuples(targets[..n], portSet);
      TuplesAreDistinct(targets[..n], portSet);
      forall j | 0 <= j < |rest| ensures rest[j].0 != targets[n].mac {
        var k := TupleFrom(targets[..n], portSet, j);
      }
    }
  }

  // ---- rules of one source --------------------------------------------------------------------

  ghost predicate FromUntagged(f: Frame, src: Tuple)
  {
    f.src == src.0 && f.vlan.None?
  }

  lemma {:induction false} PairMeaning(src: Tuple, tuples: seq<Tuple>, f: Frame)
    requires FromUntagged(f, src) && DistinctTuples(tuples)
    ensures forall j :: 0 <= j < |tuples| && tuples[j].0 == f.dst && f.dst != src.0 ==>
              FirstMatch(PairRules(src, tuples), f) == Some(FromRule(src.0, Some(f.dst), [src.1, tuples[j].1]))
    ensures (forall j :: 0 <= j < |tuples| ==> tuples[j].0 != f.dst || f.dst == src.0) ==>
              FirstMatch(PairRules(src, tuples), f).None?
  {
    if tuples != [] {
      var n := |tuples| - 1;
      var (init, dst) := (tuples[..n], tuples[n]);
      PairMeaning(src, init, f);
      assert forall j :: 0 <= j < n ==> init[j] == tuples[j];
      var rule := FromRule(src.0, Some(dst.0), [src.1, dst.1]);
      FirstMatchAppend(PairRules(src, init), [rule], f);
      assert FirstMatch([rule], f) == if Matches(rule, f) then Some(rule) else None;
    }
  }

  /** The ports a frame of a source goes to, in terms of its set's mirror tuples. */
  ghost predicate MirroredTo(src: Tuple, tuples: seq<Tuple>, dst: Mac, ports: seq<nat>)
  {
    && (dst == BROADCAST ==> ports == MirrorPorts(tuples))
    && (forall j :: 0 <= j < |tuples| && tuples[j].0 == dst && dst != BROADCAST && dst != src.0 ==> ports == [src.1, tuples[j].1])
    && ((forall j :: 0 <= j < |tuples| ==> tuples[j].0 != dst || dst == src.0) && dst != BROADCAST ==> ports == [src.1])
  }

  lemma SourceMeaning(src: Tuple, tuples: seq<Tuple>, f: Frame)
    requires FromUntagged(f, src) && DistinctTuples(tuples)
    ensures var r := FirstMatch(SourceRules(src, tuples), f);
            r.Some? && !r.value.allow && MirroredTo(src, tuples, f.dst, r.value.ports)
  {
    var (first, last) := (FromRule(src.0, Some(BROADCAST), MirrorPorts(tuples)), FromRule(src.0, None, [src.1]));
    PairMeaning(src, tuples, f);
    FirstMatchAppend([first] + PairRules(src, tuples), [last], f);
    FirstMatchAppend([first], PairRules(src, tuples), f);
    assert FirstMatch([first], f) == if f.dst == BROADCAST then Some(first) else None;
    assert FirstMatch([last], f) == Some(last);
  }

  // ---- rules of a set, and of all sets ---------------------------------------------------------

  lemma {:induction false} PairSources(src: Tuple, tuples: seq<Tuple>)
    ensures forall i :: 0 <= i < |PairRules(src, tuples)| ==> PairRules(src, tuples)[i].dlSrc == Some(src.0)
  {
    if tuples != [] {
      PairSources(src, tuples[..|tuples| - 1]);
    }
  }

  lemma OtherSource(src: Tuple, tuples: seq<Tuple>, f: Frame)
    requires f.src != src.0
    ensures FirstMatch(SourceRules(src, tuples), f).None?
  {
    PairSources(src, tuples);
    var rules := SourceRules(src, tuples);
    assert forall i :: 0 <= i < |rules| ==> rules[i].dlSrc == Some(src.0);
    NoMatch(rules, f);
  }

  lemma {:induction false} SourcesMeaning(sources: seq<Tuple>, tuples: seq<Tuple>, f: Frame)
    requires DistinctTuples(tuples) && f.vlan.None? && DistinctTuples(sources)
    ensures forall j :: 0 <= j < |sources| && sources[j].0 == f.src ==>
              FirstMatch(SourcesRules(sources, tuples), f) == FirstMatch(SourceRules(sources[j], tuples), f)
    ensures (forall j :: 0 <= j < |sources| ==> sources[j].0 != f.src) ==>
              FirstMatch(SourcesRules(sources, tuples), f).None?
  {
    if sources != [] {
      var n := |sources| - 1;
      var (init, src) := (sources[..n], sources[n]);
      SourcesMeaning(init, tuples, f);
      assert forall j :: 0 <= j < n ==> init[j] == sources[j];
      FirstMatchAppend(SourcesRules(init, tuples), SourceRules(src, tuples), f);
      forall j | 0 <= j < |sources| && sources[j].0 == f.src
        ensures FirstMatch(SourcesRules(sources, tuples), f) == FirstMatch(SourceRules(sources[j], tuples), f)
      {
        SourceMeaning(sources[j], tuples, f);
      }
      if src.0 != f.src {
        OtherSource(src, tuples, f);
      }
    }
  }

  lemma OtherSet(targets: seq<Target>, portSet: nat, f: Frame)
    requires DistinctMacs(targets) && f.vlan.None?
    requires forall k :: 0 <= k < |targets| && targets[k].mac == f.src ==> targets[k].portSet != portSet
    ensures var tuples := Tuples(targets, portSet); FirstMatch(SourcesRules(tuples, tuples), f).None?
  {
    var tuples := Tuples(targets, portSet);
    TuplesAreDistinct(targets, portSet);
    forall j | 0 <= j < |tuples| ensures tuples[j].0 != f.src {
      var k := TupleFrom(targets, portSet, j);
    }
    SourcesMeaning(tuples, tuples, f);
  }

  function SetRules(targets: seq<Target>, portSet: nat): seq<Rule>
  {
    SourcesRules(Tuples(targets, portSet), Tuples(targets, portSet))
  }

  lemma LastSet(targets: seq<Target>, sets: seq<nat>, f: Frame)
    requires sets != []
    ensures var n := |sets| - 1;
            var before := FirstMatch(SetsRules(targets, sets[..n]), f);
            FirstMatch(SetsRules(targets, sets), f)
            == if before.Some? then before else FirstMatch(SetRules(targets, sets[n]), f)
  {
    var n := |sets| - 1;
    FirstMatchAppend(SetsRules(targets, sets[..n]), SetRules(targets, sets[n]), f);
  }

  lemma {:induction false} SetsMeaning(targets: seq<Target>, sets: seq<nat>, k: nat, f: Frame)
    requires DistinctMacs(targets) && f.vlan.None? && k < |targets| && targets[k].mac == f.src
    ensures FirstMatch(SetsRules(targets, sets), f)
            == if targets[k].portSet in sets then FirstMatch(SetRules(targets, targets[k].portSet), f) else None
  {
    if sets != [] {
      var (n, mine) := (|sets| - 1, targets[k].portSet);
      SetsMeaning(targets, sets[..n], k, f);
      LastSet(targets, sets, f);
      MemberSnoc(sets, mine);
      if sets[n] != mine {
        NotMySet(targets, k, sets[n], f);
      }
    }
  }

  lemma MemberSnoc(s: seq<nat>, x: nat)
    requires s != []
    ensures x in s <==> x in s[..|s| - 1] || x == s[|s| - 1]
  {
  }

  lemma NotMySet(targets: seq<Target>, k: nat, portSet: nat, f: Frame)
    requires DistinctMacs(targets) && f.vlan.None? && k < |targets| && targets[k].mac == f.src
    requires portSet != targets[k].portSet
    ensures FirstMatch(SetRules(targets, portSet), f).None?
  {
    OtherSet(targets, portSet, f);
  }

  lemma Dot1xSkipped(dot1x: seq<(nat, seq<nat>)>, f: Frame)
    requires f.vlan.None?
    ensures FirstMatch(Dot1xRules(dot1x), f).None?
  {
    NoMatch(Dot1xRules(dot1x), f);
  }

  // ---- main results ---------------------------------------------------------------------------

  /** Target `j` is another target of the same port set as `k`, and has this MAC. */
  ghost predicate Addressed(targets: seq<Target>, k: nat, j: nat, mac: Mac)
    requires k < |targets|
  {
    j < |targets| && j != k && targets[j].portSet == targets[k].portSet && targets[j].mac == mac
  }

  /**
   * An untagged frame of a target is copied, for a broadcast, to all mirrors of its port set; to
   * another target of the set, to the two mirrors of sender and receiver; otherwise to the sender's
   * own mirror only. For any targets with distinct MACs, in any number of sets, whatever 802.1X
   * and DHCP rules surround the mirror rules.
   */
  lemma TargetFramesAreMirrored(dot1x: seq<(nat, seq<nat>)>, targets: seq<Target>, reflectors: seq<Rule>, k: nat, f: Frame)
    requires DistinctMacs(targets) && k < |targets| && f.src == targets[k].mac && f.vlan.None?
    ensures var (r, own) := (FirstMatch(IncomingAcl(dot1x, targets, reflectors), f), MirrorPort(targets[k].port));
            && r.Some? && !r.value.allow
            && (f.dst == BROADCAST ==> r.value.ports == MirrorPorts(Tuples(targets, targets[k].portSet)))
            && (forall j: nat :: Addressed(targets, k, j, f.dst) && f.dst != BROADCAST ==>
                  r.value.ports == [own, MirrorPort(targets[j].port)])
            && (f.dst != BROADCAST && (forall j: nat :: !Addressed(targets, k, j, f.dst)) ==> r.value.ports == [own])
  {
    var (sets, tuples) := (Sets(targets), Tuples(targets, targets[k].portSet));
    var src := TupleFor(targets, k);
    SetsAreDistinct(targets);
    TuplesAreDistinct(targets, targets[k].portSet);
    SetsMeaning(targets, sets, k, f);
    SourcesMeaning(tuples, tuples, f);
    SourceMeaning(tuples[src], tuples, f);
    Dot1xSkipped(dot1x, f);
    FirstMatchAppend(Dot1xRules(dot1x), SetsRules(targets, sets), f);
    FirstMatchAppend(Dot1xRules(dot1x) + SetsRules(targets, sets), reflectors + [ALLOW], f);
    forall j: nat | Addressed(targets, k, j, f.dst)
      ensures exists i :: 0 <= i < |tuples| && tuples[i] == (f.dst, MirrorPort(targets[j].port))
    {
      var i := TupleFor(targets, j);
    }
    forall i | 0 <= i < |tuples| && tuples[i].0 == f.dst && f.dst != f.src
      ensures exists j: nat :: Addressed(targets, k, j, f.dst)
    {
      var j := TupleFrom(targets, targets[k].portSet, i);
      assert Addressed(targets, k, j, f.dst);
    }
  }

  /** The mirrors a broadcast goes to are those of the set's targets, all of them and no others. */
  lemma BroadcastPortsAreTheSetsMirrors(targets: seq<Target>, portSet: nat, port: nat)
    ensures port in MirrorPorts(Tuples(targets, portSet))
            <==> exists k :: 0 <= k < |targets| && targets[k].portSet == portSet && MirrorPort(targets[k].port) == port
  {
    var tuples := Tuples(targets, portSet);
    if port in MirrorPorts(tuples) {
      var j :| 0 <= j < |tuples| && MirrorPorts(tuples)[j] == port;
      var k := TupleFrom(targets, portSet, j);
    }
    forall k | 0 <= k < |targets| && targets[k].portSet == portSet && MirrorPort(targets[k].port) == port
      ensures port in MirrorPorts(tuples)
    {
      var j := TupleFor(targets, k);
      assert MirrorPorts(tuples)[j] == port;
    }
  }

  /** An untagged frame from elsewhere meets none of the mirror rules. */
  lemma OtherFramesPassThrough(dot1x: seq<(nat, seq<nat>)>, targets: seq<Target>, reflectors: seq<Rule>, f: Frame)
    requires DistinctMacs(targets) && f.vlan.None? && forall k :: 0 <= k < |targets| ==> targets[k].mac != f.src
    ensures FirstMatch(IncomingAcl(dot1x, targets, reflectors), f) == FirstMatch(reflectors + [ALLOW], f)
  {
    SetsSkipped(targets, Sets(targets), f);
    Dot1xSkipped(dot1x, f);
    FirstMatchAppend(Dot1xRules(dot1x), SetsRules(targets, Sets(targets)), f);
    FirstMatchAppend(Dot1xRules(dot1x) + SetsRules(targets, Sets(targets)), reflectors + [ALLOW], f);
  }

  lemma {:induction false} SetsSkipped(targets: seq<Target>, sets: seq<nat>, f: Frame)
    requires DistinctMacs(targets) && f.vlan.None? && forall k :: 0 <= k < |targets| ==> targets[k].mac != f.src
    ensures FirstMatch(SetsRules(targets, sets), f).None?
  {
    if sets != [] {
      var n := |sets| - 1;
      SetsSkipped(targets, sets[..n], f);
      OtherSet(targets, sets[n], f);
      LastSet(targets, sets, f);
    }
  }

  // ---- tagged frames ----------------------------------------------------------------------------

  ghost predicate OnlyUntagged(acl: seq<Rule>)
  {
    forall i :: 0 <= i < |acl| ==> acl[i].vlan == Untagged
  }

  lemma {:induction false} PairsAreUntagged(src: Tuple, tuples: seq<Tuple>)
    ensures OnlyUntagged(PairRules(src, tuples))
  {
    if tuples != [] {
      PairsAreUntagged(src, tuples[..|tuples| - 1]);
    }
  }

  lemma {:induction false} SourcesAreUntagged(sources: seq<Tuple>, tuples: seq<Tuple>)
    ensures OnlyUntagged(SourcesRules(sources, tuples))
  {
    if sources != [] {
      var n := |sources| - 1;
      SourcesAreUntagged(sources[..n], tuples);
      PairsAreUntagged(sources[n], tuples);
      assert OnlyUntagged(SourceRules(sources[n], tuples));
    }
  }

  lemma {:induction false} SetsAreUntagged(targets: seq<Target>, sets: seq<nat>)
    ensures OnlyUntagged(SetsRules(targets, sets))
  {
    if sets != [] {
      var n := |sets| - 1;
      SetsAreUntagged(targets, sets[..n]);
      SourcesAreUntagged(Tuples(targets, sets[n]), Tuples(targets, sets[n]));
    }
  }

  /** The first reflection of a VLAN tag. */
  function FirstTag(dot1x: seq<(nat, seq<nat>)>, vid: nat): Option<seq<nat>>
  {
    if dot1x == [] then None else if dot1x[0].0 == vid then Some(dot1x[0].1) else FirstTag(dot1x[1..], vid)
  }

  lemma {:induction false} Dot1xMeaning(dot1x: seq<(nat, seq<nat>)>, f: Frame)
    requires f.vlan.Some?
    ensures var (r, ports) := (FirstMatch(Dot1xRules(dot1x), f), FirstTag(dot1x, f.vlan.value));
            if f.ethType == 0x888e && ports.Some? then r.Some? && !r.value.allow && r.value.ports == ports.value else r.None?
  {
    if dot1x != [] {
      Dot1xMeaning(dot1x[1..], f);
      assert Dot1xRules(dot1x)[1..] == Dot1xRules(dot1x[1..]);
    }
  }

  /** A tagged frame meets no mirror rule: 802.1X goes to the ports of its tag, anything else passes them by. */
  lemma TaggedFramesAreReflected(dot1x: seq<(nat, seq<nat>)>, targets: seq<Target>, reflectors: seq<Rule>, f: Frame)
    requires f.vlan.Some?
    ensures var (r, ports) := (FirstMatch(IncomingAcl(dot1x, targets, reflectors), f), FirstTag(dot1x, f.vlan.value));
            if f.ethType == 0x888e && ports.Some? then r.Some? && !r.value.allow && r.value.ports == ports.value
            else r == FirstMatch(reflectors + [ALLOW], f)
  {
    Dot1xMeaning(dot1x, f);
    SetsAreUntagged(targets, Sets(targets));
    NoMatch(SetsRules(targets, Sets(targets)), f);
    FirstMatchAppend(Dot1xRules(dot1x), SetsRules(targets, Sets(targets)), f);
    FirstMatchAppend(Dot1xRules(dot1x) + SetsRules(targets, Sets(targets)), reflectors + [ALLOW], f);
  }

  /** The rule at the end of every list lets any frame pass and copies it nowhere. */
  lemma LastRuleAllows(f: Frame)
    ensures Matches(ALLOW, f) && ALLOW.allow && ALLOW.ports == []
    ensures BROADCAST == "ff:ff:ff:ff:ff:ff" && DOT1X == 0x888e && IPV4 == 0x800 && SWITCH_LOCAL_PORT == 1000 && PRI_TRUNK_PORT == 1
  {
  }

  lemma {:induction false} TargetRulesMeaning(targets: seq<Target>, portSet: nat, f: Frame)
    requires DistinctMacs(targets)
    ensures forall k :: 0 <= k < |targets| && targets[k].mac == f.dst && targets[k].portSet == portSet ==>
              FirstMatch(TargetRules(targets, portSet), f) == Some(TargetRule(targets[k]))
    ensures (forall k :: 0 <= k < |targets| && targets[k].portSet == portSet ==> targets[k].mac != f.dst) ==>
              FirstMatch(TargetRules(targets, portSet), f).None?
  {
    if targets != [] {
      var n := |targets| - 1;
      var init := targets[..n];
      TargetRulesMeaning(init, portSet, f);
      assert forall k :: 0 <= k < n ==> init[k] == targets[k];
      var rule := TargetRule(targets[n]);
      FirstMatchAppend(TargetRules(init, portSet), [rule], f);
      assert FirstMatch([rule], f) == if Matches(rule, f) then Some(rule) else None;
    }
  }

  /** An IPv4 frame for the switch's own address. */
  predicate ForSwitch(f: Frame, extOfIp: Option<string>)
  {
    extOfIp.Some? && f.ipv4Dst == extOfIp && f.ethType == IPV4
  }

  ghost predicate IsTarget(targets: seq<Target>, portSet: nat, k: nat, mac: Mac)
  {
    k < |targets| && targets[k].portSet == portSet && targets[k].mac == mac
  }

  lemma LocalMeaning(extOfIp: Option<string>, f: Frame)
    ensures FirstMatch(LocalRules(extOfIp), f)
            == if ForSwitch(f, extOfIp) then Some(LocalRules(extOfIp)[0]) else None
  {
    if extOfIp.Some? {
      assert LocalRules(extOfIp)[1..] == [];
    }
  }

  lemma TailMeaning(f: Frame)
    ensures FirstMatch([DOT1X_TO_TRUNK, ALLOW], f) == Some(if f.ethType == DOT1X then DOT1X_TO_TRUNK else ALLOW)
  {
    assert [DOT1X_TO_TRUNK, ALLOW][1..] == [ALLOW];
  }

  lemma BroadcastMeaning(targets: seq<Target>, portSet: nat, f: Frame)
    ensures var rule := BroadcastRule(Tuples(targets, portSet));
            FirstMatch(if portSet in Sets(targets) then [rule] else [], f)
            == if portSet in Sets(targets) && f.dst == BROADCAST then Some(rule) else None
  {
    assert [BroadcastRule(Tuples(targets, portSet))][1..] == [];
  }

  /**
   * From a gateway's port set, every frame meets the first that applies of: to the switch's own
   * address, it goes to the local port; to one of the set's targets, it is passed on and copied to
   * that target's mirror; a broadcast is passed on and copied to every mirror of the set and to the
   * local port; 802.1X goes to the trunk; anything else is passed on.
   */
  lemma GatewayFramesAreMirrored(targets: seq<Target>, extOfIp: Option<string>, portSet: nat, f: Frame)
    requires DistinctMacs(targets)
    ensures var (r, own) := (FirstMatch(PortsetAcl(targets, extOfIp, portSet), f), ForSwitch(f, extOfIp));
            var isTarget := exists k: nat :: IsTarget(targets, portSet, k, f.dst);
            && r.Some?
            && (own ==> r.value.ports == [SWITCH_LOCAL_PORT] && !r.value.allow)
            && (forall k: nat :: !own && IsTarget(targets, portSet, k, f.dst) ==>
                  r.value.ports == [MirrorPort(targets[k].port)] && r.value.allow)
            && (!own && !isTarget && f.dst == BROADCAST && portSet in Sets(targets) ==>
                  r.value.ports == MirrorPorts(Tuples(targets, portSet)) + [SWITCH_LOCAL_PORT] && r.value.allow)
            && (!own && !isTarget && !(f.dst == BROADCAST && portSet in Sets(targets)) ==>
                  r.value == if f.ethType == DOT1X then DOT1X_TO_TRUNK else ALLOW)
  {
    var (local, rules, tail) := (LocalRules(extOfIp), TargetRules(targets, portSet), [DOT1X_TO_TRUNK, ALLOW]);
    var bcast := if portSet in Sets(targets) then [BroadcastRule(Tuples(targets, portSet))] else [];
    LocalMeaning(extOfIp, f);
    TargetRulesMeaning(targets, portSet, f);
    BroadcastMeaning(targets, portSet, f);
    TailMeaning(f);
    FirstMatchAppend(local, rules, f);
    FirstMatchAppend(local + rules, bcast, f);
    FirstMatchAppend(local + rules + bcast, tail, f);
    assert forall k :: 0 <= k < |targets| && targets[k].portSet == portSet && targets[k].mac == f.dst ==>
             IsTarget(targets, portSet, k, f.dst);
  }
}
