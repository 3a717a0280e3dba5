/**
 * The mirror rules of the primary switch. Nested loops over the directed targets emit an ordered
 * list of rules, of which the first that matches a frame decides; read that way, the list means
 * "every frame of a target is copied to its own mirror, to that of the target it is addressed to,
 * or for a broadcast to all mirrors of its port set".
 */
module MirrorAcl {
  import opened Octets
  import opened GatewayPorts

  type Mac = string

  const BROADCAST: Mac := "ff:ff:ff:ff:ff:ff"
  const DOT1X := 0x888e
  const IPV4 := 0x0800

  /** A device port whose traffic is directed to a port set. */
  datatype Target = Target(port: nat, portSet: nat, mac: Mac)

  datatype VlanMatch = AnyVlan | Untagged | Vid(vid: nat)

  datatype Rule = Rule(
    dlSrc: Option<Mac>, dlDst: Option<Mac>, vlan: VlanMatch, ethType: Option<nat>, ipv4Dst: Option<string>,
    ports: seq<nat>, allow: bool)

  datatype Frame = Frame(src: Mac, dst: Mac, vlan: Option<nat>, ethType: nat, ipv4Dst: Option<string>)

  const ANY := Rule(None, None, AnyVlan, None, None, [], false)

  predicate Matches(r: Rule, f: Frame)
  {
    && (r.dlSrc.Some? ==> f.src == r.dlSrc.value)
    && (r.dlDst.Some? ==> f.dst == r.dlDst.value)
    && (match r.vlan case AnyVlan => true case Untagged => f.vlan.None? case Vid(v) => f.vlan == Some(v))
    && (r.ethType.Some? ==> f.ethType == r.ethType.value)
    && (r.ipv4Dst.Some? ==> f.ipv4Dst == r.ipv4Dst)
  }

  function FirstMatch(acl: seq<Rule>, f: Frame): Option<Rule>
  {
    if acl == [] then None else if Matches(acl[0], f) then Some(acl[0]) else FirstMatch(acl[1..], f)
  }

  lemma {:induction false} FirstMatchAppend(a: seq<Rule>, b: seq<Rule>, f: Frame)
    ensures FirstMatch(a + b, f) == if FirstMatch(a, f).Some? then FirstMatch(a, f) else FirstMatch(b, f)
  {
    if a == [] {
      Units(b);
    } else {
      TailOfAppend(a, b);
      FirstMatchAppend(a[1..], b, f);
    }
  }

  lemma {:induction false} NoMatch(acl: seq<Rule>, f: Frame)
    requires forall i :: 0 <= i < |acl| ==> !Matches(acl[i], f)
    ensures FirstMatch(acl, f).None?
  {
    if acl != [] {
      NoMatch(acl[1..], f);
    }
  }

  // ---- grouping of targets by port set --------------------------------------------------------

  /** A target's MAC and the port its traffic is mirrored to. */
  type Tuple = (Mac, nat)

  /** The mirror tuples of one port set, in the order of the targets. */
  function Tuples(targets: seq<Target>, portSet: nat): seq<Tuple>
  {
    if targets == [] then []
    else
      var (rest, t) := (Tuples(targets[..|targets| - 1], portSet), targets[|targets| - 1]);
      if t.portSet == portSet then rest + [(t.mac, MirrorPort(t.port))] else rest
  }

  /** The port sets in the order their first target was seen. */
  function Sets(targets: seq<Target>): seq<nat>
  {
    if targets == [] then []
    else
      var (rest, t) := (Sets(targets[..|targets| - 1]), targets[|targets| - 1]);
      if t.portSet in rest then rest else rest + [t.portSet]
  }

  function TargetRule(t: Target): Rule
  {
    ANY.(dlDst := Some(t.mac), ports := [MirrorPort(t.port)], allow := true)
  }

  /** Rules towards the targets of one port set, in the order of the targets. */
  function TargetRules(targets: seq<Target>, portSet: nat): seq<Rule>
  {
    if targets == [] then []
    else
      var (rest, t) := (TargetRules(targets[..|targets| - 1], portSet), targets[|targets| - 1]);
      if t.portSet == portSet then rest + [TargetRule(t)] else rest
  }

  /**
   * Collects mirror tuples by port set and appends a rule to the set's list for every target. A
   * target outside the numbered port sets has no list and fails.
   */
  method GeneratePortTargetAcls(targets: seq<Target>, acls: map<nat, seq<Rule>>)
    returns (order: seq<nat>, mirrors: map<nat, seq<Tuple>>, acls': map<nat, seq<Rule>>)
    requires forall i :: 0 <= i < |targets| ==> targets[i].portSet in acls
    ensures order == Sets(targets) && (forall s :: s in mirrors <==> s in order)
    ensures forall s :: s in mirrors ==> mirrors[s] == Tuples(targets, s)
    ensures acls'.Keys == acls.Keys && forall s :: s in acls ==> acls'[s] == acls[s] + TargetRules(targets, s)
  {
    order, mirrors, acls' := [], map[], acls;
    for k := 0 to |targets|
      invariant order == Sets(targets[..k]) && (forall s :: s in mirrors <==> s in order)
      invariant forall s :: s in mirrors ==> mirrors[s] == Tuples(targets[..k], s)
      invariant forall s :: s !in mirrors ==> Tuples(targets[..k], s) == []
      invariant acls'.Keys == acls.Keys
      invariant forall s :: s in acls ==> acls'[s] == acls[s] + TargetRules(targets[..k], s)
    {
      var t := targets[k];
      assert targets[..k + 1][..k] == targets[..k];
      if t.portSet !in mirrors {
        order := order + [t.portSet];
        mirrors := mirrors[t.portSet := []];
      }
      mirrors := mirrors[t.portSet := mirrors[t.portSet] + [(t.mac, MirrorPort(t.port))]];
      acls' := acls'[t.portSet := acls'[t.portSet] + [TargetRule(t)]];
    }
    assert targets[..|targets|] == targets;
  }

  // ---- rules of the incoming list -------------------------------------------------------------

  function MirrorPorts(tuples: seq<Tuple>): (r: seq<nat>)
    ensures |r| == |tuples|
  {
    seq(|tuples|, i requires 0 <= i < |tuples| => tuples[i].1)
  }

  function FromRule(src: Mac, dst: Option<Mac>, ports: seq<nat>): Rule
  {
    ANY.(dlSrc := Some(src), dlDst := dst, vlan := Untagged, ports := ports)
  }

  /** From one source to each other target of its set. */
  function PairRules(src: Tuple, tuples: seq<Tuple>): seq<Rule>
  {
    if tuples == [] then []
    else
      var (rest, dst) := (PairRules(src, tuples[..|tuples| - 1]), tuples[|tuples| - 1]);
      if dst.0 != src.0 then rest + [FromRule(src.0, Some(dst.0), [src.1, dst.1])] else rest
  }

  /** All rules for one source: broadcast, each other target, anything else. */
  function SourceRules(src: Tuple, tuples: seq<Tuple>): seq<Rule>
  {
    [FromRule(src.0, Some(BROADCAST), MirrorPorts(tuples))] + PairRules(src, tuples) + [FromRule(src.0, None, [src.1])]
  }

  function SourcesRules(sources: seq<Tuple>, tuples: seq<Tuple>): seq<Rule>
  {
    if sources == [] then []
    else SourcesRules(sources[..|sources| - 1], tuples) + SourceRules(sources[|sources| - 1], tuples)
  }

  function SetsRules(targets: seq<Target>, sets: seq<nat>): seq<Rule>
  {
    if sets == [] then []
    else
      var tuples := Tuples(targets, sets[|sets| - 1]);
      SetsRules(targets, sets[..|sets| - 1]) + SourcesRules(tuples, tuples)
  }

  function BroadcastRule(tuples: seq<Tuple>): Rule
  {
    ANY.(dlDst := Some(BROADCAST), ports := MirrorPorts(tuples) + [SWITCH_LOCAL_PORT], allow := true)
  }

  method GenerateSourceAcls(src: Tuple, tuples: seq<Tuple>) returns (rules: seq<Rule>)
    ensures rules == SourceRules(src, tuples)
  {
    rules := [FromRule(src.0, Some(BROADCAST), MirrorPorts(tuples))];
    for k := 0 to |tuples|
      invariant rules == [FromRule(src.0, Some(BROADCAST), MirrorPorts(tuples))] + PairRules(src, tuples[..k])
    {
      assert tuples[..k + 1][..k] == tuples[..k];
      var dst := tuples[k];
      if dst.0 != src.0 {
        rules := rules + [FromRule(src.0, Some(dst.0), [src.1, dst.1])];
      }
    }
    assert tuples[..|tuples|] == tuples;
    rules := rules + [FromRule(src.0, None, [src.1])];
  }

  method GenerateSetAcls(tuples: seq<Tuple>) returns (rules: seq<Rule>)
    ensures rules == SourcesRules(tuples, tuples)
  {
    rules := [];
    for k := 0 to |tuples|
      invariant rules == SourcesRules(tuples[..k], tuples)
    {
      assert tuples[..k + 1][..k] == tuples[..k];
      var one := GenerateSourceAcls(tuples[k], tuples);
      rules := rules + one;
    }
    assert tuples[..|tuples|] == tuples;
  }

  /** The mirror rules of every port set, and each set's broadcast rule. */
  method GenerateMirrorAcls(ghost targets: seq<Target>, order: seq<nat>, mirrors: map<nat, seq<Tuple>>,
                            incoming: seq<Rule>, acls: map<nat, seq<Rule>>)
    returns (incoming': seq<Rule>, acls': map<nat, seq<Rule>>)
    requires forall i :: 0 <= i < |order| ==> order[i] in mirrors && order[i] in acls
    requires forall i, j :: 0 <= i < j < |order| ==> order[i] != order[j]
    requires forall s :: s in mirrors ==> mirrors[s] == Tuples(targets, s)
    ensures incoming' == incoming + SetsRules(targets, order)
    ensures acls'.Keys == acls.Keys
    ensures forall s :: s in acls ==> acls'[s] == acls[s] + if s in order then [BroadcastRule(mirrors[s])] else []
  {
    incoming', acls' := incoming, acls;
    for k := 0 to |order|
      invariant incoming' == incoming + SetsRules(targets, order[..k])
      invariant acls'.Keys == acls.Keys
      invariant forall s :: s in acls ==> acls'[s] == acls[s] + if s in order[..k] then [BroadcastRule(mirrors[s])] else []
    {
      assert order[..k + 1][..k] == order[..k] && order[k] !in order[..k];
      var tuples := mirrors[order[k]];
      var rules := GenerateSetAcls(tuples);
      Assoc(incoming, SetsRules(targets, order[..k]), rules);
      incoming' := incoming' + rules;
      acls' := acls'[order[k] := acls'[order[k]] + [BroadcastRule(tuples)]];
    }
    assert order[..|order|] == order;
  }
}
