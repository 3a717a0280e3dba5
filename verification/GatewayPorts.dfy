/**
 * Switch port numbers: the test ports a gateway hands out, and the numbering of all interfaces of
 * the primary switch, which must not give two interfaces the same port.
 */
module GatewayPorts {
  import opened Octets

  const TEST_OFFSET_START := 2
  const NUM_SET_PORTS := 6
  const SET_SPACING := 10
  const MIRROR_PORT_BASE := 1000
  const SWITCH_LOCAL_PORT := MIRROR_PORT_BASE
  const PRI_TRUNK_PORT := 1
  const OFPP_IN_PORT := 0xfffffff8

  function SwitchPort(portSet: nat, offset: nat): nat
  {
    portSet * SET_SPACING + offset
  }

  function MirrorPort(port: nat): nat
  {
    MIRROR_PORT_BASE + port
  }

  // ---- test ports -----------------------------------------------------------------------------

  /** The ports a gateway may hand out to tests. */
  predicate IsTestPort(portSet: nat, port: nat)
  {
    SwitchPort(portSet, TEST_OFFSET_START) <= port < SwitchPort(portSet, NUM_SET_PORTS)
  }

  function TestPorts(portSet: nat): (r: set<nat>)
    ensures forall p :: p in r <==> IsTestPort(portSet, p)
  {
    var base := SwitchPort(portSet, TEST_OFFSET_START);
    {base, base + 1, base + 2, base + 3}
  }

  ghost predicate IsLowestFree(portSet: nat, held: set<nat>, port: nat)
  {
    IsTestPort(portSet, port) && port !in held && forall p: nat :: IsTestPort(portSet, p) && p < port ==> p in held
  }

  /** There is a free test port exactly when fewer than four are held. */
  lemma FreePortIffFewerThanFour(portSet: nat, held: set<nat>)
    requires held <= TestPorts(portSet)
    ensures (exists p :: IsTestPort(portSet, p) && p !in held) <==> |held| < 4
  {
    var all := TestPorts(portSet);
    assert |all| == 4;
    SmallerSet(held, all);
    if held != all {
      var p :| p in all && p !in held;
      assert IsTestPort(portSet, p);
    }
  }

  /** The four test ports of a set, and the mirror of a port. */
  lemma PortNumbers(portSet: nat, port: nat)
    ensures TestPorts(portSet) == {10 * portSet + 2, 10 * portSet + 3, 10 * portSet + 4, 10 * portSet + 5}
    ensures MirrorPort(port) == 1000 + port && SwitchPort(portSet, port) == 10 * portSet + port
  {
  }

  /** Port sets do not share ports. */
  lemma PortsOfSetsAreDisjoint(a: nat, i: nat, b: nat, j: nat)
    requires i < SET_SPACING && j < SET_SPACING && SwitchPort(a, i) == SwitchPort(b, j)
    ensures a == b && i == j
  {
  }

  class BaseGateway {
    const portSet: nat
    var testPorts: set<nat>

    ghost predicate Valid()
      reads this
    {
      testPorts <= TestPorts(portSet)
    }

    constructor (portSet: nat)
      requires portSet > 0
      ensures Valid() && testPorts == {} && this.portSet == portSet
    {
      this.portSet, testPorts := portSet, {};
    }

    /** The lowest free test port, or a failed assertion when all four are held. */
    method AllocateTestPort() returns (port: Option<nat>)
      requires Valid()
      modifies `testPorts
      ensures Valid()
      ensures port.Some? <==> |old(testPorts)| < 4
      ensures port.Some? ==> IsLowestFree(portSet, old(testPorts), port.value) && testPorts == old(testPorts) + {port.value}
      ensures port.None? ==> testPorts == old(testPorts)
    {
      FreePortIffFewerThanFour(portSet, testPorts);
      var testPort := SwitchPort(portSet, TEST_OFFSET_START);
      var limit := SwitchPort(portSet, NUM_SET_PORTS);
      while testPort in testPorts
        invariant SwitchPort(portSet, TEST_OFFSET_START) <= testPort <= limit
        invariant forall p :: IsTestPort(portSet, p) && p < testPort ==> p in testPorts
        decreases limit - testPort
      {
        assert IsTestPort(portSet, testPort);
        testPort := testPort + 1;
      }
      if testPort >= limit {
        return None;
      }
      assert IsTestPort(portSet, testPort);
      testPorts := testPorts + {testPort};
      return Some(testPort);
    }

    method ReleaseTestPort(port: nat) returns (ok: bool)
      requires Valid()
      modifies `testPorts
      ensures Valid() && ok == (port in old(testPorts)) && testPorts == old(testPorts) - {port}
    {
      ok := port in testPorts;
      if ok {
        testPorts := testPorts - {port};
      }
    }
  }

  // ---- interfaces of the primary switch -------------------------------------------------------

  datatype Interface = PriTrunk | InPort | Gateway(portSet: nat) | Mirror(portSet: nat) | Local

  /** The interfaces in the order they are written: trunk, in-port, seven per port set, local. */
  function InterfaceCount(secPort: nat): nat
  {
    if secPort == 0 then 3 else 3 + 7 * (secPort - 1)
  }

  function InterfaceAt(secPort: nat, i: nat): (nat, Interface)
    requires i < InterfaceCount(secPort)
  {
    if i == 0 then (PRI_TRUNK_PORT, PriTrunk)
    else if i == 1 then (OFPP_IN_PORT, InPort)
    else if i == InterfaceCount(secPort) - 1 then (SWITCH_LOCAL_PORT, Local)
    else
      var (portSet, offset) := ((i - 2) / 7 + 1, (i - 2) % 7);
      if offset < NUM_SET_PORTS then (SwitchPort(portSet, offset), Gateway(portSet))
      else (MirrorPort(portSet), Mirror(portSet))
  }

  ghost predicate NoClash(secPort: nat)
  {
    forall i, j :: 0 <= i < j < InterfaceCount(secPort) ==>
      InterfaceAt(secPort, i).0 != InterfaceAt(secPort, j).0
  }

  lemma PortSetRange(secPort: nat, i: nat)
    requires 2 <= i < InterfaceCount(secPort) - 1
    ensures 1 <= (i - 2) / 7 + 1 < secPort
  {
  }

  /** No two interfaces of the primary switch share a port exactly when `sec_port` is at most 100. */
  lemma NoClashIff(secPort: nat)
    ensures NoClash(secPort) <==> secPort <= 100
  {
    if secPort > 100 {
      var i := 2 + 7 * 99;
      assert InterfaceAt(secPort, i) == (SwitchPort(100, 0), Gateway(100));
      assert InterfaceAt(secPort, i).0 == InterfaceAt(secPort, InterfaceCount(secPort) - 1).0;
    } else {
      forall i, j | 0 <= i < j < InterfaceCount(secPort)
        ensures InterfaceAt(secPort, i).0 != InterfaceAt(secPort, j).0
      {
        if 2 <= i {
          PortSetRange(secPort, i);
        }
        if 2 <= j < InterfaceCount(secPort) - 1 {
          PortSetRange(secPort, j);
        }
      }
    }
  }

  /** What stands at which port: trunk, in-port and local port, six gateway ports and a mirror per set. */
  lemma InterfaceNumbers(secPort: nat, portSet: nat, offset: nat)
    ensures InterfaceAt(secPort, 0) == (1, PriTrunk) && InterfaceAt(secPort, 1) == (0xfffffff8, InPort)
    ensures InterfaceAt(secPort, InterfaceCount(secPort) - 1) == (1000, Local)
    ensures 1 <= portSet < secPort && offset < 6 ==>
              var i := 2 + 7 * (portSet - 1) + offset;
              i < InterfaceCount(secPort) - 1 && InterfaceAt(secPort, i) == (10 * portSet + offset, Gateway(portSet))
    ensures 1 <= portSet < secPort ==>
              var i := 2 + 7 * (portSet - 1) + 6;
              i < InterfaceCount(secPort) - 1 && InterfaceAt(secPort, i) == (1000 + portSet, Mirror(portSet))
    ensures InterfaceCount(secPort) == 3 + (if secPort == 0 then 0 else 7 * (secPort - 1))
  {
  }

  /** Writes every interface into a table, later writes over earlier ones. */
  method MakePriInterfaces(secPort: nat) returns (interfaces: map<nat, Interface>)
    ensures secPort <= 100 ==> forall i :: 0 <= i < InterfaceCount(secPort) ==> Holds(secPort, i, interfaces)
    ensures forall p :: p in interfaces ==> exists i :: 0 <= i < InterfaceCount(secPort) && Uses(secPort, i, p)
  {
    NoClashIff(secPort);
    WriteOne(secPort, 0, map[]);
    interfaces := map[PRI_TRUNK_PORT := PriTrunk];
    WriteOne(secPort, 1, interfaces);
    interfaces := interfaces[OFPP_IN_PORT := InPort];
    var portSet := 1;
    ghost var done := 2;
    while portSet < secPort
      invariant portSet >= 1 && (portSet <= secPort || portSet == 1)
      invariant done == 2 + 7 * (portSet - 1)
      invariant Written(secPort, done, interfaces)
    {
      for offset := 0 to NUM_SET_PORTS
        invariant done == 2 + 7 * (portSet - 1) + offset
        invariant Written(secPort, done, interfaces)
      {
        WriteNext(secPort, done, interfaces, portSet, offset);
        interfaces := interfaces[SwitchPort(portSet, offset) := Gateway(portSet)];
        done := done + 1;
      }
      WriteNext(secPort, done, interfaces, portSet, NUM_SET_PORTS);
      interfaces := interfaces[MirrorPort(portSet) := Mirror(portSet)];
      done := done + 1;
      portSet := portSet + 1;
    }
    WriteOne(secPort, done, interfaces);
    interfaces := interfaces[SWITCH_LOCAL_PORT := Local];
  }

  ghost predicate Uses(secPort: nat, i: nat, port: nat)
  {
    i < InterfaceCount(secPort) && InterfaceAt(secPort, i).0 == port
  }

  ghost predicate Holds(secPort: nat, i: nat, interfaces: map<nat, Interface>)
    requires i < InterfaceCount(secPort)
  {
    var (port, interface) := InterfaceAt(secPort, i);
    port in interfaces && interfaces[port] == interface
  }

  /** The first `done` interfaces are in the table, and nothing else. */
  ghost predicate Written(secPort: nat, done: nat, interfaces: map<nat, Interface>)
  {
    && done <= InterfaceCount(secPort)
    && (NoClash(secPort) ==> forall i :: 0 <= i < done ==> Holds(secPort, i, interfaces))
    && (forall p :: p in interfaces ==> exists i :: 0 <= i < done && Uses(secPort, i, p))
  }

  lemma WriteOne(secPort: nat, done: nat, interfaces: map<nat, Interface>)
    requires done < InterfaceCount(secPort) && Written(secPort, done, interfaces)
    ensures Written(secPort, done + 1, interfaces[InterfaceAt(secPort, done).0 := InterfaceAt(secPort, done).1])
  {
    var (port, interface) := InterfaceAt(secPort, done);
    var after := interfaces[port := interface];
    forall p | p in after ensures exists i :: 0 <= i < done + 1 && Uses(secPort, i, p) {
      if p == port {
        assert Uses(secPort, done, p);
      } else {
        var i :| 0 <= i < done && Uses(secPort, i, p);
        assert Uses(secPort, i, p);
      }
    }
    if NoClash(secPort) {
      forall i | 0 <= i < done + 1 ensures Holds(secPort, i, after) {
        assert i < done ==> Holds(secPort, i, interfaces);
      }
    }
  }

  lemma WriteNext(secPort: nat, done: nat, interfaces: map<nat, Interface>, portSet: nat, offset: nat)
    requires 1 <= portSet < secPort && offset < 7 && done == 2 + 7 * (portSet - 1) + offset
    requires Written(secPort, done, interfaces)
    ensures done < InterfaceCount(secPort) - 1
    ensures InterfaceAt(secPort, done)
            == if offset < NUM_SET_PORTS then (SwitchPort(portSet, offset), Gateway(portSet))
               else (MirrorPort(portSet), Mirror(portSet))
    ensures Written(secPort, done + 1, interfaces[InterfaceAt(secPort, done).0 := InterfaceAt(secPort, done).1])
  {
    WriteOne(secPort, done, interfaces);
  }
}
