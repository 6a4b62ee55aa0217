/**
  The FRP client configuration of a service: the user's local-to-remote port map is inverted, each port
  of the service that the inverse maps becomes a named pair, and the pairs become sections.

  Go visits a map in any order; the order is a parameter here, so that every result holds for all of them.
 */
module FrpPairs {
  import opened Decimal
  import opened MapOrder
  import opened PortsCodec

  datatype Service = Service(kind: string, remotePort: string, localIP: string, localPort: string)

  datatype ServicePair = ServicePair(name: string, service: Service)

  /** A choice, for each remote port, of one of the local ports mapped to it. */
  ghost predicate IsInversion(m: map<string, string>, inv: map<string, string>) {
    inv.Keys == m.Values && forall r :: r in inv ==> inv[r] in m && m[inv[r]] == r
  }

  /** localPortByRemote after the entries of `order` have been visited. */
  function Inverted(m: map<string, string>, order: seq<string>): map<string, string>
    requires forall k :: k in order ==> k in m
  {
    if order == [] then map[]
    else
      var k := order[|order| - 1];
      assert forall l :: l in order[..|order| - 1] ==> l in order;
      Inverted(m, order[..|order| - 1])[m[k] := k]
  }

  lemma {:induction false} InvertedEntries(m: map<string, string>, order: seq<string>)
    requires forall k :: k in order ==> k in m
    ensures forall r :: r in Inverted(m, order) <==> exists k :: k in order && m[k] == r
    ensures forall r :: r in Inverted(m, order) ==> Inverted(m, order)[r] in order && m[Inverted(m, order)[r]] == r
  {
    if order != [] {
      var front := order[..|order| - 1];
      assert forall l :: l in order <==> l in front || l == order[|order| - 1];
      InvertedEntries(m, front);
    }
  }

  /** Visited in any order, the map comes out inverted. */
  lemma AnyOrderInverts(m: map<string, string>, order: seq<string>)
    requires IsOrder(m, order)
    ensures IsInversion(m, Inverted(m, order))
  {
    InvertedEntries(m, order);
    forall r
      ensures r in Inverted(m, order) <==> r in m.Values
    {
      if r in m.Values {
        var k :| k in m && m[k] == r;
        assert k in order;
      }
    }
  }

  /** The last key visited wins. */
  lemma {:induction false} LastWins(m: map<string, string>, order: seq<string>, i: nat)
    requires forall k :: k in order ==> k in m
    requires i < |order| && forall j :: i < j < |order| ==> m[order[j]] != m[order[i]]
    ensures m[order[i]] in Inverted(m, order) && Inverted(m, order)[m[order[i]]] == order[i]
  {
    var n := |order| - 1;
    if i < n {
      assert forall l :: l in order[..n] ==> l in order;
      LastWins(m, order[..n], i);
    }
  }

  /** The local ports that an inversion chooses. */
  function Chosen(m: map<string, string>, inv: map<string, string>): set<string>
    requires forall k :: k in m ==> m[k] in inv
  {
    set k | k in m && inv[m[k]] == k
  }

  lemma ChosenWins(m: map<string, string>, inv: map<string, string>, early: seq<string>, late: seq<string>, i: nat)
    requires IsInversion(m, inv) && IsOrder(m, early + late) && i < |late|
    requires forall k :: k in late ==> k in Chosen(m, inv)
    ensures late[i] in m && m[late[i]] in Inverted(m, early + late) && Inverted(m, early + late)[m[late[i]]] == late[i]
  {
    var order := early + late;
    assert late[i] in late && order[|early| + i] == late[i];
    forall j | |early| + i < j < |order|
      ensures m[order[j]] != m[late[i]]
    {
      assert order[j] == late[j - |early|] && late[j - |early|] in late;
      assert order[j] != order[|early| + i];
    }
    LastWins(m, order, |early| + i);
  }

  /** Visiting the chosen local ports last leaves exactly them in the inverse. */
  lemma ChosenLast(m: map<string, string>, inv: map<string, string>, early: seq<string>, late: seq<string>)
    requires IsInversion(m, inv) && IsOrder(m, early + late)
    requires forall k :: k in late <==> k in Chosen(m, inv)
    ensures Inverted(m, early + late) == inv
  {
    AnyOrderInverts(m, early + late);
    forall r | r in inv
      ensures Inverted(m, early + late)[r] == inv[r]
    {
      assert inv[r] in late;
      var i :| 0 <= i < |late| && late[i] == inv[r];
      ChosenWins(m, inv, early, late, i);
    }
  }

  /** Every choice of local ports comes from some order: the chosen ones are visited last. */
  lemma EveryInversionHasAnOrder(m: map<string, string>, inv: map<string, string>) returns (order: seq<string>)
    requires IsInversion(m, inv)
    ensures IsOrder(m, order) && Inverted(m, order) == inv
  {
    var early := SomeOrderOf(m.Keys - Chosen(m, inv));
    var late := SomeOrderOf(Chosen(m, inv));
    order := early + late;
    JoinOrders(early, late);
    assert forall k :: k in order <==> k in early || k in late;
    ChosenLast(m, inv, early, late);
  }

  // ---------- Pairs ----------

  /** A Go map lookup: the empty string for a missing key. */
  function Lookup(inv: map<string, string>, r: string): string {
    if r in inv then inv[r] else ""
  }

  function PairFor(localIP: string, inv: map<string, string>, serviceName: string, port: int): ServicePair {
    var r := Itoa(port);
    ServicePair(serviceName + "-" + r, Service("tcp", r, localIP, Lookup(inv, r)))
  }

  function Pairs(localIP: string, inv: map<string, string>, serviceName: string, ports: seq<int>): seq<ServicePair> {
    if ports == [] then []
    else
      var n := |ports| - 1;
      Pairs(localIP, inv, serviceName, ports[..n]) +
      (if Lookup(inv, Itoa(ports[n])) == "" then [] else [PairFor(localIP, inv, serviceName, ports[n])])
  }

  predicate Mapped(m: map<string, string>, port: int) {
    Itoa(port) in m.Values
  }

  /** Strictly increasing positions below n. */
  ghost predicate Positions(at: seq<nat>, n: nat) {
    (forall i :: 0 <= i < |at| ==> at[i] < n) && (forall i, j :: 0 <= i < j < |at| ==> at[i] < at[j])
  }

  /** The positions of the ports that get a pair. */
  function Selected(inv: map<string, string>, ports: seq<int>): seq<nat> {
    if ports == [] then []
    else
      var n := |ports| - 1;
      Selected(inv, ports[..n]) + (if Lookup(inv, Itoa(ports[n])) == "" then [] else [n])
  }

  lemma {:induction false} SelectedPositions(inv: map<string, string>, ports: seq<int>)
    ensures Positions(Selected(inv, ports), |ports|)
  {
    if ports != [] {
      SelectedPositions(inv, ports[..|ports| - 1]);
    }
  }

  lemma {:induction false} SelectedIff(inv: map<string, string>, ports: seq<int>, j: nat)
    requires j < |ports|
    ensures j in Selected(inv, ports) <==> Lookup(inv, Itoa(ports[j])) != ""
  {
    var n := |ports| - 1;
    var front := Selected(inv, ports[..n]);
    SelectedPositions(inv, ports[..n]);
    assert forall k :: k in front ==> k < n;
    assert Selected(inv, ports) == front || Selected(inv, ports) == front + [n];
    if j < n {
      SelectedIff(inv, ports[..n], j);
      assert ports[..n][j] == ports[j];
    }
  }

  lemma {:induction false} SelectedPairs(
      localIP: string, inv: map<string, string>, serviceName: string, ports: seq<int>, i: nat)
    ensures |Pairs(localIP, inv, serviceName, ports)| == |Selected(inv, ports)|
    ensures i < |Selected(inv, ports)| ==>
      var j := Selected(inv, ports)[i];
      && j < |ports| && Lookup(inv, Itoa(ports[j])) != ""
      && Pairs(localIP, inv, serviceName, ports)[i] == PairFor(localIP, inv, serviceName, ports[j])
  {
    if ports != [] {
      SelectedPairs(localIP, inv, serviceName, ports[..|ports| - 1], i);
    }
  }

  /** The pair is for this port, with a local port that the user mapped to it. */
  ghost predicate IsPairOf(m: map<string, string>, localIP: string, serviceName: string, port: int, p: ServicePair) {
    && p.name == serviceName + "-" + Itoa(port)
    && p.service.kind == "tcp" && p.service.localIP == localIP && p.service.remotePort == Itoa(port)
    && p.service.localPort != "" && p.service.localPort in m && m[p.service.localPort] == Itoa(port)
  }

  /**
    The pairs are an in-order selection of the service's ports, at the positions `at`.  Every selected
    port comes with a local port that the user mapped to it; a port is passed over exactly if it is not
    mapped, or the local port chosen for it is the empty string.
   */
  lemma PairsAreASelection(
      m: map<string, string>, inv: map<string, string>, localIP: string, serviceName: string, ports: seq<int>)
    returns (at: seq<nat>)
    requires IsInversion(m, inv)
    ensures var pairs := Pairs(localIP, inv, serviceName, ports);
      && |at| == |pairs| && Positions(at, |ports|)
      && (forall i :: 0 <= i < |pairs| ==> IsPairOf(m, localIP, serviceName, ports[at[i]], pairs[i]))
    ensures forall j :: 0 <= j < |ports| ==>
      (j in at <==> Mapped(m, ports[j]) && inv[Itoa(ports[j])] != "")
  {
    at := Selected(inv, ports);
    SelectedPositions(inv, ports);
    SelectedPairs(localIP, inv, serviceName, ports, 0);
    forall i | 0 <= i < |at|
      ensures IsPairOf(m, localIP, serviceName, ports[at[i]], Pairs(localIP, inv, serviceName, ports)[i])
    {
      SelectedPairs(localIP, inv, serviceName, ports, i);
    }
    forall j | 0 <= j < |ports|
      ensures j in at <==> Mapped(m, ports[j]) && inv[Itoa(ports[j])] != ""
    {
      SelectedIff(inv, ports, j);
    }
  }

  /** The service gets no pair at all if and only if each of its ports is unmapped, or the local port chosen
      for it is the empty string. */
  lemma {:induction false} NoPairsIff(
      m: map<string, string>, inv: map<string, string>, localIP: string, serviceName: string, ports: seq<int>)
    requires IsInversion(m, inv)
    ensures Pairs(localIP, inv, serviceName, ports) == [] <==>
      forall j :: 0 <= j < |ports| ==> !Mapped(m, ports[j]) || inv[Itoa(ports[j])] == ""
  {
    var at := PairsAreASelection(m, inv, localIP, serviceName, ports);
    if at != [] {
      assert at[0] in at;
    }
  }

  /** No order drops a mapped port of the service if and only if none is mapped from the empty local port. */
  lemma MappedPortsKeptIff(m: map<string, string>, ports: seq<int>)
    ensures (forall inv, j :: IsInversion(m, inv) && 0 <= j < |ports| && Mapped(m, ports[j]) ==>
              Lookup(inv, Itoa(ports[j])) != "") <==>
            !(exists j :: 0 <= j < |ports| && "" in m && m[""] == Itoa(ports[j]))
  {
    if j :| 0 <= j < |ports| && "" in m && m[""] == Itoa(ports[j]) {
      var inv := ChoiceOf(m, "");
      assert Lookup(inv, Itoa(ports[j])) == "";
    }
  }

  /** An inversion that chooses local port l. */
  lemma ChoiceOf(m: map<string, string>, l: string) returns (inv: map<string, string>)
    requires l in m
    ensures IsInversion(m, inv) && inv[m[l]] == l
  {
    var order := SomeOrderOf(m.Keys);
    AnyOrderInverts(m, order);
    inv := Inverted(m, order)[m[l] := l];
    assert inv.Keys == m.Values;
  }

  ghost predicate PreimageUnique(m: map<string, string>, r: string) {
    forall k, l :: k in m && l in m && m[k] == r && m[l] == r ==> k == l
  }

  lemma {:induction false} PairsDependOnPorts(
      localIP: string, inv: map<string, string>, inv': map<string, string>, serviceName: string, ports: seq<int>)
    requires forall j :: 0 <= j < |ports| ==> Lookup(inv, Itoa(ports[j])) == Lookup(inv', Itoa(ports[j]))
    ensures Pairs(localIP, inv, serviceName, ports) == Pairs(localIP, inv', serviceName, ports)
  {
    if ports != [] {
      PairsDependOnPorts(localIP, inv, inv', serviceName, ports[..|ports| - 1]);
    }
  }

  /** A port with a local port has a pair. */
  lemma {:induction false} PairOfPort(
      localIP: string, inv: map<string, string>, serviceName: string, ports: seq<int>, j: nat)
    requires j < |ports| && Lookup(inv, Itoa(ports[j])) != ""
    ensures PairFor(localIP, inv, serviceName, ports[j]) in Pairs(localIP, inv, serviceName, ports)
  {
    if j < |ports| - 1 {
      PairOfPort(localIP, inv, serviceName, ports[..|ports| - 1], j);
    }
  }

  /** All pairs of one remote port have the local port chosen for it. */
  lemma {:induction false} PairsOfRemote(
      localIP: string, inv: map<string, string>, serviceName: string, ports: seq<int>, r: string)
    ensures forall p :: p in Pairs(localIP, inv, serviceName, ports) && p.service.remotePort == r ==>
      p.service.localPort == Lookup(inv, r) != ""
  {
    if ports != [] {
      PairsOfRemote(localIP, inv, serviceName, ports[..|ports| - 1], r);
    }
  }

  /** Two orders of iteration give the same pairs. */
  ghost predicate SamePairs(
      m: map<string, string>, localIP: string, serviceName: string, ports: seq<int>, o: seq<string>, o': seq<string>)
    requires IsOrder(m, o) && IsOrder(m, o')
  {
    Pairs(localIP, Inverted(m, o), serviceName, ports) == Pairs(localIP, Inverted(m, o'), serviceName, ports)
  }

  lemma UniquePreimagesGiveSamePairs(
      m: map<string, string>, localIP: string, serviceName: string, ports: seq<int>, o: seq<string>, o': seq<string>)
    requires forall j :: 0 <= j < |ports| ==> PreimageUnique(m, Itoa(ports[j]))
    requires IsOrder(m, o) && IsOrder(m, o')
    ensures SamePairs(m, localIP, serviceName, ports, o, o')
  {
    AnyOrderInverts(m, o);
    AnyOrderInverts(m, o');
    forall j | 0 <= j < |ports|
      ensures Lookup(Inverted(m, o), Itoa(ports[j])) == Lookup(Inverted(m, o'), Itoa(ports[j]))
    {
      assert PreimageUnique(m, Itoa(ports[j]));
    }
    PairsDependOnPorts(localIP, Inverted(m, o), Inverted(m, o'), serviceName, ports);
  }

  lemma TwoPreimagesGiveTwoResults(
      m: map<string, string>, localIP: string, serviceName: string, ports: seq<int>, j: nat)
    returns (o: seq<string>, o': seq<string>)
    requires j < |ports| && !PreimageUnique(m, Itoa(ports[j]))
    ensures IsOrder(m, o) && IsOrder(m, o') && !SamePairs(m, localIP, serviceName, ports, o, o')
  {
    var r := Itoa(ports[j]);
    var k, l :| k in m && l in m && m[k] == r && m[l] == r && k != l;
    var inv := ChoiceOf(m, k);
    var inv' := ChoiceOf(m, l);
    o := EveryInversionHasAnOrder(m, inv);
    o' := EveryInversionHasAnOrder(m, inv');
    if k != "" {
      PairOfPort(localIP, inv, serviceName, ports, j);
    } else {
      PairOfPort(localIP, inv', serviceName, ports, j);
    }
    PairsOfRemote(localIP, inv, serviceName, ports, r);
    PairsOfRemote(localIP, inv', serviceName, ports, r);
  }

  /** The pairs are the same for every two orders if and only if no port of the service is mapped from
      two local ports. */
  lemma OrderIndependentIff(m: map<string, string>, localIP: string, serviceName: string, ports: seq<int>)
    ensures (forall o, o' :: IsOrder(m, o) && IsOrder(m, o') ==> SamePairs(m, localIP, serviceName, ports, o, o')) <==>
            (forall j :: 0 <= j < |ports| ==> PreimageUnique(m, Itoa(ports[j])))
  {
    if j :| 0 <= j < |ports| && !PreimageUnique(m, Itoa(ports[j])) {
      var o, o' := TwoPreimagesGiveTwoResults(m, localIP, serviceName, ports, j);
    } else {
      forall o, o' | IsOrder(m, o) && IsOrder(m, o')
        ensures SamePairs(m, localIP, serviceName, ports, o, o')
      {
        UniquePreimagesGiveSamePairs(m, localIP, serviceName, ports, o, o');
      }
    }
  }

  /** The pairs for one order of iteration. */
  method ToFRPClientPairs(
      localIP: string, remotePortByLocal: map<string, string>, order: seq<string>, serviceName: string, ports: seq<int>)
    returns (pairs: seq<ServicePair>)
    requires IsOrder(remotePortByLocal, order)
    ensures pairs == Pairs(localIP, Inverted(remotePortByLocal, order), serviceName, ports)
  {
    var localPortByRemote: map<string, string> := map[];
    for i := 0 to |order|
      invariant forall k :: k in order[..i] ==> k in remotePortByLocal
      invariant localPortByRemote == Inverted(remotePortByLocal, order[..i])
    {
      assert order[..i + 1][..i] == order[..i];
      localPortByRemote := localPortByRemote[remotePortByLocal[order[i]] := order[i]];
    }
    assert order[..|order|] == order;
    pairs := [];
    for i := 0 to |ports|
      invariant pairs == Pairs(localIP, localPortByRemote, serviceName, ports[..i])
    {
      assert ports[..i + 1][..i] == ports[..i];
      var port := Itoa(ports[i]);
      var localPort := Lookup(localPortByRemote, port);
      if localPort != "" {
        pairs := pairs + [ServicePair(serviceName + "-" + port, Service("tcp", port, localIP, localPort))];
      }
    }
    assert ports[..|ports|] == ports;
  }

  // ---------- Sections ----------

  datatype Common = Common(serverAddress: string, serverPort: string)

  datatype Section = CommonSection(common: Common) | ServiceSection(service: Service)

  const COMMON := "common"

  /** The section map that createToml builds. */
  function Sections(common: Common, pairs: seq<ServicePair>): map<string, Section> {
    if pairs == [] then map[COMMON := CommonSection(common)]
    else
      var last := pairs[|pairs| - 1];
      Sections(common, pairs[..|pairs| - 1])[last.name := ServiceSection(last.service)]
  }

  method CreateSections(common: Common, pairs: seq<ServicePair>) returns (config: map<string, Section>)
    ensures config == Sections(common, pairs)
  {
    config := map[COMMON := CommonSection(common)];
    for i := 0 to |pairs|
      invariant config == Sections(common, pairs[..i])
    {
      assert pairs[..i + 1][..i] == pairs[..i];
      config := config[pairs[i].name := ServiceSection(pairs[i].service)];
    }
    assert pairs[..|pairs|] == pairs;
  }

  /** Each section is either the common one or that of the last pair with its name. */
  lemma {:induction false} SectionOf(common: Common, pairs: seq<ServicePair>, i: nat)
    requires i < |pairs| && forall j :: i < j < |pairs| ==> pairs[j].name != pairs[i].name
    ensures pairs[i].name in Sections(common, pairs)
    ensures Sections(common, pairs)[pairs[i].name] == ServiceSection(pairs[i].service)
  {
    if i < |pairs| - 1 {
      SectionOf(common, pairs[..|pairs| - 1], i);
    }
  }

  lemma {:induction false} CommonKept(common: Common, pairs: seq<ServicePair>)
    ensures "common" in Sections(common, pairs)
    ensures Sections(common, pairs)["common"] == CommonSection(common) <==>
      forall i :: 0 <= i < |pairs| ==> pairs[i].name != "common"
  {
    if pairs != [] {
      var n := |pairs| - 1;
      CommonKept(common, pairs[..n]);
      assert forall i :: 0 <= i < n ==> pairs[..n][i] == pairs[i];
    }
  }

  ghost predicate Clash(p: ServicePair, q: ServicePair) {
    p.name == q.name && p.service != q.service
  }

  lemma LastOfName(pairs: seq<ServicePair>, i: nat) returns (last: nat)
    requires i < |pairs|
    ensures i <= last < |pairs| && pairs[last].name == pairs[i].name
    ensures forall j :: last < j < |pairs| ==> pairs[j].name != pairs[last].name
  {
    last := i;
    for j := i + 1 to |pairs|
      invariant i <= last < j && pairs[last].name == pairs[i].name
      invariant forall l :: last < l < j ==> pairs[l].name != pairs[last].name
    {
      if pairs[j].name == pairs[i].name {
        last := j;
      }
    }
  }

  ghost predicate AllKept(common: Common, pairs: seq<ServicePair>) {
    var config := Sections(common, pairs);
    && "common" in config && config["common"] == CommonSection(common)
    && forall i :: 0 <= i < |pairs| ==> SectionKept(config, pairs[i])
  }

  predicate SectionKept(config: map<string, Section>, p: ServicePair) {
    p.name in config && config[p.name] == ServiceSection(p.service)
  }

  /** For any pairs at all: no section is lost if and only if no pair is named like the common section and
      no two pairs of one name differ. */
  lemma NoSectionLostIff(common: Common, pairs: seq<ServicePair>)
    ensures AllKept(common, pairs) <==>
      && (forall i :: 0 <= i < |pairs| ==> pairs[i].name != "common")
      && (forall i, j :: 0 <= i < j < |pairs| ==> !Clash(pairs[i], pairs[j]))
  {
    CommonKept(common, pairs);
    var config := Sections(common, pairs);
    forall i | 0 <= i < |pairs|
      ensures exists last ::
        i <= last < |pairs| && pairs[last].name == pairs[i].name && SectionKept(config, pairs[last])
    {
      var last := LastOfName(pairs, i);
      SectionOf(common, pairs, last);
    }
    if AllKept(common, pairs) {
      forall i, j | 0 <= i < j < |pairs|
        ensures !Clash(pairs[i], pairs[j])
      {
        assert SectionKept(config, pairs[i]) && SectionKept(config, pairs[j]);
      }
    }
  }

  // ---------- The whole pipeline ----------

  /** What every pair of one service looks like. */
  ghost predicate PairsOfService(
      inv: map<string, string>, localIP: string, serviceName: string, pairs: seq<ServicePair>)
  {
    forall i :: 0 <= i < |pairs| ==>
      var r := pairs[i].service.remotePort;
      && pairs[i].name == serviceName + "-" + r
      && pairs[i].service == Service("tcp", r, localIP, Lookup(inv, r))
  }

  lemma {:induction false} PairsFit(localIP: string, inv: map<string, string>, serviceName: string, ports: seq<int>)
    ensures PairsOfService(inv, localIP, serviceName, Pairs(localIP, inv, serviceName, ports))
  {
    if ports != [] {
      PairsFit(localIP, inv, serviceName, ports[..|ports| - 1]);
    }
  }

  lemma NameIsNotCommon(serviceName: string, r: string)
    ensures serviceName + "-" + r != "common"
  {
    assert (serviceName + "-" + r)[|serviceName|] == '-';
    assert forall i :: 0 <= i < |COMMON| ==> COMMON[i] != '-';
  }

  lemma NameInjective(serviceName: string, r: string, r': string)
    ensures serviceName + "-" + r == serviceName + "-" + r' <==> r == r'
  {
    assert (serviceName + "-" + r)[|serviceName| + 1..] == r;
    assert (serviceName + "-" + r')[|serviceName| + 1..] == r';
  }

  function RemotePorts(pairs: seq<ServicePair>): set<string> {
    set i | 0 <= i < |pairs| :: pairs[i].service.remotePort
  }

  lemma RemotePortsAdd(pairs: seq<ServicePair>)
    requires pairs != []
    ensures RemotePorts(pairs) == RemotePorts(pairs[..|pairs| - 1]) + {pairs[|pairs| - 1].service.remotePort}
  {
    var n := |pairs| - 1;
    forall r
      ensures r in RemotePorts(pairs) <==> r in RemotePorts(pairs[..n]) || r == pairs[n].service.remotePort
    {
      if r in RemotePorts(pairs[..n]) {
        var i :| 0 <= i < n && pairs[..n][i].service.remotePort == r;
        assert pairs[i].service.remotePort == r;
      }
      if r in RemotePorts(pairs) && r != pairs[n].service.remotePort {
        var i :| 0 <= i < |pairs| && pairs[i].service.remotePort == r;
        assert pairs[..n][i].service.remotePort == r;
      }
    }
  }

  lemma {:induction false} SectionNames(
      common: Common, inv: map<string, string>, localIP: string, serviceName: string, pairs: seq<ServicePair>,
      r: string)
    requires PairsOfService(inv, localIP, serviceName, pairs)
    ensures serviceName + "-" + r in Sections(common, pairs) <==> r in RemotePorts(pairs)
  {
    if pairs == [] {
      NameIsNotCommon(serviceName, r);
    } else {
      var n := |pairs| - 1;
      RemotePortsAdd(pairs);
      SectionNames(common, inv, localIP, serviceName, pairs[..n], r);
      NameInjective(serviceName, r, pairs[n].service.remotePort);
    }
  }

  lemma AddedKey<K, V>(m: map<K, V>, k: K, v: V)
    ensures |m[k := v]| == |m| + (if k in m then 0 else 1)
  {
    if k in m {
      assert m[k := v].Keys == m.Keys;
      assert |m[k := v]| == |m[k := v].Keys| && |m| == |m.Keys|;
    }
  }

  lemma {:induction false} SectionCount(
      common: Common, inv: map<string, string>, localIP: string, serviceName: string, pairs: seq<ServicePair>)
    requires PairsOfService(inv, localIP, serviceName, pairs)
    ensures |Sections(common, pairs)| == 1 + |RemotePorts(pairs)|
  {
    if pairs != [] {
      var n := |pairs| - 1;
      var front, last := pairs[..n], pairs[n];
      SectionCount(common, inv, localIP, serviceName, front);
      SectionNames(common, inv, localIP, serviceName, front, last.service.remotePort);
      AddedKey(Sections(common, front), last.name, ServiceSection(last.service));
      RemotePortsAdd(pairs);
      if last.service.remotePort in RemotePorts(front) {
        assert RemotePorts(pairs) == RemotePorts(front);
      }
    }
  }

  /** For every iteration order, the sections built from the pairs of a service keep the common section
      and every pair, and are one more than the distinct ports selected. */
  lemma PipelineKeepsSections(
      common: Common, m: map<string, string>, order: seq<string>, localIP: string, serviceName: string, ports: seq<int>)
    requires IsOrder(m, order)
    ensures var pairs := Pairs(localIP, Inverted(m, order), serviceName, ports);
      AllKept(common, pairs) && |Sections(common, pairs)| == 1 + |RemotePorts(pairs)|
  {
    var inv := Inverted(m, order);
    var pairs := Pairs(localIP, inv, serviceName, ports);
    PairsFit(localIP, inv, serviceName, ports);
    SectionCount(common, inv, localIP, serviceName, pairs);
    forall i | 0 <= i < |pairs|
      ensures pairs[i].name != COMMON
    {
      NameIsNotCommon(serviceName, pairs[i].service.remotePort);
    }
    forall i, j | 0 <= i < j < |pairs|
      ensures !Clash(pairs[i], pairs[j])
    {
      NameInjective(serviceName, pairs[i].service.remotePort, pairs[j].service.remotePort);
    }
    NoSectionLostIff(common, pairs);
  }

  // ---------- The resource spec ----------

  const KUBETUNNEL_SLUG := "kubetunnel"

  /** The caller's label map, which the spec goes on sharing. */
  class LabelMap {
    var labels: map<string, string>
  }

  datatype ResourceSpec = ResourceSpec(ports: seq<string>, serviceName: string, podLabels: LabelMap)

  /** Builds the spec of a service; writes one label into the caller's own map. */
  method ToKubeTunnelResourceSpec(serviceName: string, ports: seq<int>, podLabels: LabelMap)
    returns (spec: ResourceSpec)
    modifies podLabels
    ensures spec.ports == SpecPorts(ports) && spec.serviceName == serviceName && spec.podLabels == podLabels
    ensures podLabels.labels.Keys == old(podLabels.labels.Keys) + {"kubetunnel"}
    ensures podLabels.labels["kubetunnel"] == serviceName
    ensures forall k :: k in old(podLabels.labels) && k != "kubetunnel" ==>
      podLabels.labels[k] == old(podLabels.labels[k])
  {
    podLabels.labels := podLabels.labels[KUBETUNNEL_SLUG := serviceName];
    spec := ResourceSpec(SpecPorts(ports), serviceName, podLabels);
  }
}
