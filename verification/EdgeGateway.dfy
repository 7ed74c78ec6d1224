/** External networks of an edge gateway between the Terraform state and the API:
    vcd/resource_vcd_edgegateway.go. The state nests sets three deep (external_network,
    subnet, suballocate_pool); the API nests lists. */
module EdgeGateway {
  import opened Options

  // --------------------------------------------------------------- the state

  datatype Pool = Pool(startAddress: string, endAddress: string)

  /** `ipAddress` is "" when the block does not set it. */
  datatype Subnet = Subnet(
    gateway: string, netmask: string, useForDefaultRoute: bool, ipAddress: string, pools: set<Pool>)

  datatype Block = Block(
    name: string, enableRateLimit: bool, incomingRateLimit: real, outgoingRateLimit: real,
    subnets: set<Subnet>)

  // ----------------------------------------------------------------- the API

  datatype SubnetParticipation = SubnetParticipation(
    gateway: string, netmask: string, useForDefaultRoute: bool, ipAddress: string,
    ipRanges: Option<seq<Pool>>)

  datatype Interface = Interface(
    networkName: string, interfaceType: string, useForDefaultRoute: bool,
    applyRateLimit: bool, inRateLimit: real, outRateLimit: real,
    subnets: seq<SubnetParticipation>)

  const UPLINK := "uplink"

  function SubnetOf(p: SubnetParticipation): Subnet {
    Subnet(p.gateway, p.netmask, p.useForDefaultRoute, p.ipAddress,
           if p.ipRanges.Some? then Elements(p.ipRanges.value) else {})
  }

  function SubnetsOf(ps: seq<SubnetParticipation>): set<Subnet> {
    set p | p in ps :: SubnetOf(p)
  }

  /** The block an interface spells out, all of its addresses included. */
  function BlockOf(i: Interface): Block {
    Block(i.networkName, i.applyRateLimit, i.inRateLimit, i.outRateLimit, SubnetsOf(i.subnets))
  }

  /** Field by field: which attribute of a block is which of an interface. */
  lemma BlockOfIs(i: Interface)
    ensures var b := BlockOf(i);
            && b.name == i.networkName && b.enableRateLimit == i.applyRateLimit
            && b.incomingRateLimit == i.inRateLimit && b.outgoingRateLimit == i.outRateLimit
            && forall s: Subnet :: s in b.subnets
                           <==> exists p :: p in i.subnets
                                            && s.gateway == p.gateway && s.netmask == p.netmask
                                            && s.useForDefaultRoute == p.useForDefaultRoute
                                            && s.ipAddress == p.ipAddress
                                            && s.pools == (if p.ipRanges.Some? then Elements(p.ipRanges.value) else {})
  {
    forall s: Subnet, p: SubnetParticipation | p in i.subnets
                  && s.gateway == p.gateway && s.netmask == p.netmask
                  && s.useForDefaultRoute == p.useForDefaultRoute && s.ipAddress == p.ipAddress
                  && s.pools == (if p.ipRanges.Some? then Elements(p.ipRanges.value) else {})
      ensures s in BlockOf(i).subnets
    {
      assert s == SubnetOf(p);
    }
  }

  // ------------------------------------------------------- state to API: loops

  /** A set is listed in an order of its own; the loops take what comes. */
  method GetGatewayInterfaceIpRangeType(pools: set<Pool>) returns (ranges: seq<Pool>)
    ensures Elements(ranges) == pools && |ranges| == |pools|
  {
    ranges := [];
    var rest := pools;
    while rest != {}
      invariant rest <= pools && Elements(ranges) == pools - rest && |ranges| == |pools| - |rest|
      decreases rest
    {
      var pool :| pool in rest;
      ghost var before := ranges;
      ranges := ranges + [pool];
      assert Elements(ranges) == Elements(before) + {pool};
      rest := rest - {pool};
    }
  }

  method GetSubnetParticipation(s: Subnet) returns (p: SubnetParticipation)
    ensures SubnetOf(p) == s
    ensures p.ipRanges.None? <==> s.pools == {}
  {
    p := SubnetParticipation(s.gateway, s.netmask, s.useForDefaultRoute, s.ipAddress, None);
    var ranges := GetGatewayInterfaceIpRangeType(s.pools);
    if |ranges| > 0 {
      p := p.(ipRanges := Some(ranges));
    }
  }

  predicate AnyDefault(subnets: set<Subnet>) {
    exists s :: s in subnets && s.useForDefaultRoute
  }

  /** The flag is set when some subnet is used for the default route. */
  method GetGatewayInterfaceSubnetParticipationType(subnets: set<Subnet>)
    returns (ps: seq<SubnetParticipation>, usedForDefaultRoute: bool)
    ensures SubnetsOf(ps) == subnets && |ps| == |subnets|
    ensures usedForDefaultRoute <==> AnyDefault(subnets)
  {
    ps, usedForDefaultRoute := [], false;
    var rest := subnets;
    while rest != {}
      invariant rest <= subnets && SubnetsOf(ps) == subnets - rest && |ps| == |subnets| - |rest|
      invariant usedForDefaultRoute <==> AnyDefault(subnets - rest)
      decreases rest
    {
      var s :| s in rest;
      var p := GetSubnetParticipation(s);
      if s.useForDefaultRoute {
        usedForDefaultRoute := true;
      }
      SubnetsOfSnoc(ps, p);
      assert subnets - (rest - {s}) == (subnets - rest) + {s};
      ps := ps + [p];
      rest := rest - {s};
    }
    assert subnets - {} == subnets;
  }

  lemma SubnetsOfSnoc(ps: seq<SubnetParticipation>, p: SubnetParticipation)
    ensures SubnetsOf(ps + [p]) == SubnetsOf(ps) + {SubnetOf(p)}
  {
    assert forall q :: q in ps + [p] <==> q in ps || q == p;
  }

  function BlocksOf(interfaces: seq<Interface>): set<Block> {
    set i | i in interfaces :: BlockOf(i)
  }

  lemma BlocksOfSnoc(interfaces: seq<Interface>, i: Interface)
    ensures BlocksOf(interfaces + [i]) == BlocksOf(interfaces) + {BlockOf(i)}
  {
    assert forall j :: j in interfaces + [i] <==> j in interfaces || j == i;
  }

  predicate WellWritten(i: Interface) {
    && i.interfaceType == UPLINK
    && (i.useForDefaultRoute <==> AnyDefault(BlockOf(i).subnets))
  }

  /** Every block names an external network the server knows. */
  predicate Known(networks: set<string>, blocks: set<Block>) {
    forall b :: b in blocks ==> b.name in networks
  }

  /** One block with all its subnets. */
  method GetGatewayInterfaceType(b: Block) returns (i: Interface)
    ensures BlockOf(i) == b && WellWritten(i)
  {
    var ps, usedForDefaultRoute := GetGatewayInterfaceSubnetParticipationType(b.subnets);
    i := Interface(b.name, UPLINK, usedForDefaultRoute,
                   b.enableRateLimit, b.incomingRateLimit, b.outgoingRateLimit, ps);
    assert BlockOf(i) == b;
  }

  /** One interface per block, spelling out exactly that block; fails exactly when a
      network cannot be looked up. */
  method GetGatewayInterfacesType(networks: set<string>, blocks: set<Block>) returns (r: Result<seq<Interface>>)
    ensures r.Ok? <==> Known(networks, blocks)
    ensures r.Ok? ==> BlocksOf(r.value) == blocks && |r.value| == |blocks|
    ensures r.Ok? ==> forall i :: i in r.value ==> WellWritten(i)
    ensures r.Ok? ==> forall i :: i in r.value ==>
                        && i.interfaceType == "uplink"
                        && (i.useForDefaultRoute <==> exists p :: p in i.subnets && p.useForDefaultRoute)
  {
    hide WellWritten;
    var interfaces := [];
    var rest := blocks;
    while rest != {}
      invariant rest <= blocks && BlocksOf(interfaces) == blocks - rest && |interfaces| == |blocks| - |rest|
      invariant forall i :: i in interfaces ==> WellWritten(i)
      invariant Known(networks, blocks - rest)
      decreases rest
    {
      var b :| b in rest;
      if b.name !in networks {
        return Err;
      }
      var i := GetGatewayInterfaceType(b);
      BlocksOfSnoc(interfaces, i);
      interfaces := interfaces + [i];
      rest := rest - {b};
    }
    WellWrittenIs(interfaces);
    return Ok(interfaces);
  }

  lemma WellWrittenIs(interfaces: seq<Interface>)
    requires forall i :: i in interfaces ==> WellWritten(i)
    ensures forall i :: i in interfaces ==>
              && i.interfaceType == "uplink"
              && (i.useForDefaultRoute <==> exists p :: p in i.subnets && p.useForDefaultRoute)
  {
    forall i | i in interfaces
      ensures i.useForDefaultRoute <==> exists p :: p in i.subnets && p.useForDefaultRoute
    {
      DefaultOfInterface(i);
    }
  }

  lemma DefaultOfInterface(i: Interface)
    ensures AnyDefault(BlockOf(i).subnets) <==> exists p :: p in i.subnets && p.useForDefaultRoute
  {
    if p :| p in i.subnets && p.useForDefaultRoute {
      assert SubnetOf(p) in BlockOf(i).subnets;
    }
  }

  // ------------------------------------------------------- API to state: loops

  /** The configuration sets an address for this subnet of this network. */
  predicate IpConfigured(config: set<Block>, name: string, gateway: string, netmask: string) {
    exists b :: b in config && b.name == name
                && exists s :: s in b.subnets && s.gateway == gateway && s.netmask == netmask && s.ipAddress != ""
  }

  predicate IpInParticipations(ps: seq<SubnetParticipation>, gateway: string, netmask: string) {
    exists p :: p in ps && p.gateway == gateway && p.netmask == netmask && p.ipAddress != ""
  }

  predicate IpInInterfaces(interfaces: seq<Interface>, name: string, gateway: string, netmask: string) {
    exists i :: i in interfaces && i.networkName == name && IpInParticipations(i.subnets, gateway, netmask)
  }

  lemma InterfacesTellConfigured(interfaces: seq<Interface>, name: string, gateway: string, netmask: string)
    ensures IpInInterfaces(interfaces, name, gateway, netmask)
            <==> IpConfigured(BlocksOf(interfaces), name, gateway, netmask)
  {
    if IpInInterfaces(interfaces, name, gateway, netmask) {
      var i :| i in interfaces && i.networkName == name && IpInParticipations(i.subnets, gateway, netmask);
      var p :| p in i.subnets && p.gateway == gateway && p.netmask == netmask && p.ipAddress != "";
      assert BlockOf(i) in BlocksOf(interfaces) && SubnetOf(p) in BlockOf(i).subnets;
    }
  }

  method WasIpAddressSet(networks: set<string>, config: set<Block>, name: string, gateway: string, netmask: string)
    returns (r: Result<bool>)
    ensures r.Ok? <==> Known(networks, config)
    ensures r.Ok? ==> r.value == IpConfigured(config, name, gateway, netmask)
  {
    var interfaces := GetGatewayInterfacesType(networks, config);
    if interfaces.Err? {
      return Err;
    }
    InterfacesTellConfigured(interfaces.value, name, gateway, netmask);
    for k := 0 to |interfaces.value|
      invariant !IpInInterfaces(interfaces.value[..k], name, gateway, netmask)
    {
      var i := interfaces.value[k];
      assert interfaces.value[..k + 1] == interfaces.value[..k] + [i];
      if i.networkName == name {
        for kk := 0 to |i.subnets|
          invariant !IpInParticipations(i.subnets[..kk], gateway, netmask)
        {
          var p := i.subnets[kk];
          assert i.subnets[..kk + 1] == i.subnets[..kk] + [p];
          if p.gateway == gateway && p.netmask == netmask {
            if p.ipAddress != "" {
              assert i in interfaces.value && p in i.subnets;
              return Ok(true);
            }
          }
        }
        assert i.subnets[..|i.subnets|] == i.subnets;
      }
    }
    assert interfaces.value[..|interfaces.value|] == interfaces.value;
    return Ok(false);
  }

  function ReadSubnet(config: set<Block>, name: string, s: Subnet): Subnet {
    if IpConfigured(config, name, s.gateway, s.netmask) then s else s.(ipAddress := "")
  }

  function ReadBlock(config: set<Block>, b: Block): Block {
    b.(subnets := set s | s in b.subnets :: ReadSubnet(config, b.name, s))
  }

  /** Field by field: what is read of a block, and of its subnets, is what the server says,
      save for the addresses for which the configuration has none. */
  lemma ReadBlockIs(config: set<Block>, b: Block)
    ensures var read := ReadBlock(config, b);
            && read.name == b.name && read.enableRateLimit == b.enableRateLimit
            && read.incomingRateLimit == b.incomingRateLimit && read.outgoingRateLimit == b.outgoingRateLimit
            && forall s :: s in read.subnets
                           <==> exists t :: t in b.subnets
                                            && s.gateway == t.gateway && s.netmask == t.netmask
                                            && s.useForDefaultRoute == t.useForDefaultRoute && s.pools == t.pools
                                            && s.ipAddress
                                               == (if exists c, u ::
                                                        (c in config && c.name == b.name && u in c.subnets
                                                         && u.gateway == t.gateway && u.netmask == t.netmask
                                                         && u.ipAddress != "")
                                                   then t.ipAddress else "")
  {
    forall t | t in b.subnets
      ensures IpConfigured(config, b.name, t.gateway, t.netmask)
              <==> exists c, u :: (c in config && c.name == b.name && u in c.subnets
                                   && u.gateway == t.gateway && u.netmask == t.netmask && u.ipAddress != "")
    {
    }
    forall s: Subnet, t: Subnet | t in b.subnets && s == ReadSubnet(config, b.name, t)
      ensures s in ReadBlock(config, b).subnets
    {
    }
  }

  /** The transit interface the server adds for distributed routing. */
  function DlrName(edgeGateway: string): string {
    "DLR_to_EDGE_" + edgeGateway
  }

  predicate Skipped(i: Interface, distributed: bool, edgeGateway: string) {
    i.interfaceType != UPLINK || (distributed && i.networkName == DlrName(edgeGateway))
  }

  method GetExternalNetworkSubnetTypeSet(networks: set<string>, config: set<Block>, name: string,
                                         ps: seq<SubnetParticipation>)
    returns (r: Result<set<Subnet>>)
    ensures r.Ok? <==> ps == [] || Known(networks, config)
    ensures r.Ok? ==> r.value == (set s | s in SubnetsOf(ps) :: ReadSubnet(config, name, s))
  {
    var subnets: set<Subnet> := {};
    for k := 0 to |ps|
      invariant subnets == (set s | s in SubnetsOf(ps[..k]) :: ReadSubnet(config, name, s))
      invariant k > 0 ==> Known(networks, config)
    {
      var p := ps[k];
      assert ps[..k + 1] == ps[..k] + [p];
      SubnetsOfSnoc(ps[..k], p);
      var s := Subnet(p.gateway, p.netmask, p.useForDefaultRoute, "", {});
      var wasSet := WasIpAddressSet(networks, config, name, p.gateway, p.netmask);
      if wasSet.Err? {
        return Err;
      }
      if wasSet.value {
        s := s.(ipAddress := p.ipAddress);
      }
      if p.ipRanges.Some? && |p.ipRanges.value| > 0 {
        s := s.(pools := Elements(p.ipRanges.value));
      }
      assert s == ReadSubnet(config, name, SubnetOf(p));
      subnets := subnets + {s};
    }
    assert ps[..|ps|] == ps;
    return Ok(subnets);
  }

  /** The blocks the read stores: those of the uplinks that are not the transit
      interface and have a subnet, without the addresses nobody configured. */
  function ReadBlocks(config: set<Block>, distributed: bool, edgeGateway: string,
                      interfaces: seq<Interface>): set<Block>
  {
    set i | i in interfaces && !Skipped(i, distributed, edgeGateway) && i.subnets != [] :: ReadBlock(config, BlockOf(i))
  }

  /** Fails exactly when there is something to read and a configured network is unknown. */
  method GetExternalNetworkData(networks: set<string>, config: set<Block>, distributed: bool, edgeGateway: string,
                                interfaces: seq<Interface>)
    returns (r: Result<set<Block>>)
    ensures r.Ok? <==> Known(networks, config) || ReadBlocks(config, distributed, edgeGateway, interfaces) == {}
    ensures r.Ok? ==> r.value == ReadBlocks(config, distributed, edgeGateway, interfaces)
  {
    var blocks: set<Block> := {};
    for k := 0 to |interfaces|
      invariant blocks == ReadBlocks(config, distributed, edgeGateway, interfaces[..k])
      invariant blocks != {} ==> Known(networks, config)
    {
      var i := interfaces[k];
      assert interfaces[..k + 1] == interfaces[..k] + [i];
      ReadBlocksSnoc(config, distributed, edgeGateway, interfaces[..k], i);
      if i.interfaceType != UPLINK {
        continue;
      }
      if distributed && i.networkName == DlrName(edgeGateway) {
        continue;
      }
      if |i.subnets| > 0 {
        var subnets := GetExternalNetworkSubnetTypeSet(networks, config, i.networkName, i.subnets);
        if subnets.Err? {
          assert ReadBlock(config, BlockOf(i)) in ReadBlocks(config, distributed, edgeGateway, interfaces);
          return Err;
        }
        blocks := blocks + {Block(i.networkName, i.applyRateLimit, i.inRateLimit, i.outRateLimit, subnets.value)};
      }
    }
    assert interfaces[..|interfaces|] == interfaces;
    return Ok(blocks);
  }

  lemma ReadBlocksSnoc(config: set<Block>, distributed: bool, edgeGateway: string,
                       interfaces: seq<Interface>, i: Interface)
    ensures ReadBlocks(config, distributed, edgeGateway, interfaces + [i])
            == ReadBlocks(config, distributed, edgeGateway, interfaces)
               + (if !Skipped(i, distributed, edgeGateway) && i.subnets != []
                  then {ReadBlock(config, BlockOf(i))} else {})
  {
    assert forall j :: j in interfaces + [i] <==> j in interfaces || j == i;
  }

  // ----------------------------------------------------------- the round trip

  /** The server may choose an address for a subnet that was written without one. */
  type Fill = (Block, Subnet) -> string

  function FillSubnet(fill: Fill, b: Block, s: Subnet): Subnet {
    if s.ipAddress == "" then s.(ipAddress := fill(b, s)) else s
  }

  function FillBlock(fill: Fill, b: Block): Block {
    b.(subnets := set s | s in b.subnets :: FillSubnet(fill, b, s))
  }

  predicate SkippedBlock(b: Block, distributed: bool, edgeGateway: string) {
    distributed && b.name == DlrName(edgeGateway)
  }

  /** What the server returns for written interfaces: in any order, with any interfaces
      of other types and any transit interfaces added, the written blocks with their
      missing addresses filled in. */
  ghost predicate ServerReturns(written: seq<Interface>, returned: seq<Interface>, fill: Fill,
                                distributed: bool, edgeGateway: string)
  {
    (set i | i in returned && i.interfaceType == "uplink"
             && !(distributed && i.networkName == "DLR_to_EDGE_" + edgeGateway) :: BlockOf(i))
    == (set b | b in BlocksOf(written)
                && !(distributed && b.name == "DLR_to_EDGE_" + edgeGateway) :: FillBlock(fill, b))
  }

  /** One configured block, after the server and the read. */
  function Back(config: set<Block>, fill: Fill, b: Block): Block {
    ReadBlock(config, FillBlock(fill, b))
  }

  function BackSubnet(config: set<Block>, fill: Fill, b: Block, s: Subnet): Subnet {
    ReadSubnet(config, b.name, FillSubnet(fill, b, s))
  }

  /** The block comes back as it was: it is kept at all, and none of its unset addresses
      is injected. */
  predicate Survives(config: set<Block>, fill: Fill, distributed: bool, edgeGateway: string, b: Block) {
    && b.subnets != {}
    && !SkippedBlock(b, distributed, edgeGateway)
    && forall s :: s in b.subnets && s.ipAddress == "" ==>
         fill(b, s) == "" || !IpConfigured(config, b.name, s.gateway, s.netmask)
  }

  lemma BackSubnets(config: set<Block>, fill: Fill, b: Block)
    ensures Back(config, fill, b) == b.(subnets := set s | s in b.subnets :: BackSubnet(config, fill, b, s))
  {
    var filled := FillBlock(fill, b);
    var direct := set s | s in b.subnets :: BackSubnet(config, fill, b, s);
    forall x | x in Back(config, fill, b).subnets ensures x in direct {
      var f :| f in filled.subnets && x == ReadSubnet(config, b.name, f);
      var s :| s in b.subnets && f == FillSubnet(fill, b, s);
      assert x == BackSubnet(config, fill, b, s);
    }
    forall x | x in direct ensures x in Back(config, fill, b).subnets {
      var s :| s in b.subnets && x == BackSubnet(config, fill, b, s);
      assert FillSubnet(fill, b, s) in filled.subnets;
    }
  }

  /** A configured address is kept; an unset one stays unset or is injected. */
  lemma BackSubnetCases(config: set<Block>, fill: Fill, b: Block, s: Subnet)
    requires b in config && s in b.subnets
    ensures var back := BackSubnet(config, fill, b, s);
            && back == s.(ipAddress := back.ipAddress)
            && (back == s
                <==> s.ipAddress != "" || fill(b, s) == "" || !IpConfigured(config, b.name, s.gateway, s.netmask))
            && (back.ipAddress == "" ==> back == s)
  {
    if s.ipAddress != "" {
      assert IpConfigured(config, b.name, s.gateway, s.netmask);
    }
  }

  function Unset(b: Block): (subnets: set<Subnet>) {
    set s | s in b.subnets && s.ipAddress == ""
  }

  /** A block either comes back unchanged or with fewer unset addresses. */
  lemma BackLosesUnset(config: set<Block>, fill: Fill, b: Block)
    requires b in config
    ensures Back(config, fill, b) == b <==> forall s :: s in b.subnets ==> BackSubnet(config, fill, b, s) == s
    ensures Unset(Back(config, fill, b)) <= Unset(b)
    ensures Back(config, fill, b) != b ==> Unset(Back(config, fill, b)) != Unset(b)
  {
    BackSubnets(config, fill, b);
    forall s | s in b.subnets
      ensures BackSubnet(config, fill, b, s).ipAddress == "" ==> BackSubnet(config, fill, b, s) == s
      ensures BackSubnet(config, fill, b, s) == s.(ipAddress := BackSubnet(config, fill, b, s).ipAddress)
      ensures BackSubnet(config, fill, b, s) != s ==> s.ipAddress == ""
    {
      BackSubnetCases(config, fill, b, s);
    }
    var back := Back(config, fill, b);
    if s :| s in b.subnets && BackSubnet(config, fill, b, s) != s {
      assert forall t :: t in b.subnets && BackSubnet(config, fill, b, t) == s ==> t == s;
      assert s in Unset(b) && s !in Unset(back);
    } else {
      assert back.subnets == b.subnets;
    }
  }

  lemma SubsetCardinality<T>(a: set<T>, b: set<T>)
    requires a <= b
    ensures |a| <= |b| && (a != b ==> |a| < |b|)
  {
    assert b == a + (b - a);
    if a != b {
      assert b - a != {};
    }
  }

  function Image(blocks: set<Block>, f: Block -> Block): set<Block> {
    set b | b in blocks :: f(b)
  }

  /** A map of a finite set onto itself that never raises a weight, and lowers it
      wherever it is not the identity, is the identity. */
  lemma {:induction false} OntoAndLighterIsIdentity(blocks: set<Block>, f: Block -> Block, weight: Block -> nat)
    requires blocks <= Image(blocks, f)
    requires forall b :: b in blocks && f(b) != b ==> weight(f(b)) < weight(b)
    ensures forall b :: b in blocks ==> f(b) == b
    decreases |blocks|
  {
    if blocks != {} {
      var m := Heaviest(blocks, weight);
      assert m in Image(blocks, f);
      var c :| c in blocks && f(c) == m;
      assert weight(c) <= weight(m);
      assert f(m) == m;
      OntoWithoutFixpoint(blocks, f, m);
      OntoAndLighterIsIdentity(blocks - {m}, f, weight);
    }
  }

  lemma OntoWithoutFixpoint(blocks: set<Block>, f: Block -> Block, m: Block)
    requires blocks <= Image(blocks, f) && m in blocks && f(m) == m
    ensures blocks - {m} <= Image(blocks - {m}, f)
  {
    forall b | b in blocks - {m} ensures b in Image(blocks - {m}, f) {
      assert b in Image(blocks, f);
      var d :| d in blocks && f(d) == b;
      assert d in blocks - {m};
    }
  }

  lemma {:induction false} Heaviest(blocks: set<Block>, weight: Block -> nat) returns (m: Block)
    requires blocks != {}
    ensures m in blocks && forall b :: b in blocks ==> weight(b) <= weight(m)
    decreases |blocks|
  {
    var x :| x in blocks;
    var rest := blocks - {x};
    if rest == {} {
      assert blocks == {x};
      m := x;
    } else {
      var y := Heaviest(rest, weight);
      m := if weight(x) <= weight(y) then y else x;
      assert blocks == rest + {x};
    }
  }

  /** The blocks the read does not drop. */
  function Kept(config: set<Block>, distributed: bool, edgeGateway: string): set<Block> {
    set b | b in config && !SkippedBlock(b, distributed, edgeGateway) && b.subnets != {}
  }

  function Returning(config: set<Block>, fill: Fill): Block -> Block {
    b => Back(config, fill, b)
  }

  lemma ServerReturnsUnskipped(written: seq<Interface>, returned: seq<Interface>, fill: Fill,
                               distributed: bool, edgeGateway: string)
    requires ServerReturns(written, returned, fill, distributed, edgeGateway)
    ensures (set i | i in returned && !Skipped(i, distributed, edgeGateway) :: BlockOf(i))
            == (set b | b in BlocksOf(written) && !SkippedBlock(b, distributed, edgeGateway) :: FillBlock(fill, b))
  {
    assert (set i | i in returned && i.interfaceType == "uplink"
                    && !(distributed && i.networkName == "DLR_to_EDGE_" + edgeGateway) :: BlockOf(i))
           == (set i | i in returned && !Skipped(i, distributed, edgeGateway) :: BlockOf(i));
    assert (set b | b in BlocksOf(written)
                    && !(distributed && b.name == "DLR_to_EDGE_" + edgeGateway) :: FillBlock(fill, b))
           == (set b | b in BlocksOf(written) && !SkippedBlock(b, distributed, edgeGateway) :: FillBlock(fill, b));
  }

  /** What the read stores, in terms of the configured blocks. */
  lemma ReadIsImage(config: set<Block>, written: seq<Interface>, returned: seq<Interface>, fill: Fill,
                    distributed: bool, edgeGateway: string)
    requires BlocksOf(written) == config && ServerReturns(written, returned, fill, distributed, edgeGateway)
    ensures ReadBlocks(config, distributed, edgeGateway, returned)
            == Image(Kept(config, distributed, edgeGateway), Returning(config, fill))
  {
    var read := ReadBlocks(config, distributed, edgeGateway, returned);
    var kept, f := Kept(config, distributed, edgeGateway), Returning(config, fill);
    var image := Image(kept, f);
    var seen := set i | i in returned && !Skipped(i, distributed, edgeGateway) :: BlockOf(i);
    assert seen == (set b | b in config && !SkippedBlock(b, distributed, edgeGateway) :: FillBlock(fill, b)) by {
      ServerReturnsUnskipped(written, returned, fill, distributed, edgeGateway);
    }
    hide ServerReturns;
    forall x | x in read ensures x in image {
      var i :| i in returned && !Skipped(i, distributed, edgeGateway) && i.subnets != []
               && x == ReadBlock(config, BlockOf(i));
      assert SubnetOf(i.subnets[0]) in BlockOf(i).subnets;
      assert BlockOf(i) in seen;
      var b :| b in config && !SkippedBlock(b, distributed, edgeGateway) && FillBlock(fill, b) == BlockOf(i);
      var s :| s in FillBlock(fill, b).subnets;
      assert b in kept && x == f(b);
    }
    forall x | x in image ensures x in read {
      var b :| b in kept && x == f(b);
      assert FillBlock(fill, b) in seen;
      var i :| i in returned && !Skipped(i, distributed, edgeGateway) && BlockOf(i) == FillBlock(fill, b);
      var s :| s in b.subnets;
      assert FillSubnet(fill, b, s) in BlockOf(i).subnets;
      assert i.subnets != [];
    }
  }

  lemma SurvivesIff(config: set<Block>, fill: Fill, distributed: bool, edgeGateway: string, b: Block)
    requires b in config
    ensures Survives(config, fill, distributed, edgeGateway, b)
            <==> !SkippedBlock(b, distributed, edgeGateway) && b.subnets != {} && Back(config, fill, b) == b
  {
    BackLosesUnset(config, fill, b);
    forall s | s in b.subnets
      ensures BackSubnet(config, fill, b, s) == s
              <==> s.ipAddress != "" || fill(b, s) == "" || !IpConfigured(config, b.name, s.gateway, s.netmask)
    {
      BackSubnetCases(config, fill, b, s);
    }
  }

  lemma OntoBackIsIdentity(config: set<Block>, fill: Fill)
    requires config <= Image(config, Returning(config, fill))
    ensures forall b :: b in config ==> Back(config, fill, b) == b
  {
    var f := Returning(config, fill);
    var weight := (b: Block) => |Unset(b)|;
    forall b | b in config && f(b) != b ensures weight(f(b)) < weight(b) {
      BackLosesUnset(config, fill, b);
      SubsetCardinality(Unset(f(b)), Unset(b));
    }
    OntoAndLighterIsIdentity(config, f, weight);
  }

  /** The round trip: what is read back equals the configuration exactly when every
      configured block survives. */
  lemma RoundTripIff(config: set<Block>, written: seq<Interface>, returned: seq<Interface>, fill: Fill,
                     distributed: bool, edgeGateway: string)
    requires BlocksOf(written) == config && ServerReturns(written, returned, fill, distributed, edgeGateway)
    ensures ReadBlocks(config, distributed, edgeGateway, returned) == config
            <==> forall b :: b in config ==> Survives(config, fill, distributed, edgeGateway, b)
  {
    ReadIsImage(config, written, returned, fill, distributed, edgeGateway);
    var kept := Kept(config, distributed, edgeGateway);
    var f := Returning(config, fill);
    var read := ReadBlocks(config, distributed, edgeGateway, returned);
    forall b | b in config
      ensures Survives(config, fill, distributed, edgeGateway, b) <==> b in kept && f(b) == b
    {
      SurvivesIff(config, fill, distributed, edgeGateway, b);
    }
    if read == config {
      ImageIsSmaller(kept, f);
      SubsetCardinality(kept, config);
      assert kept == config;
      OntoBackIsIdentity(config, fill);
    }
    if forall b :: b in config ==> Survives(config, fill, distributed, edgeGateway, b) {
      assert kept == config;
      assert Image(kept, f) == config;
    }
  }

  lemma {:induction false} ImageIsSmaller(part: set<Block>, f: Block -> Block)
    ensures |Image(part, f)| <= |part|
    decreases |part|
  {
    if part == {} {
      assert Image(part, f) == {};
    } else {
      var x :| x in part;
      var rest := part - {x};
      ImageIsSmaller(rest, f);
      assert Image(part, f) == Image(rest, f) + {f(x)};
    }
  }

  /** No address is ever injected, whatever the server fills in, exactly when no subnet
      without an address shares network, gateway and netmask with one that has one. */
  lemma NothingInjectedIff(config: set<Block>, distributed: bool, edgeGateway: string)
    requires forall b :: b in config ==> b.subnets != {} && !SkippedBlock(b, distributed, edgeGateway)
    ensures (forall fill: Fill, b :: b in config ==> Survives(config, fill, distributed, edgeGateway, b))
            <==> forall b, s :: b in config && s in b.subnets && s.ipAddress == "" ==>
                   !IpConfigured(config, b.name, s.gateway, s.netmask)
  {
    if forall fill: Fill, b :: b in config ==> Survives(config, fill, distributed, edgeGateway, b) {
      var always: Fill := (b, s) => "10.0.0.1";
      forall b, s | b in config && s in b.subnets && s.ipAddress == ""
        ensures !IpConfigured(config, b.name, s.gateway, s.netmask)
      {
        assert Survives(config, always, distributed, edgeGateway, b);
      }
    }
  }

  /** In particular the round trip is the identity when network, gateway and netmask
      identify a subnet. */
  lemma UniqueSubnetsComeBack(config: set<Block>, written: seq<Interface>, returned: seq<Interface>, fill: Fill,
                              distributed: bool, edgeGateway: string)
    requires BlocksOf(written) == config && ServerReturns(written, returned, fill, distributed, edgeGateway)
    requires forall b :: b in config ==> b.subnets != {} && !SkippedBlock(b, distributed, edgeGateway)
    requires forall b, c, s, t ::
               (b in config && c in config && s in b.subnets && t in c.subnets
                && b.name == c.name && s.gateway == t.gateway && s.netmask == t.netmask) ==> s == t
    ensures ReadBlocks(config, distributed, edgeGateway, returned) == config
  {
    RoundTripIff(config, written, returned, fill, distributed, edgeGateway);
  }

  // ------------------------------------------------------- writing, then reading

  function FillParticipation(fill: Fill, b: Block, p: SubnetParticipation): SubnetParticipation {
    if p.ipAddress == "" then p.(ipAddress := fill(b, SubnetOf(p))) else p
  }

  /** A server that keeps what was written and fills in the missing addresses. */
  function FillInterfaces(fill: Fill, written: seq<Interface>): (returned: seq<Interface>) {
    seq(|written|, k requires 0 <= k < |written| => FillInterface(fill, written[k]))
  }

  function FillInterface(fill: Fill, i: Interface): Interface {
    i.(subnets := seq(|i.subnets|, k requires 0 <= k < |i.subnets| =>
      FillParticipation(fill, BlockOf(i), i.subnets[k])))
  }

  lemma FilledBlock(fill: Fill, i: Interface)
    ensures BlockOf(FillInterface(fill, i)) == FillBlock(fill, BlockOf(i))
  {
    var b, f := BlockOf(i), FillInterface(fill, i);
    forall x | x in SubnetsOf(f.subnets) ensures x in FillBlock(fill, b).subnets {
      var k :| 0 <= k < |f.subnets| && x == SubnetOf(f.subnets[k]);
      assert SubnetOf(i.subnets[k]) in b.subnets && x == FillSubnet(fill, b, SubnetOf(i.subnets[k]));
    }
    forall x | x in FillBlock(fill, b).subnets ensures x in SubnetsOf(f.subnets) {
      var s :| s in b.subnets && x == FillSubnet(fill, b, s);
      var k :| 0 <= k < |i.subnets| && s == SubnetOf(i.subnets[k]);
      assert x == SubnetOf(f.subnets[k]) && f.subnets[k] in f.subnets;
    }
  }

  lemma FillingServerReturns(written: seq<Interface>, fill: Fill, added: seq<Interface>,
                             distributed: bool, edgeGateway: string)
    requires forall i :: i in written ==> i.interfaceType == "uplink"
    requires forall i :: i in added ==>
               i.interfaceType != "uplink" || (distributed && i.networkName == "DLR_to_EDGE_" + edgeGateway)
    ensures ServerReturns(written, FillInterfaces(fill, written) + added, fill, distributed, edgeGateway)
  {
    var filled, dlr := FillInterfaces(fill, written), "DLR_to_EDGE_" + edgeGateway;
    var returned := filled + added;
    var seen := set i | i in returned && i.interfaceType == "uplink" && !(distributed && i.networkName == dlr)
                        :: BlockOf(i);
    var expected := set b | b in BlocksOf(written) && !(distributed && b.name == dlr) :: FillBlock(fill, b);
    forall x | x in seen ensures x in expected {
      var i :| i in returned && i.interfaceType == "uplink" && !(distributed && i.networkName == dlr)
               && x == BlockOf(i);
      var k :| 0 <= k < |filled| && i == filled[k];
      FilledBlock(fill, written[k]);
      assert BlockOf(written[k]) in BlocksOf(written) && x == FillBlock(fill, BlockOf(written[k]));
    }
    forall x | x in expected ensures x in seen {
      var b :| b in BlocksOf(written) && !(distributed && b.name == dlr) && x == FillBlock(fill, b);
      var k :| 0 <= k < |written| && b == BlockOf(written[k]);
      FilledBlock(fill, written[k]);
      assert written[k] in written && filled[k] in returned;
    }
  }

  /** The whole way: the configured blocks are written, the server fills in missing addresses
      and adds interfaces of its own, and all of them are read. The blocks come back if and
      only if each has a subnet, none has the name of the transit interface of a distributed
      router, and no address is filled in where the configuration has one for the same
      network, gateway and netmask. */
  method WriteThenRead(networks: set<string>, config: set<Block>, distributed: bool, edgeGateway: string,
                       fill: Fill, added: seq<Interface>)
    returns (r: Result<set<Block>>)
    requires forall i :: i in added ==>
               i.interfaceType != "uplink" || (distributed && i.networkName == "DLR_to_EDGE_" + edgeGateway)
    ensures r.Ok? <==> forall b :: b in config ==> b.name in networks
    ensures r.Ok? ==>
              (r.value == config
               <==> forall b :: b in config ==>
                      && b.subnets != {} && !(distributed && b.name == "DLR_to_EDGE_" + edgeGateway)
                      && forall s :: s in b.subnets && s.ipAddress == "" ==>
                           fill(b, s) == ""
                           || !(exists c, u ::
                                  (c in config && c.name == b.name && u in c.subnets
                                   && u.gateway == s.gateway && u.netmask == s.netmask && u.ipAddress != "")))
  {
    var written := GetGatewayInterfacesType(networks, config);
    if written.Err? {
      return Err;
    }
    var returned := FillInterfaces(fill, written.value) + added;
    FillingServerReturns(written.value, fill, added, distributed, edgeGateway);
    RoundTripIff(config, written.value, returned, fill, distributed, edgeGateway);
    SurvivesSpeltOut(config, fill, distributed, edgeGateway);
    hide ServerReturns, Survives, ReadBlocks, WellWritten, BlocksOf, FillInterfaces;
    r := GetExternalNetworkData(networks, config, distributed, edgeGateway, returned);
  }

  lemma SurvivesSpeltOut(config: set<Block>, fill: Fill, distributed: bool, edgeGateway: string)
    ensures (forall b :: b in config ==> Survives(config, fill, distributed, edgeGateway, b))
            <==> forall b :: b in config ==>
                   && b.subnets != {} && !(distributed && b.name == "DLR_to_EDGE_" + edgeGateway)
                   && forall s :: s in b.subnets && s.ipAddress == "" ==>
                        fill(b, s) == ""
                        || !(exists c, u ::
                               (c in config && c.name == b.name && u in c.subnets
                                && u.gateway == s.gateway && u.netmask == s.netmask && u.ipAddress != ""))
  {
    forall b, s | b in config && s in b.subnets
      ensures IpConfigured(config, b.name, s.gateway, s.netmask)
              <==> exists c, u :: (c in config && c.name == b.name && u in c.subnets
                                   && u.gateway == s.gateway && u.netmask == s.netmask && u.ipAddress != "")
    {
    }
  }
}
