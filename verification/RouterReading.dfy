/** What the router's tables say about a VLAN, read without the plan that filled them: interfaces,
    addresses, lists, rules, routes and peers in plain names and numbers. */
module RouterReading {
  import opened Text
  import opened Addressing
  import opened RouterTables
  import opened VlanPlan

  /** The interface has an address record that reads as this block. */
  predicate HasAddress(t: Tables, iface: string, block: Cidr) {
    exists r :: r in t[IpAddress] && ReadsAddress(r, iface, block)
  }

  predicate ReadsAddress(r: Record, iface: string, block: Cidr) {
    && Interface in r && r[Interface] == iface
    && Attr.Address in r && ParseCidr(r[Attr.Address]) == block
  }

  /** The table routes the block to the gateway. */
  predicate HasRoute(t: Tables, table: string, block: Cidr, gateway: string) {
    exists r :: r in t[IpRoute] && ReadsRoute(r, table, block, gateway)
  }

  predicate ReadsRoute(r: Record, table: string, block: Cidr, gateway: string) {
    && RoutingTable in r && r[RoutingTable] == table
    && Attr.DstAddress in r && ParseCidr(r[Attr.DstAddress]) == block
    && Gateway in r && r[Gateway] == gateway
  }

  /** A record with these attributes and, under `k`, this list. */
  predicate HasList(t: Tables, p: Path, attrs: Record, k: Attr, parts: seq<string>) {
    exists r :: r in t[p] && ReadsList(r, attrs, k, parts)
  }

  predicate ReadsList(r: Record, attrs: Record, k: Attr, parts: seq<string>) {
    Matches(r, attrs) && k in r && Split(r[k], ',') == parts
  }

  predicate HasForward(t: Tables, from: string, to: string) {
    HasMatch(t[FirewallFilter],
             map[Chain := "forward", Action := "accept", InInterfaceList := from, OutInterfaceList := to])
  }

  predicate NoCommas(parts: seq<string>) { parts != [] && forall p | p in parts :: ',' !in p }

  /** The VLAN's two interfaces, with the first address of its networks 10.0.x.0/24 and 10.1.x.0/24. */
  predicate HasInterfaces(t: Tables, n: int, cfg: RouterConfig)
    requires VlanInRange(n)
  {
    && HasMatch(t[Wireguard], map[Name := "wireguard" + Itoa(n), ListenPort := Itoa(20000 + n)])
    && HasMatch(t[Vlan], map[Name := "vlan" + Itoa(n), VlanId := Itoa(n), Interface := cfg.vlanBridge])
    && HasMatch(t[BridgeVlan], map[Bridge := cfg.vlanBridge, VlanIds := Itoa(n)])
    && (NoCommas(cfg.taggedBridges) ==>
          HasList(t, BridgeVlan, map[Bridge := cfg.vlanBridge, VlanIds := Itoa(n)], Tagged, cfg.taggedBridges))
    && HasAddress(t, "vlan" + Itoa(n), Cidr(Addressing.Address(10, 0, n - 100, 1), 24))
    && HasAddress(t, "wireguard" + Itoa(n), Cidr(Addressing.Address(10, 1, n - 100, 1), 24))
  }

  /** They share a routing table and an interface list; that list may talk to itself and, both ways, to
      the outside, and the tunnel's port is open. */
  predicate HasRules(t: Tables, n: int) {
    && HasList(t, Vrf, map[Name := "vrf" + Itoa(n)], Interfaces, ["vlan" + Itoa(n), "wireguard" + Itoa(n)])
    && HasMatch(t[InterfaceList], map[Name := "VRF" + Itoa(n)])
    && HasMatch(t[ListMember], map[List := "VRF" + Itoa(n), Interface := "vlan" + Itoa(n)])
    && HasMatch(t[ListMember], map[List := "VRF" + Itoa(n), Interface := "wireguard" + Itoa(n)])
    && HasMatch(t[FirewallFilter], map[Chain := "input", Action := "accept", Protocol := "udp",
                                       DstPort := Itoa(20000 + n), InInterfaceList := "WAN"])
    && HasForward(t, "VRF" + Itoa(n), "WAN")
    && HasForward(t, "VRF" + Itoa(n), "VRF" + Itoa(n))
    && HasForward(t, "WAN", "VRF" + Itoa(n))
  }

  /** The main table leads to the VLAN's network, the VLAN's table to everywhere else. */
  predicate HasRoutes(t: Tables, n: int, cfg: RouterConfig)
    requires VlanInRange(n)
  {
    && HasRoute(t, "main", Cidr(Addressing.Address(10, 0, n - 100, 0), 24), "vlan" + Itoa(n) + "@" + "vrf" + Itoa(n))
    && HasRoute(t, "vrf" + Itoa(n), Cidr(0, 0), cfg.externalGateway + if cfg.gateways.AsGiven? then "@main" else "")
  }

  predicate Serves(t: Tables, n: int, cfg: RouterConfig) {
    VlanInRange(n) && HasInterfaces(t, n, cfg) && HasRules(t, n) && HasRoutes(t, n, cfg)
  }

  // ----- A configured VLAN is served

  lemma EntryIsThere(t: Tables, i: nat, n: int, cfg: RouterConfig)
    requires i < PLAN_SIZE && Present(t, n, cfg)
    ensures VlanEntry(i, n, cfg).attrs in t[VlanEntry(i, n, cfg).path]
  {
  }

  lemma InterfacesAreThere(t: Tables, n: int, cfg: RouterConfig)
    requires VlanInRange(n) && Present(t, n, cfg)
    ensures HasInterfaces(t, n, cfg)
  {
    hide Present, VlanEntry, Itoa, GetVlanGatewayIp, GetVpnGatewayIp, ParseCidr, Split, HasList, HasAddress;
    NamesAreThere(t, n, cfg);
    BridgeIsThere(t, n, cfg);
    AddressesAreThere(t, n, cfg);
  }

  lemma NamesAreThere(t: Tables, n: int, cfg: RouterConfig)
    requires Present(t, n, cfg)
    ensures HasMatch(t[Wireguard], map[Name := "wireguard" + Itoa(n), ListenPort := Itoa(20000 + n)])
    ensures HasMatch(t[Vlan], map[Name := "vlan" + Itoa(n), VlanId := Itoa(n), Interface := cfg.vlanBridge])
  {
    EntryIsThere(t, 0, n, cfg);
    EntryIsThere(t, 1, n, cfg);
    assert 20000 + n == GetVlanRouterPort(n);
  }

  lemma BridgeIsThere(t: Tables, n: int, cfg: RouterConfig)
    requires Present(t, n, cfg)
    ensures HasMatch(t[BridgeVlan], map[Bridge := cfg.vlanBridge, VlanIds := Itoa(n)])
    ensures NoCommas(cfg.taggedBridges)
            ==> HasList(t, BridgeVlan, map[Bridge := cfg.vlanBridge, VlanIds := Itoa(n)], Tagged, cfg.taggedBridges)
  {
    EntryIsThere(t, 4, n, cfg);
    if NoCommas(cfg.taggedBridges) {
      SplitJoin(cfg.taggedBridges, ',');
    }
  }

  lemma AddressesAreThere(t: Tables, n: int, cfg: RouterConfig)
    requires VlanInRange(n) && Present(t, n, cfg)
    ensures HasAddress(t, "vlan" + Itoa(n), Cidr(Addressing.Address(10, 0, n - 100, 1), 24))
    ensures HasAddress(t, "wireguard" + Itoa(n), Cidr(Addressing.Address(10, 1, n - 100, 1), 24))
  {
    hide GetVlanGatewayIp, GetVpnGatewayIp, ParseCidr, Itoa, Addressing.Address, Present;
    EntryIsThere(t, 7, n, cfg);
    EntryIsThere(t, 8, n, cfg);
    GatewaysRead(n, 24);
    assert ReadsAddress(VlanEntry(7, n, cfg).attrs, "vlan" + Itoa(n), Cidr(Addressing.Address(10, 0, n - 100, 1), 24));
    assert ReadsAddress(VlanEntry(8, n, cfg).attrs, "wireguard" + Itoa(n),
                        Cidr(Addressing.Address(10, 1, n - 100, 1), 24));
  }

  lemma NameHasNoComma(prefix: string, n: int)
    requires ',' !in prefix
    ensures ',' !in prefix + Itoa(n)
  {
  }

  lemma RulesAreThere(t: Tables, n: int, cfg: RouterConfig)
    requires Present(t, n, cfg)
    ensures HasRules(t, n)
  {
    hide Present, VlanEntry, Itoa, HasList, HasForward, HasMatch;
    VrfIsThere(t, n, cfg);
    MembersAreThere(t, n, cfg);
    FirewallIsThere(t, n, cfg);
  }

  lemma VrfIsThere(t: Tables, n: int, cfg: RouterConfig)
    requires Present(t, n, cfg)
    ensures HasList(t, Vrf, map[Name := "vrf" + Itoa(n)], Interfaces, ["vlan" + Itoa(n), "wireguard" + Itoa(n)])
  {
    hide Present, Itoa, Split, Join;
    EntryIsThere(t, 3, n, cfg);
    NameHasNoComma("vlan", n);
    NameHasNoComma("wireguard", n);
    SplitJoin([VlanName(n), WireguardName(n)], ',');
    assert ReadsList(VlanEntry(3, n, cfg).attrs, map[Name := "vrf" + Itoa(n)], Interfaces,
                     [VlanName(n), WireguardName(n)]);
  }

  lemma MembersAreThere(t: Tables, n: int, cfg: RouterConfig)
    requires Present(t, n, cfg)
    ensures HasMatch(t[InterfaceList], map[Name := "VRF" + Itoa(n)])
    ensures HasMatch(t[ListMember], map[List := "VRF" + Itoa(n), Interface := "vlan" + Itoa(n)])
    ensures HasMatch(t[ListMember], map[List := "VRF" + Itoa(n), Interface := "wireguard" + Itoa(n)])
  {
    hide Present, Itoa;
    EntryIsThere(t, 2, n, cfg);
    EntryIsThere(t, 5, n, cfg);
    EntryIsThere(t, 6, n, cfg);
  }

  lemma FirewallIsThere(t: Tables, n: int, cfg: RouterConfig)
    requires Present(t, n, cfg)
    ensures HasMatch(t[FirewallFilter], map[Chain := "input", Action := "accept", Protocol := "udp",
                                            DstPort := Itoa(20000 + n), InInterfaceList := "WAN"])
    ensures HasForward(t, "VRF" + Itoa(n), "WAN")
    ensures HasForward(t, "VRF" + Itoa(n), "VRF" + Itoa(n))
    ensures HasForward(t, "WAN", "VRF" + Itoa(n))
  {
    hide Present, Itoa;
    EntryIsThere(t, 9, n, cfg);
    InputRule(n, cfg);
    assert 20000 + n == GetVlanRouterPort(n);
    EntryIsThere(t, 10, n, cfg);
    ForwardRule(10, n, cfg);
    EntryIsThere(t, 11, n, cfg);
    ForwardRule(11, n, cfg);
    EntryIsThere(t, 12, n, cfg);
    ForwardRule(12, n, cfg);
  }

  lemma EverywhereReads()
    ensures ParseCidr("0.0.0.0/0") == Cidr(0, 0)
  {
    SmallNumbers();
    ParseDotted(0, 0, 0, 0, 0);
    assert Dotted("0", "0", "0", "0" + "/" + "0") == "0.0.0.0/0";
  }

  lemma RoutesAreThere(t: Tables, n: int, cfg: RouterConfig)
    requires VlanInRange(n) && Present(t, n, cfg)
    ensures HasRoutes(t, n, cfg)
  {
    hide Present, Itoa, ParseCidr, GetVlanNetworkIpWithSubnet, Addressing.Address;
    EntryIsThere(t, 13, n, cfg);
    EntryIsThere(t, 14, n, cfg);
    NetworkReads(n);
    EverywhereReads();
    LeakGatewayShownAsGiven(cfg.gateways, n);
    DefaultGatewayShown(cfg);
    assert LeakGateway(n) == "vlan" + Itoa(n) + "@" + "vrf" + Itoa(n);
    RouteEntryIs(13, n, cfg);
    RouteEntryIs(14, n, cfg);
    assert ReadsRoute(VlanEntry(13, n, cfg).attrs, "main", Cidr(Addressing.Address(10, 0, n - 100, 0), 24),
                      LeakGateway(n));
    assert ReadsRoute(VlanEntry(14, n, cfg).attrs, "vrf" + Itoa(n), Cidr(0, 0),
                      cfg.externalGateway + if cfg.gateways.AsGiven? then "@main" else "");
  }

  lemma DefaultGatewayShown(cfg: RouterConfig)
    ensures Shown(cfg.gateways, cfg.externalGateway + MAIN_SUFFIX)
         == cfg.externalGateway + if cfg.gateways.AsGiven? then "@main" else ""
  {
    var g := cfg.externalGateway + MAIN_SUFFIX;
    assert EndsWith(g, MAIN_SUFFIX) && g[..|g| - |MAIN_SUFFIX|] == cfg.externalGateway;
    assert cfg.externalGateway + "" == cfg.externalGateway;
  }

  /** The fifteen entries of a VLAN in range are what its VMs need from the router. */
  lemma PresentServes(t: Tables, n: int, cfg: RouterConfig)
    requires VlanInRange(n) && Present(t, n, cfg)
    ensures Serves(t, n, cfg)
  {
    InterfacesAreThere(t, n, cfg);
    RulesAreThere(t, n, cfg);
    RoutesAreThere(t, n, cfg);
  }

  /** So are fifteen additions to whatever was there. */
  lemma FullyAppliedServes(t: Tables, n: int, cfg: RouterConfig)
    requires VlanInRange(n)
    ensures Serves(AddAll(t, VlanEntries(n, cfg)), n, cfg)
  {
    FullyAppliedIsPresent(t, n, cfg);
    PresentServes(AddAll(t, VlanEntries(n, cfg)), n, cfg);
  }

  // ----- Only what a configuration adds

  lemma {:induction false} AddedOrThere(t: Tables, es: seq<Entry>, p: Path, r: Record)
    ensures r in AddAll(t, es)[p] <==> r in t[p] || Entry(p, r) in es
  {
    if es != [] {
      var es', e := es[..|es| - 1], es[|es| - 1];
      AddedOrThere(t, es', p, r);
      assert es == es' + [e];
    }
  }

  /** On an interface of its own that had no address, a configuration leaves no other address than the
      VLAN's gateway there, and the tunnel's first address on the WireGuard interface. */
  lemma OnlyItsAddress(t: Tables, n: int, cfg: RouterConfig, r: Record)
    requires VlanInRange(n) && r in AddAll(t, VlanEntries(n, cfg))[IpAddress] && r !in t[IpAddress]
    ensures if Interface in r && r[Interface] == "vlan" + Itoa(n)
            then ReadsAddress(r, "vlan" + Itoa(n), Cidr(Addressing.Address(10, 0, n - 100, 1), 24))
            else ReadsAddress(r, "wireguard" + Itoa(n), Cidr(Addressing.Address(10, 1, n - 100, 1), 24))
  {
    AddedOrThere(t, VlanEntries(n, cfg), IpAddress, r);
    var i :| 0 <= i < PLAN_SIZE && VlanEntry(i, n, cfg) == Entry(IpAddress, r);
    PlanPaths(i, n, cfg);
    assert i == 7 || i == 8;
    GatewaysRead(n, 24);
    NamesDiffer(n, n);
  }

  // ----- A VM's peer, its gateway and its networks

  predicate ReadsPeer(r: Record, n: int, i: int, key: string)
    requires VlanInRange(n) && IdentifierInRange(i)
  {
    && Interface in r && r[Interface] == "wireguard" + Itoa(n)
    && Name in r && r[Name] == "peer" + Itoa(n) + "-" + Itoa(i)
    && PublicKey in r && r[PublicKey] == key
    && AllowedAddress in r
    && var allowed := Split(r[AllowedAddress], ',');
    && |allowed| == 2
    && ParseCidr(allowed[0]) == Cidr(Addressing.Address(10, 0, n - 100, 0), 24)
    && ParseCidr(allowed[1]) == Cidr(Addressing.Address(10, 1, n - 100, i + 1), 32)
  }

  /** Who holds the key may send from the VM's tunnel address and from the VLAN's network. */
  predicate Connects(t: Tables, n: int, i: int, key: string) {
    VlanInRange(n) && IdentifierInRange(i) && exists r :: r in t[WireguardPeers] && ReadsPeer(r, n, i, key)
  }

  lemma NetworkHasNoComma(n: int, i: int)
    ensures ',' !in GetVlanNetworkIpWithSubnet(n) && ',' !in TunnelAddress(n, i)
  {
    var x, y := Itoa(n - FIRST_VLAN), Itoa(i + FIRST_IP_IN_SUBNET);
    assert ',' !in x && ',' !in y && ',' !in Itoa(1) && ',' !in Itoa(24) && ',' !in Itoa(32);
  }

  lemma PeerConnects(t: Tables, n: int, i: int, key: string)
    requires VlanInRange(n) && IdentifierInRange(i)
    ensures Connects(Add(t, PeerOf(n, i, key)), n, i, key)
  {
    var r := PeerOf(n, i, key).attrs;
    NetworkHasNoComma(n, i);
    SplitJoin([GetVlanNetworkIpWithSubnet(n), TunnelAddress(n, i)], ',');
    NetworkReads(n);
    VmAddressReads(n, i);
    assert ReadsPeer(r, n, i, key);
    assert r in Add(t, PeerOf(n, i, key))[WireguardPeers];
  }

  /** A VM's gateway, with the prefix of its own address. */
  lemma GatewayReads(n: int)
    requires VlanInRange(n)
    ensures ParseCidr(GetVlanGatewayIp(n) + "/24") == Cidr(Addressing.Address(10, 0, n - 100, 1), 24)
  {
    assert Itoa(24) == "24" by { assert Decimal(24) == Decimal(2) + "4"; }
    var g := GetVlanGatewayIp(n);
    assert g + "/" + "24" == g + "/24";
    GatewaysRead(n, 24);
  }

  lemma SameBlock(a: nat, b: nat, c: nat, d: nat)
    requires 1 < d < 256
    ensures InBlock(Addressing.Address(a, b, c, d), Cidr(Addressing.Address(a, b, c, 1), 24))
    ensures Addressing.Address(a, b, c, d) != Addressing.Address(a, b, c, 1)
  {
    BlockSizes();
    AddressQuotient(a, b, c, d);
    AddressQuotient(a, b, c, 1);
  }

  /** The gateway a VM is told is the address of its VLAN's interface and of no VM, in the VM's own block. */
  lemma VmReachesItsGateway(t: Tables, n: int, i: int, cfg: RouterConfig)
    requires VlanInRange(n) && IdentifierInRange(i)
    ensures var vm, gateway := ParseCidr(GetIpAddWithSubnet(n, i)), ParseCidr(GetVlanGatewayIp(n) + "/24");
            && vm.Cidr? && gateway.Cidr? && gateway.prefix == 24
            && (Serves(t, n, cfg) ==> HasAddress(t, "vlan" + Itoa(n), gateway))
            && InBlock(vm.address, gateway) && vm.address != gateway.address
  {
    hide Itoa, Dotted, Addressing.Address, InBlock;
    VmAddressReads(n, i);
    GatewayReads(n);
    SameBlock(10, 0, n - 100, i + 1);
  }

  /** A VM's tunnel address lies in the block of the WireGuard interface and is not that interface's. */
  lemma TunnelReachesTheRouter(t: Tables, n: int, i: int, cfg: RouterConfig)
    requires VlanInRange(n) && IdentifierInRange(i)
    ensures var tunnel, own := ParseCidr(TunnelAddress(n, i)), Cidr(Addressing.Address(10, 1, n - 100, 1), 24);
            && tunnel.Cidr? && (Serves(t, n, cfg) ==> HasAddress(t, "wireguard" + Itoa(n), own))
            && InBlock(tunnel.address, own) && tunnel.address != own.address
  {
    hide Itoa, Dotted, Addressing.Address, InBlock;
    VmAddressReads(n, i);
    SameBlock(10, 1, n - 100, i + 1);
  }
}
