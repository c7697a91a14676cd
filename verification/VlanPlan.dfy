/** What a VLAN and its VMs put on the router, what their removals look for, and which removals can
    hit which entries. */
module VlanPlan {
  import opened Text
  import opened Addressing
  import opened RouterTables

  /** How the router reports a route's gateway: as it was given, or without a trailing "@main". */
  datatype GatewayDisplay = AsGiven | WithoutMain

  datatype RouterConfig = RouterConfig(
    vlanBridge: string,
    taggedBridges: seq<string>,
    externalGateway: string,
    gateways: GatewayDisplay)

  const MAIN_SUFFIX := "@main"

  predicate EndsWith(s: string, suffix: string) { |suffix| <= |s| && s[|s| - |suffix|..] == suffix }

  function Shown(display: GatewayDisplay, gateway: string): string {
    if display.WithoutMain? && EndsWith(gateway, MAIN_SUFFIX) then gateway[..|gateway| - |MAIN_SUFFIX|] else gateway
  }

  // ----- Names

  function WireguardName(vlan: int): string { "wireguard" + Itoa(vlan) }
  function VlanName(vlan: int): string { "vlan" + Itoa(vlan) }
  function ListName(vlan: int): string { "VRF" + Itoa(vlan) }
  function VrfName(vlan: int): string { "vrf" + Itoa(vlan) }
  function LeakGateway(vlan: int): string { VlanName(vlan) + "@" + VrfName(vlan) }
  function VlanGatewayAddress(vlan: int): string { GetVlanGatewayIp(vlan) + "/" + Itoa(SUBNET_MASK) }
  function VpnGatewayAddress(vlan: int): string { GetVpnGatewayIp(vlan) + "/" + Itoa(SUBNET_MASK) }
  function PeerName(vlan: int, identifier: int): string { "peer" + Itoa(vlan) + "-" + Itoa(identifier) }

  // ----- Entries, as each add method words them

  function WireguardEntry(name: string, listenPort: int, mtu: int): Entry {
    Entry(Wireguard, map[Name := name, ListenPort := Itoa(listenPort), Mtu := Itoa(mtu)])
  }
  function VlanInterfaceEntry(iface: string, name: string, vlanId: int): Entry {
    Entry(Vlan, map[Name := name, Interface := iface, VlanId := Itoa(vlanId)])
  }
  function InterfaceListEntry(name: string): Entry { Entry(InterfaceList, map[Name := name]) }
  function VrfEntry(name: string, ifaces: seq<string>): Entry {
    Entry(Vrf, map[Name := name, Interfaces := Join(ifaces, ",")])
  }
  function BridgeVlanEntry(bridge: string, vlanId: int, tagged: seq<string>): Entry {
    Entry(BridgeVlan, map[Bridge := bridge, VlanIds := Itoa(vlanId), Tagged := Join(tagged, ",")])
  }
  function ListMemberEntry(iface: string, list: string): Entry {
    Entry(ListMember, map[List := list, Interface := iface])
  }
  function IpAddressEntry(address: string, iface: string): Entry {
    Entry(IpAddress, map[Interface := iface, Attr.Address := address])
  }
  function FirewallEntry(action: string, chain: string, params: Record): Entry {
    Entry(FirewallFilter, map[Chain := chain, Action := action] + params)
  }
  function RouteEntry(dst: string, gateway: string, table: string): Entry {
    Entry(IpRoute, map[DstAddress := dst, Gateway := gateway, RoutingTable := table])
  }
  function PeerEntry(iface: string, name: string, publicKey: string, allowed: seq<string>): Entry {
    Entry(WireguardPeers,
          map[Interface := iface, Name := name, PublicKey := publicKey, AllowedAddress := Join(allowed, ",")])
  }
  /** A VM's peer: allowed its VLAN's network and its own tunnel address. */
  function PeerOf(vlan: int, identifier: int, publicKey: string): Entry {
    PeerEntry(WireguardName(vlan), PeerName(vlan, identifier), publicKey,
              [GetVlanNetworkIpWithSubnet(vlan), TunnelAddress(vlan, identifier)])
  }
  function NameFilter(path: Path, name: string): Entry { Entry(path, map[Name := name]) }

  function WanInput(port: int): Record {
    map[DstPort := Itoa(port), InInterfaceList := "WAN", Protocol := "udp"]
  }
  function FromTo(from: string, to: string): Record {
    map[InInterfaceList := from, OutInterfaceList := to]
  }

  const PLAN_SIZE := 15

  // The fifteen additions of a VLAN's configuration, in order, as the router then reports them, and
  // what the removal with the same number looks for; the removals run from 14 down to 0.

  function InterfaceAddition(i: nat, vlan: int, cfg: RouterConfig): Entry {
    if i == 0 then WireguardEntry(WireguardName(vlan), GetVlanRouterPort(vlan), 1420)
    else if i == 1 then VlanInterfaceEntry(cfg.vlanBridge, VlanName(vlan), vlan)
    else if i == 2 then InterfaceListEntry(ListName(vlan))
    else if i == 3 then VrfEntry(VrfName(vlan), [VlanName(vlan), WireguardName(vlan)])
    else BridgeVlanEntry(cfg.vlanBridge, vlan, cfg.taggedBridges)
  }

  function InterfaceFilter(i: nat, vlan: int, cfg: RouterConfig): Entry {
    if i == 0 then NameFilter(Wireguard, WireguardName(vlan))
    else if i == 1 then NameFilter(Vlan, VlanName(vlan))
    else if i == 2 then NameFilter(InterfaceList, ListName(vlan))
    else if i == 3 then NameFilter(Vrf, VrfName(vlan))
    else Entry(BridgeVlan, map[Bridge := cfg.vlanBridge, VlanIds := Itoa(vlan)])
  }

  /** Added and looked for alike. */
  function AddressAddition(i: nat, vlan: int): Entry {
    if i == 5 then ListMemberEntry(VlanName(vlan), ListName(vlan))
    else if i == 6 then ListMemberEntry(WireguardName(vlan), ListName(vlan))
    else if i == 7 then IpAddressEntry(VlanGatewayAddress(vlan), VlanName(vlan))
    else IpAddressEntry(VpnGatewayAddress(vlan), WireguardName(vlan))
  }

  /** Added and looked for alike. */
  function RuleAddition(i: nat, vlan: int): Entry {
    if i == 9 then FirewallEntry("accept", "input", WanInput(GetVlanRouterPort(vlan)))
    else if i == 10 then FirewallEntry("accept", "forward", FromTo(ListName(vlan), "WAN"))
    else if i == 11 then FirewallEntry("accept", "forward", FromTo(ListName(vlan), ListName(vlan)))
    else FirewallEntry("accept", "forward", FromTo("WAN", ListName(vlan)))
  }

  function RouteAddition(i: nat, vlan: int, cfg: RouterConfig): Entry {
    if i == 13 then RouteEntry(GetVlanNetworkIpWithSubnet(vlan), Shown(cfg.gateways, LeakGateway(vlan)), "main")
    else RouteEntry("0.0.0.0/0", Shown(cfg.gateways, cfg.externalGateway + MAIN_SUFFIX), VrfName(vlan))
  }

  function RouteFilter(i: nat, vlan: int, cfg: RouterConfig): Entry {
    if i == 13 then RouteEntry(GetVlanNetworkIpWithSubnet(vlan), LeakGateway(vlan), "main")
    else RouteEntry("0.0.0.0/0", cfg.externalGateway, VrfName(vlan))
  }

  function VlanEntry(i: nat, vlan: int, cfg: RouterConfig): Entry
    requires i < PLAN_SIZE
  {
    if i < 5 then InterfaceAddition(i, vlan, cfg)
    else if i < 9 then AddressAddition(i, vlan)
    else if i < 13 then RuleAddition(i, vlan)
    else RouteAddition(i, vlan, cfg)
  }

  function VlanFilter(i: nat, vlan: int, cfg: RouterConfig): Entry
    requires i < PLAN_SIZE
  {
    if i < 5 then InterfaceFilter(i, vlan, cfg)
    else if i < 9 then AddressAddition(i, vlan)
    else if i < 13 then RuleAddition(i, vlan)
    else RouteFilter(i, vlan, cfg)
  }

  function VlanEntries(vlan: int, cfg: RouterConfig): (es: seq<Entry>) {
    seq(PLAN_SIZE, i requires 0 <= i < PLAN_SIZE => VlanEntry(i, vlan, cfg))
  }

  function VlanFilters(vlan: int, cfg: RouterConfig): (fs: seq<Entry>) {
    seq(PLAN_SIZE, i requires 0 <= i < PLAN_SIZE => VlanFilter(i, vlan, cfg))
  }

  lemma EntriesListed(vlan: int, cfg: RouterConfig)
    ensures var es := VlanEntries(vlan, cfg);
            && (forall k | 0 <= k < 5 :: es[k] == InterfaceAddition(k, vlan, cfg))
            && (forall k | 5 <= k < 9 :: es[k] == AddressAddition(k, vlan))
            && (forall k | 9 <= k < 13 :: es[k] == RuleAddition(k, vlan))
            && (forall k | 13 <= k < PLAN_SIZE :: es[k] == RouteAddition(k, vlan, cfg))
  {
  }

  lemma FiltersListed(vlan: int, cfg: RouterConfig)
    ensures var fs := VlanFilters(vlan, cfg);
            && (forall k | 0 <= k < 5 :: fs[k] == InterfaceFilter(k, vlan, cfg))
            && (forall k | 5 <= k < 9 :: fs[k] == AddressAddition(k, vlan))
            && (forall k | 9 <= k < 13 :: fs[k] == RuleAddition(k, vlan))
            && (forall k | 13 <= k < PLAN_SIZE :: fs[k] == RouteFilter(k, vlan, cfg))
  {
  }

  // ----- The names tell VLANs apart

  lemma PrefixedInjective(prefix: string, m: int, n: int)
    requires prefix + Itoa(m) == prefix + Itoa(n)
    ensures m == n
  {
    assert Itoa(m) == (prefix + Itoa(m))[|prefix|..];
    assert Itoa(n) == (prefix + Itoa(n))[|prefix|..];
    ItoaInjective(m, n);
  }

  lemma NamesInjective(v: int, w: int)
    ensures WireguardName(v) == WireguardName(w) ==> v == w
    ensures VlanName(v) == VlanName(w) ==> v == w
    ensures ListName(v) == ListName(w) ==> v == w
    ensures VrfName(v) == VrfName(w) ==> v == w
    ensures Itoa(v) == Itoa(w) ==> v == w
    ensures Itoa(GetVlanRouterPort(v)) == Itoa(GetVlanRouterPort(w)) ==> v == w
  {
    if WireguardName(v) == WireguardName(w) { PrefixedInjective("wireguard", v, w); }
    if VlanName(v) == VlanName(w) { PrefixedInjective("vlan", v, w); }
    if ListName(v) == ListName(w) { PrefixedInjective("VRF", v, w); }
    if VrfName(v) == VrfName(w) { PrefixedInjective("vrf", v, w); }
    if Itoa(v) == Itoa(w) { ItoaInjective(v, w); }
    if Itoa(GetVlanRouterPort(v)) == Itoa(GetVlanRouterPort(w)) {
      ItoaInjective(GetVlanRouterPort(v), GetVlanRouterPort(w));
    }
  }

  lemma NetworksInjective(v: int, w: int)
    requires GetVlanNetworkIpWithSubnet(v) == GetVlanNetworkIpWithSubnet(w)
    ensures v == w
  {
    SplitDotted("10", "0", Itoa(MapVlanToThirdIpOctet(v)), "0/" + Itoa(SUBNET_MASK));
    SplitDotted("10", "0", Itoa(MapVlanToThirdIpOctet(w)), "0/" + Itoa(SUBNET_MASK));
    ItoaInjective(MapVlanToThirdIpOctet(v), MapVlanToThirdIpOctet(w));
  }

  lemma NamesDiffer(v: int, w: int)
    ensures VlanName(v) != WireguardName(w)
    ensures ListName(v) != "WAN" && VrfName(v) != "main" && "input" != "forward"
    ensures GetVlanNetworkIpWithSubnet(v) != "0.0.0.0/0"
  {
    assert VlanName(v)[0] == 'v' && WireguardName(w)[0] == 'w';
    assert ListName(v)[0] == 'V' && "WAN"[0] == 'W';
    assert VrfName(v)[0] == 'v' && "main"[0] == 'm';
    assert "input"[0] == 'i' && "forward"[0] == 'f';
    assert GetVlanNetworkIpWithSubnet(v)[0] == '1' && "0.0.0.0/0"[0] == '0';
  }

  lemma PeerNameTail(v: int, i: int)
    ensures PeerName(v, i)[4..] == Itoa(v) + ['-'] + Itoa(i)
  {
  }

  lemma PeerNamesInjective(v: int, i: int, w: int, j: int)
    requires 0 <= v && 0 <= w && PeerName(v, i) == PeerName(w, j)
    ensures v == w && i == j
  {
    PeerNameTail(v, i);
    PeerNameTail(w, j);
    CutUnique(Itoa(v), Itoa(w), '-', Itoa(i), Itoa(j));
    ItoaInjective(v, w);
    ItoaInjective(i, j);
  }

  lemma LeakGatewayShownAsGiven(display: GatewayDisplay, vlan: int)
    ensures Shown(display, LeakGateway(vlan)) == LeakGateway(vlan)
  {
    var s := LeakGateway(vlan);
    ItoaLast(vlan);
    assert s[|s| - 1] == Itoa(vlan)[|Itoa(vlan)| - 1];
    if EndsWith(s, MAIN_SUFFIX) {
      EndsAlike(s, MAIN_SUFFIX);
    }
  }

  lemma EndsAlike(s: string, suffix: string)
    requires suffix != "" && EndsWith(s, suffix)
    ensures s[|s| - 1] == suffix[|suffix| - 1]
  {
    assert s[|s| - |suffix|..][|suffix| - 1] == s[|s| - 1];
  }

  lemma ItoaLast(n: int)
    ensures Itoa(n) != "" && IsDigit(Itoa(n)[|Itoa(n)| - 1])
  {
    var d := Decimal(if n < 0 then -n else n);
    assert d[|d| - 1] in d;
  }

  function PlanPath(i: nat): Path
    requires i < PLAN_SIZE
  {
    if i == 0 then Wireguard
    else if i == 1 then Vlan
    else if i == 2 then InterfaceList
    else if i == 3 then Vrf
    else if i == 4 then BridgeVlan
    else if i <= 6 then ListMember
    else if i <= 8 then IpAddress
    else if i <= 12 then FirewallFilter
    else IpRoute
  }

  lemma PlanPaths(i: nat, vlan: int, cfg: RouterConfig)
    requires i < PLAN_SIZE
    ensures VlanEntry(i, vlan, cfg).path == VlanFilter(i, vlan, cfg).path == PlanPath(i)
  {
  }

  lemma HitsAgree(f: Entry, e: Entry, k: Attr)
    requires Hits(f, e) && k in f.attrs
    ensures k in e.attrs && e.attrs[k] == f.attrs[k]
  {
  }

  lemma NamedHitsOwnOnly(i: nat, v: int, w: int, cfg: RouterConfig)
    requires i < 4 && Hits(VlanFilter(i, v, cfg), VlanEntry(i, w, cfg))
    ensures v == w
  {
    HitsAgree(VlanFilter(i, v, cfg), VlanEntry(i, w, cfg), Name);
    NamesInjective(v, w);
  }

  lemma InterfaceHitsOwnOnly(i: nat, v: int, j: nat, w: int, cfg: RouterConfig)
    requires 5 <= i <= 8 && 5 <= j <= 8 && (i <= 6 <==> j <= 6)
    requires Hits(VlanFilter(i, v, cfg), VlanEntry(j, w, cfg))
    ensures i == j && v == w
  {
    InterfaceIs(i, v, cfg);
    InterfaceIs(j, w, cfg);
    HitsAgree(VlanFilter(i, v, cfg), VlanEntry(j, w, cfg), Interface);
    NamesInjective(v, w);
    NamesDiffer(v, w);
    NamesDiffer(w, v);
  }

  function InterfaceOf(i: nat, vlan: int): string { if i == 5 || i == 7 then VlanName(vlan) else WireguardName(vlan) }

  lemma InterfaceIs(i: nat, vlan: int, cfg: RouterConfig)
    requires 5 <= i <= 8
    ensures VlanEntry(i, vlan, cfg) == VlanFilter(i, vlan, cfg)
    ensures Interface in VlanFilter(i, vlan, cfg).attrs
            && VlanFilter(i, vlan, cfg).attrs[Interface] == InterfaceOf(i, vlan)
  {
  }

  /** Removal `i` of one VLAN hits addition `j` of another, or of the same, only if it is its own. */
  lemma FilterHitsOwnOnly(i: nat, v: int, j: nat, w: int, cfg: RouterConfig)
    requires i < PLAN_SIZE && j < PLAN_SIZE
    requires Hits(VlanFilter(i, v, cfg), VlanEntry(j, w, cfg))
    ensures i == j && v == w
  {
    PlanPaths(i, v, cfg);
    PlanPaths(j, w, cfg);
    if i < 4 {
      NamedHitsOwnOnly(i, v, w, cfg);
    } else if i == 4 {
      HitsAgree(VlanFilter(i, v, cfg), VlanEntry(j, w, cfg), VlanIds);
      NamesInjective(v, w);
    } else if i <= 8 {
      InterfaceHitsOwnOnly(i, v, j, w, cfg);
    } else if i <= 12 {
      FirewallHitsOwnOnly(i, v, j, w, cfg);
    } else {
      RouteHitsOwnOnly(i, v, j, w, cfg);
    }
  }

  function FromOf(i: nat, vlan: int): string { if i == 12 then "WAN" else ListName(vlan) }
  function ToOf(i: nat, vlan: int): string { if i == 10 then "WAN" else ListName(vlan) }

  lemma ForwardRule(i: nat, vlan: int, cfg: RouterConfig)
    requires 10 <= i <= 12
    ensures VlanEntry(i, vlan, cfg) == VlanFilter(i, vlan, cfg)
    ensures VlanFilter(i, vlan, cfg).attrs == map[Chain := "forward", Action := "accept",
                                                  InInterfaceList := FromOf(i, vlan), OutInterfaceList := ToOf(i, vlan)]
  {
  }

  lemma InputRule(vlan: int, cfg: RouterConfig)
    ensures VlanEntry(9, vlan, cfg) == VlanFilter(9, vlan, cfg)
    ensures VlanFilter(9, vlan, cfg).attrs == map[Chain := "input", Action := "accept",
                                                  DstPort := Itoa(GetVlanRouterPort(vlan)),
                                                  InInterfaceList := "WAN", Protocol := "udp"]
  {
  }

  lemma FirewallHitsOwnOnly(i: nat, v: int, j: nat, w: int, cfg: RouterConfig)
    requires 9 <= i <= 12 && 9 <= j <= 12
    requires Hits(VlanFilter(i, v, cfg), VlanEntry(j, w, cfg))
    ensures i == j && v == w
  {
    if i == 9 { InputRule(v, cfg); } else { ForwardRule(i, v, cfg); }
    if j == 9 { InputRule(w, cfg); } else { ForwardRule(j, w, cfg); }
    var f, e := VlanFilter(i, v, cfg), VlanEntry(j, w, cfg);
    HitsAgree(f, e, Chain);
    NamesDiffer(v, w);
    NamesDiffer(w, v);
    NamesInjective(v, w);
    if i == 9 {
      HitsAgree(f, e, DstPort);
    } else {
      HitsAgree(f, e, InInterfaceList);
      HitsAgree(f, e, OutInterfaceList);
    }
  }

  function RouteDst(i: nat, vlan: int): string { if i == 13 then GetVlanNetworkIpWithSubnet(vlan) else "0.0.0.0/0" }
  function RouteTable(i: nat, vlan: int): string { if i == 13 then "main" else VrfName(vlan) }

  ghost predicate IsRoute(e: Entry, i: nat, vlan: int) {
    && DstAddress in e.attrs && e.attrs[DstAddress] == RouteDst(i, vlan)
    && RoutingTable in e.attrs && e.attrs[RoutingTable] == RouteTable(i, vlan)
  }

  lemma RouteEntryIs(i: nat, vlan: int, cfg: RouterConfig)
    requires 13 <= i < PLAN_SIZE
    ensures IsRoute(VlanEntry(i, vlan, cfg), i, vlan)
  {
  }

  lemma RouteFilterIs(i: nat, vlan: int, cfg: RouterConfig)
    requires 13 <= i < PLAN_SIZE
    ensures IsRoute(VlanFilter(i, vlan, cfg), i, vlan)
  {
  }

  lemma RoutesDiffer(i: nat, v: int, j: nat, w: int)
    requires 13 <= i < PLAN_SIZE && 13 <= j < PLAN_SIZE
    requires RouteDst(i, v) == RouteDst(j, w) && RouteTable(i, v) == RouteTable(j, w)
    ensures i == j && v == w
  {
    NamesDiffer(v, w);
    NamesDiffer(w, v);
    if i == 13 && j == 13 {
      NetworksInjective(v, w);
    } else if i == 14 && j == 14 {
      NamesInjective(v, w);
    }
  }

  lemma RouteHitsOwnOnly(i: nat, v: int, j: nat, w: int, cfg: RouterConfig)
    requires 13 <= i < PLAN_SIZE && 13 <= j < PLAN_SIZE
    requires Hits(VlanFilter(i, v, cfg), VlanEntry(j, w, cfg))
    ensures i == j && v == w
  {
    var f, e := VlanFilter(i, v, cfg), VlanEntry(j, w, cfg);
    RouteFilterIs(i, v, cfg);
    RouteEntryIs(j, w, cfg);
    HitsAgree(f, e, DstAddress);
    HitsAgree(f, e, RoutingTable);
    RoutesDiffer(i, v, j, w);
  }

  /** The default route is the only addition its own removal may miss: it is added with "@main"
      behind the gateway and looked for without. */
  lemma FilterHitsOwn(i: nat, vlan: int, cfg: RouterConfig)
    requires i < PLAN_SIZE
    ensures Hits(VlanFilter(i, vlan, cfg), VlanEntry(i, vlan, cfg)) <==> i < 14 || cfg.gateways.WithoutMain?
  {
    LeakGatewayShownAsGiven(cfg.gateways, vlan);
    if i == 14 {
      var g := cfg.externalGateway + MAIN_SUFFIX;
      assert EndsWith(g, MAIN_SUFFIX) && g[..|g| - |MAIN_SUFFIX|] == cfg.externalGateway;
      assert |g| > |cfg.externalGateway|;
      var e, f := VlanEntry(i, vlan, cfg), VlanFilter(i, vlan, cfg);
      assert Hits(f, e) ==> e.attrs[Gateway] == f.attrs[Gateway];
    }
  }

  lemma PlanIsPaired(vlan: int, cfg: RouterConfig)
    ensures Paired(VlanEntries(vlan, cfg), VlanFilters(vlan, cfg))
  {
    var es, fs := VlanEntries(vlan, cfg), VlanFilters(vlan, cfg);
    forall i, j | 0 <= i < |fs| && 0 <= j < |es| && Hits(fs[i], es[j]) ensures i == j {
      FilterHitsOwnOnly(i, vlan, j, vlan, cfg);
    }
  }

  // ----- Rollback

  /** If any of the additions is refused, the removals that follow put every table back exactly as
      it was, at every position the refusal may come and whatever else the tables hold. */
  lemma RollbackIsExact(t: Tables, vlan: int, cfg: RouterConfig, done: nat, ok: nat -> bool)
    requires done < PLAN_SIZE && Clean(t, VlanFilters(vlan, cfg))
    requires forall i | 0 <= i < done :: ok(i)
    ensures RemoveAll(AddAll(t, VlanEntries(vlan, cfg)[..done]), VlanFilters(vlan, cfg), ok) == t
  {
    var es, fs := VlanEntries(vlan, cfg), VlanFilters(vlan, cfg);
    PlanIsPaired(vlan, cfg);
    forall i | 0 <= i < done ensures Removes(es, fs, ok, i) {
      FilterHitsOwn(i, vlan, cfg);
    }
    RemoveAllLeaves(t, es, fs, ok, done);
    NothingLeftover(es, fs, ok, done);
  }

  /** Removing a fully applied configuration is exact if and only if the router reports gateways
      without "@main"; otherwise exactly the VLAN's default route stays behind. */
  lemma FullRemovalIsExactIff(t: Tables, vlan: int, cfg: RouterConfig, ok: nat -> bool)
    requires Clean(t, VlanFilters(vlan, cfg))
    requires forall i | 0 <= i < PLAN_SIZE :: ok(i)
    ensures var after := RemoveAll(AddAll(t, VlanEntries(vlan, cfg)), VlanFilters(vlan, cfg), ok);
            && (after == t <==> cfg.gateways.WithoutMain?)
            && (cfg.gateways.AsGiven? ==> after == Add(t, VlanEntry(14, vlan, cfg)))
  {
    var es, fs := VlanEntries(vlan, cfg), VlanFilters(vlan, cfg);
    PlanIsPaired(vlan, cfg);
    assert es[..PLAN_SIZE] == es;
    RemoveAllLeaves(t, es, fs, ok, PLAN_SIZE);
    FullLeftover(vlan, cfg, ok);
    if cfg.gateways.AsGiven? {
      AddOne(t, es[14]);
    }
  }

  lemma FullLeftover(vlan: int, cfg: RouterConfig, ok: nat -> bool)
    requires forall i | 0 <= i < PLAN_SIZE :: ok(i)
    ensures Leftover(VlanEntries(vlan, cfg), VlanFilters(vlan, cfg), ok, PLAN_SIZE)
         == if cfg.gateways.WithoutMain? then [] else [VlanEntries(vlan, cfg)[14]]
  {
    var es, fs := VlanEntries(vlan, cfg), VlanFilters(vlan, cfg);
    forall i | 0 <= i < PLAN_SIZE ensures Removes(es, fs, ok, i) <==> i < 14 || cfg.gateways.WithoutMain? {
      FilterHitsOwn(i, vlan, cfg);
    }
    NothingLeftover(es, fs, ok, 14);
    assert [] + [es[14]] == [es[14]];
  }

  lemma AddOne(t: Tables, e: Entry)
    ensures AddAll(t, [e]) == Add(t, e) != t
  {
    assert [e][..0] == [] && AddAll(t, []) == t;
    assert |Add(t, e)[e.path]| == |t[e.path]| + 1;
  }

  // ----- Isolation between VLANs

  function PeerFilter(vlan: int, identifier: int): Entry { NameFilter(WireguardPeers, PeerName(vlan, identifier)) }

  ghost predicate IsPeerOf(p: Path, r: Record, vlan: int) {
    p.WireguardPeers? && Name in r && exists j | 1 <= j <= MAX_VMS_PER_VLAN :: r[Name] == PeerName(vlan, j)
  }

  /** A record of the VLAN's own: one of the fifteen, or a peer of one of its VMs. */
  ghost predicate IsEntryOf(p: Path, r: Record, vlan: int, cfg: RouterConfig) {
    || (exists i | 0 <= i < PLAN_SIZE :: VlanEntry(i, vlan, cfg) == Entry(p, r))
    || IsPeerOf(p, r, vlan)
  }

  /** The VLAN's records in one table, in the table's order. */
  ghost function EntriesOf(p: Path, s: seq<Record>, vlan: int, cfg: RouterConfig): seq<Record> {
    if s == [] then []
    else (if IsEntryOf(p, s[0], vlan, cfg) then [s[0]] else []) + EntriesOf(p, s[1..], vlan, cfg)
  }

  /** Two states of the router hold the same records of one VLAN, in the same order. */
  ghost predicate SameFor(t: Tables, t': Tables, vlan: int, cfg: RouterConfig) {
    forall p: Path :: EntriesOf(p, t[p], vlan, cfg) == EntriesOf(p, t'[p], vlan, cfg)
  }

  lemma {:induction false} EntriesOfAppend(p: Path, s: seq<Record>, r: Record, vlan: int, cfg: RouterConfig)
    requires !IsEntryOf(p, r, vlan, cfg)
    ensures EntriesOf(p, s + [r], vlan, cfg) == EntriesOf(p, s, vlan, cfg)
  {
    if s == [] {
      assert (s + [r])[1..] == [];
    } else {
      assert (s + [r])[1..] == s[1..] + [r];
      EntriesOfAppend(p, s[1..], r, vlan, cfg);
    }
  }

  lemma {:induction false} EntriesOfRemove(p: Path, s: seq<Record>, filter: Record, vlan: int, cfg: RouterConfig)
    requires forall r | r in s && Matches(r, filter) :: !IsEntryOf(p, r, vlan, cfg)
    ensures EntriesOf(p, RemoveFirst(s, filter), vlan, cfg) == EntriesOf(p, s, vlan, cfg)
  {
    if s != [] && !Matches(s[0], filter) {
      EntriesOfRemove(p, s[1..], filter, vlan, cfg);
      assert ([s[0]] + RemoveFirst(s[1..], filter))[1..] == RemoveFirst(s[1..], filter);
    } else if s != [] {
      assert s[0] in s;
    }
  }

  lemma EntriesAreDisjoint(i: nat, v: int, w: int, cfg: RouterConfig)
    requires i < PLAN_SIZE && v != w
    ensures !IsEntryOf(VlanEntry(i, v, cfg).path, VlanEntry(i, v, cfg).attrs, w, cfg)
  {
    var e := VlanEntry(i, v, cfg);
    if j: nat :| j < PLAN_SIZE && VlanEntry(j, w, cfg) == Entry(e.path, e.attrs) {
      PlanEntriesDiffer(i, v, j, w, cfg);
    }
    PlanPaths(i, v, cfg);
  }

  lemma PlanEntriesDiffer(i: nat, v: int, j: nat, w: int, cfg: RouterConfig)
    requires i < PLAN_SIZE && j < PLAN_SIZE && v != w
    ensures VlanEntry(i, v, cfg) != VlanEntry(j, w, cfg)
  {
    if VlanEntry(i, v, cfg) == VlanEntry(j, w, cfg) {
      if i < 14 {
        FilterHitsOwn(i, v, cfg);
        FilterHitsOwnOnly(i, v, j, w, cfg);
      } else {
        DefaultRoutesDiffer(v, j, w, cfg);
      }
    }
  }

  lemma DefaultRoutesDiffer(v: int, j: nat, w: int, cfg: RouterConfig)
    requires j < PLAN_SIZE && v != w
    ensures VlanEntry(14, v, cfg) != VlanEntry(j, w, cfg)
  {
    PlanPaths(14, v, cfg);
    PlanPaths(j, w, cfg);
    if j >= 13 && VlanEntry(14, v, cfg) == VlanEntry(j, w, cfg) {
      RouteEntryIs(14, v, cfg);
      RouteEntryIs(j, w, cfg);
      RoutesDiffer(14, v, j, w);
    }
  }

  lemma FilterMissesOthers(i: nat, v: int, r: Record, w: int, cfg: RouterConfig)
    requires i < PLAN_SIZE && v != w && Matches(r, VlanFilter(i, v, cfg).attrs)
    ensures !IsEntryOf(VlanFilter(i, v, cfg).path, r, w, cfg)
  {
    var f := VlanFilter(i, v, cfg);
    if j: nat :| j < PLAN_SIZE && VlanEntry(j, w, cfg) == Entry(f.path, r) {
      FilterHitsOwnOnly(i, v, j, w, cfg);
    }
  }

  lemma PeerIsNoPlanEntry(r: Record, w: int, cfg: RouterConfig)
    ensures !exists i | 0 <= i < PLAN_SIZE :: VlanEntry(i, w, cfg) == Entry(WireguardPeers, r)
  {
  }

  lemma AddIsIsolated(t: Tables, e: Entry, w: int, cfg: RouterConfig)
    requires !IsEntryOf(e.path, e.attrs, w, cfg)
    ensures SameFor(t, Add(t, e), w, cfg)
  {
    EntriesOfAppend(e.path, t[e.path], e.attrs, w, cfg);
  }

  lemma DeleteIsIsolated(t: Tables, f: Entry, w: int, cfg: RouterConfig)
    requires forall r | r in t[f.path] && Matches(r, f.attrs) :: !IsEntryOf(f.path, r, w, cfg)
    ensures SameFor(t, Delete(t, f), w, cfg)
  {
    EntriesOfRemove(f.path, t[f.path], f.attrs, w, cfg);
  }

  lemma {:induction false} AddAllIsIsolated(t: Tables, es: seq<Entry>, w: int, cfg: RouterConfig)
    requires forall k | 0 <= k < |es| :: !IsEntryOf(es[k].path, es[k].attrs, w, cfg)
    ensures SameFor(t, AddAll(t, es), w, cfg)
  {
    if es != [] {
      AddAllIsIsolated(t, es[..|es| - 1], w, cfg);
      AddIsIsolated(AddAll(t, es[..|es| - 1]), es[|es| - 1], w, cfg);
    }
  }

  lemma ApplyIsIsolated(t: Tables, v: int, w: int, cfg: RouterConfig, k: nat)
    requires v != w && k <= PLAN_SIZE
    ensures SameFor(t, AddAll(t, VlanEntries(v, cfg)[..k]), w, cfg)
  {
    forall i | 0 <= i < PLAN_SIZE
      ensures !IsEntryOf(VlanEntries(v, cfg)[i].path, VlanEntries(v, cfg)[i].attrs, w, cfg)
    {
      EntriesAreDisjoint(i, v, w, cfg);
    }
    AddAllIsIsolated(t, VlanEntries(v, cfg)[..k], w, cfg);
  }

  lemma {:induction false} RemoveIsIsolated(t: Tables, v: int, w: int, cfg: RouterConfig, ok: nat -> bool, n: nat)
    requires v != w && n <= PLAN_SIZE
    ensures SameFor(t, RemoveAll(t, VlanFilters(v, cfg)[..n], ok), w, cfg)
  {
    if n > 0 {
      var fs := VlanFilters(v, cfg);
      var f := fs[n - 1];
      assert fs[..n][..n - 1] == fs[..n - 1] && fs[..n][n - 1] == f;
      forall r | r in t[f.path] && Matches(r, f.attrs) ensures !IsEntryOf(f.path, r, w, cfg) {
        FilterMissesOthers(n - 1, v, r, w, cfg);
      }
      DeleteIsIsolated(t, f, w, cfg);
      RemoveIsIsolated(if ok(n - 1) then Delete(t, f) else t, v, w, cfg, ok, n - 1);
    }
  }

  /** Applying any part of one VLAN's configuration and removing it, whichever removals succeed,
      leaves the records of every other VLAN in place and in order. */
  lemma VlansAreIsolated(t: Tables, v: int, w: int, cfg: RouterConfig, k: nat, ok: nat -> bool)
    requires v != w && k <= PLAN_SIZE
    ensures SameFor(t, AddAll(t, VlanEntries(v, cfg)[..k]), w, cfg)
    ensures SameFor(t, RemoveAll(t, VlanFilters(v, cfg), ok), w, cfg)
  {
    ApplyIsIsolated(t, v, w, cfg, k);
    assert VlanFilters(v, cfg)[..PLAN_SIZE] == VlanFilters(v, cfg);
    RemoveIsIsolated(t, v, w, cfg, ok, PLAN_SIZE);
  }

  /** Adding or removing a VM's peer does not touch the tables that hold the fifteen entries of its own
      VLAN, or of any other. */
  lemma PeersLeaveTheFifteen(t: Tables, v: int, identifier: int, key: string, allowed: seq<string>, i: nat, w: int,
                             cfg: RouterConfig)
    requires i < PLAN_SIZE
    ensures var p := VlanEntry(i, w, cfg).path;
            && Add(t, PeerEntry(WireguardName(v), PeerName(v, identifier), key, allowed))[p] == t[p]
            && Delete(t, PeerFilter(v, identifier))[p] == t[p]
  {
    PlanPaths(i, w, cfg);
    assert PlanPath(i) != WireguardPeers;
  }

  /** Adding or removing a VM's peer leaves everything of every other VLAN in place and in order. */
  lemma PeersAreIsolated(t: Tables, v: int, identifier: int, key: string, allowed: seq<string>, w: int,
                         cfg: RouterConfig)
    requires VlanInRange(v) && VlanInRange(w) && v != w
    ensures SameFor(t, Add(t, PeerEntry(WireguardName(v), PeerName(v, identifier), key, allowed)), w, cfg)
    ensures SameFor(t, Delete(t, PeerFilter(v, identifier)), w, cfg)
  {
    var e, f := PeerEntry(WireguardName(v), PeerName(v, identifier), key, allowed), PeerFilter(v, identifier);
    forall r: Record | Name in r && r[Name] == PeerName(v, identifier) ensures !IsEntryOf(WireguardPeers, r, w, cfg) {
      PeerIsNoPlanEntry(r, w, cfg);
      if j :| 1 <= j <= MAX_VMS_PER_VLAN && r[Name] == PeerName(w, j) {
        PeerNamesInjective(v, identifier, w, j);
      }
    }
    EntriesOfAppend(WireguardPeers, t[WireguardPeers], e.attrs, w, cfg);
    EntriesOfRemove(WireguardPeers, t[WireguardPeers], f.attrs, w, cfg);
  }

  /** Removing one VM's peer never takes another VM's, in the same VLAN or in another. */
  lemma PeerRemovalHitsOwnOnly(v: int, i: int, w: int, j: int, key: string, allowed: seq<string>)
    requires 0 <= v && 0 <= w
    ensures Hits(PeerFilter(v, i), PeerEntry(WireguardName(w), PeerName(w, j), key, allowed)) <==> v == w && i == j
  {
    var e, f := PeerEntry(WireguardName(w), PeerName(w, j), key, allowed), PeerFilter(v, i);
    if Hits(f, e) {
      assert e.attrs[Name] == f.attrs[Name];
      PeerNamesInjective(v, i, w, j);
    }
  }

  // ----- A configured VLAN

  /** All fifteen entries of the VLAN are on the router. */
  predicate Present(t: Tables, vlan: int, cfg: RouterConfig) {
    forall i | 0 <= i < PLAN_SIZE :: VlanEntry(i, vlan, cfg).attrs in t[VlanEntry(i, vlan, cfg).path]
  }

  lemma {:induction false} EntriesOfMembers(p: Path, s: seq<Record>, r: Record, vlan: int, cfg: RouterConfig)
    requires IsEntryOf(p, r, vlan, cfg)
    ensures r in EntriesOf(p, s, vlan, cfg) <==> r in s
  {
    if s != [] {
      EntriesOfMembers(p, s[1..], r, vlan, cfg);
      assert s == [s[0]] + s[1..];
    }
  }

  lemma PresentIsKept(t: Tables, t': Tables, vlan: int, cfg: RouterConfig)
    requires Present(t, vlan, cfg) && SameFor(t, t', vlan, cfg)
    ensures Present(t', vlan, cfg)
  {
    forall i | 0 <= i < PLAN_SIZE ensures VlanEntry(i, vlan, cfg).attrs in t'[VlanEntry(i, vlan, cfg).path] {
      var e := VlanEntry(i, vlan, cfg);
      assert e == Entry(e.path, e.attrs);
      EntriesOfMembers(e.path, t[e.path], e.attrs, vlan, cfg);
      EntriesOfMembers(e.path, t'[e.path], e.attrs, vlan, cfg);
    }
  }

  lemma {:induction false} AddedArePresent(t: Tables, es: seq<Entry>, e: Entry)
    requires e in es
    ensures e.attrs in AddAll(t, es)[e.path]
  {
    var last := es[|es| - 1];
    assert es == es[..|es| - 1] + [last];
    if e != last {
      AddedArePresent(t, es[..|es| - 1], e);
    }
  }

  lemma FullyAppliedIsPresent(t: Tables, vlan: int, cfg: RouterConfig)
    ensures Present(AddAll(t, VlanEntries(vlan, cfg)), vlan, cfg)
  {
    forall i | 0 <= i < PLAN_SIZE
      ensures VlanEntry(i, vlan, cfg).attrs in AddAll(t, VlanEntries(vlan, cfg))[VlanEntry(i, vlan, cfg).path]
    {
      assert VlanEntries(vlan, cfg)[i] in VlanEntries(vlan, cfg);
      AddedArePresent(t, VlanEntries(vlan, cfg), VlanEntry(i, vlan, cfg));
    }
  }
}
