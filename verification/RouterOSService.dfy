/** The router client: each command is refused or carried out, and the three configuration methods
    are ordered sequences of them. Which commands the router accepts is an input. */
module RouterOSClient {
  import opened Text
  import opened Addressing
  import opened RouterTables
  import opened VlanPlan
  import opened RouterReading

  const ROUTE_ATTEMPTS := 5

  /** Whether the router accepts addition `i`; the two route additions are tried five times. */
  ghost predicate Accepted(accepts: (nat, nat) -> bool, i: nat) {
    if i < 13 then accepts(i, 0) else exists a: nat :: a < ROUTE_ATTEMPTS && accepts(i, a)
  }

  function Attempts(accepts: (nat, nat) -> bool, i: nat): nat -> bool { (a: nat) => accepts(i, a) }

  lemma AttemptsAccepted(accepts: (nat, nat) -> bool, i: nat)
    requires i >= 13
    ensures Accepted(accepts, i) <==> exists a: nat :: a < ROUTE_ATTEMPTS && Attempts(accepts, i)(a)
  {
    if a: nat :| a < ROUTE_ATTEMPTS && accepts(i, a) {
      assert Attempts(accepts, i)(a);
    }
    if a: nat :| a < ROUTE_ATTEMPTS && Attempts(accepts, i)(a) {
      assert accepts(i, a);
    }
  }

  /** How many of the additions are made before the first refusal. */
  ghost function MadeFrom(accepts: (nat, nat) -> bool, i: nat): (n: nat)
    requires i <= PLAN_SIZE
    ensures i <= n <= PLAN_SIZE
    ensures forall j | i <= j < n :: Accepted(accepts, j)
    ensures n < PLAN_SIZE ==> !Accepted(accepts, n)
    decreases PLAN_SIZE - i
  {
    if i == PLAN_SIZE || !Accepted(accepts, i) then i else MadeFrom(accepts, i + 1)
  }

  ghost function Made(accepts: (nat, nat) -> bool): nat { MadeFrom(accepts, 0) }

  /** Of the additions up to number `made`, all but that one are accepted. */
  ghost predicate StopsAt(accepts: (nat, nat) -> bool, made: nat) {
    made <= PLAN_SIZE && forall k: nat | k < PLAN_SIZE && k <= made :: Accepted(accepts, k) <==> k < made
  }

  lemma MadeStops(accepts: (nat, nat) -> bool)
    ensures StopsAt(accepts, Made(accepts))
  {
  }

  lemma AddAllStep(t: Tables, es: seq<Entry>, k: nat)
    requires k < |es|
    ensures AddAll(t, es[..k + 1]) == Add(AddAll(t, es[..k]), es[k])
  {
    assert es[..k + 1][..k] == es[..k];
  }

  /** A removal takes effect when both its commands are carried out. */
  function BothOk(printed: nat -> bool, removed: nat -> bool): nat -> bool {
    (i: nat) => printed(i) && removed(i)
  }

  /** Some removal of the sequence fails: a command is refused or there is nothing to remove. */
  predicate SomeRemovalFails(t: Tables, fs: seq<Entry>, ok: nat -> bool) {
    fs != [] &&
    var i := |fs| - 1;
    || !ok(i) || NoneMatches(t, fs[i])
    || SomeRemovalFails(Delete(t, fs[i]), fs[..i], ok)
  }

  /** What a sequence of removals comes to: the tables it leaves and whether some removal failed. */
  function Outcome(t: Tables, fs: seq<Entry>, ok: nat -> bool): (Tables, bool) {
    (RemoveAll(t, fs, ok), SomeRemovalFails(t, fs, ok))
  }

  lemma OutcomeStep(t: Tables, fs: seq<Entry>, ok: nat -> bool, k: nat)
    requires k < |fs|
    ensures var t' := if ok(k) then Delete(t, fs[k]) else t;
            && RemoveAll(t, fs[..k + 1], ok) == RemoveAll(t', fs[..k], ok)
            && (SomeRemovalFails(t, fs[..k + 1], ok)
                <==> !ok(k) || NoneMatches(t, fs[k]) || SomeRemovalFails(t', fs[..k], ok))
  {
    assert fs[..k + 1][..k] == fs[..k];
  }

  /** The peer of one VM, reached through its own /32 and its VLAN's /24. */
  function VmPeer(vlan: int, identifier: int, ipAddWithSubnet: string, userPubKey: string): Entry
    requires |Split(ipAddWithSubnet, '.')| >= 4
  {
    PeerEntry(WireguardName(vlan), PeerName(vlan, identifier), userPubKey,
              [GetNetworkAddressWithSubnet(ipAddWithSubnet), GetInterfaceAddressWithSubnet(ipAddWithSubnet)])
  }

  class RouterOSService {
    var tables: Tables
    const cfg: RouterConfig

    constructor (cfg: RouterConfig, tables: Tables)
      ensures this.cfg == cfg && this.tables == tables
    {
      this.cfg := cfg;
      this.tables := tables;
    }

    /** One add command: refused without effect, or the record is appended. */
    method Run(e: Entry, accepted: bool) returns (err: bool)
      modifies this`tables
      ensures err == !accepted
      ensures tables == if accepted then Add(old(tables), e) else old(tables)
    {
      err := !accepted;
      if accepted {
        tables := Add(tables, e);
      }
    }

    /** Addition `k` of a plan of which the first `k` are made. */
    method Step(e: Entry, accepted: bool, ghost accepts: (nat, nat) -> bool, ghost made: nat,
                ghost before: Tables, ghost es: seq<Entry>, ghost k: nat)
      returns (err: bool)
      requires StopsAt(accepts, made) && k <= made && k < PLAN_SIZE && accepted == Accepted(accepts, k)
      requires k < |es| && e == es[k] && tables == AddAll(before, es[..k])
      modifies this`tables
      ensures err <==> made == k
      ensures tables == AddAll(before, es[..if err then k else k + 1])
    {
      err := Run(e, accepted);
      AddAllStep(before, es, k);
    }

    /** Removal `k` of a plan, with `k` still to come; `failed` accumulates the errors. */
    method RemoveStep(f: Entry, printed: nat -> bool, removed: nat -> bool, failed: bool,
                      ghost fs: seq<Entry>, k: nat, ghost end: (Tables, bool))
      returns (err: bool)
      requires k < |fs| && f == fs[k]
      requires end.0 == RemoveAll(tables, fs[..k + 1], BothOk(printed, removed))
      requires end.1 == (failed || SomeRemovalFails(tables, fs[..k + 1], BothOk(printed, removed)))
      modifies this`tables
      ensures end.0 == RemoveAll(tables, fs[..k], BothOk(printed, removed))
      ensures end.1 == (err || SomeRemovalFails(tables, fs[..k], BothOk(printed, removed)))
    {
      OutcomeStep(tables, fs, BothOk(printed, removed), k);
      var missed := RemoveByFilter(f, printed(k), removed(k));
      err := failed || missed;
    }

    /** Print with a filter and remove what comes first; either command may fail. */
    method RemoveByFilter(f: Entry, printed: bool, removed: bool) returns (err: bool)
      modifies this`tables
      ensures err <==> !(printed && HasMatch(old(tables)[f.path], f.attrs) && removed)
      ensures tables == if printed && removed then Delete(old(tables), f) else old(tables)
    {
      var found := tables[f.path];
      var i := 0;
      while i < |found| && !Matches(found[i], f.attrs)
        invariant i <= |found|
        invariant forall j | 0 <= j < i :: !Matches(found[j], f.attrs)
      {
        i := i + 1;
      }
      assert HasMatch(found, f.attrs) <==> i < |found|;
      if !printed { return true; }
      if i == |found| {
        DeleteMisses(tables, f);
        return true;
      }
      RemoveFirstAt(found, i, f.attrs);
      if !removed { return true; }
      tables := tables[f.path := found[..i] + found[i + 1..]];
      err := false;
    }

    /** A route addition is tried up to five times and made at most once. */
    method AddRoute(dst: string, gateway: string, table: string, accepts: nat -> bool) returns (err: bool)
      modifies this`tables
      ensures err <==> !exists a: nat :: a < ROUTE_ATTEMPTS && accepts(a)
      ensures var e := RouteEntry(dst, Shown(cfg.gateways, gateway), table);
              tables == if err then old(tables) else Add(old(tables), e)
    {
      for a := 0 to ROUTE_ATTEMPTS
        invariant tables == old(tables)
        invariant forall b: nat | b < a :: !accepts(b)
      {
        var refused := Run(RouteEntry(dst, Shown(cfg.gateways, gateway), table), accepts(a));
        if !refused {
          return false;
        }
      }
      return true;
    }

    /** The fifteen additions in order, stopping at the first that is refused. */
    method ApplyVlanConfig(vlan: int, accepts: (nat, nat) -> bool) returns (err: bool)
      modifies this`tables
      ensures err <==> Made(accepts) < PLAN_SIZE
      ensures tables == AddAll(old(tables), VlanEntries(vlan, cfg)[..Made(accepts)])
      ensures !err && VlanInRange(vlan) ==> Serves(tables, vlan, cfg)
    {
      hide Serves, StopsAt, InterfaceAddition, AddressAddition, RuleAddition, RouteAddition;
      ghost var before, es := tables, VlanEntries(vlan, cfg);
      ghost var made := Made(accepts);
      EntriesListed(vlan, cfg);
      MadeStops(accepts);
      err := ApplyInterfaces(vlan, accepts, made, before, es);
      if err { return; }
      err := ApplyMembers(vlan, accepts, made, before, es);
      if err { return; }
      err := ApplyAddresses(vlan, accepts, made, before, es);
      if err { return; }
      err := ApplyOutwardRules(vlan, accepts, made, before, es);
      if err { return; }
      err := ApplyInwardRules(vlan, accepts, made, before, es);
      if err { return; }
      err := ApplyRoutes(vlan, accepts, made, before, es);
      if !err && VlanInRange(vlan) {
        assert es[..PLAN_SIZE] == es;
        FullyAppliedServes(before, vlan, cfg);
      }
    }

    /** Additions 0 to 4: the WireGuard and VLAN interfaces, their list, VRF and bridge entry. */
    method ApplyInterfaces(vlan: int, accepts: (nat, nat) -> bool, ghost made: nat, ghost before: Tables,
                           ghost es: seq<Entry>)
      returns (err: bool)
      requires StopsAt(accepts, made) && made >= 0 && |es| == PLAN_SIZE && tables == AddAll(before, es[..0])
      requires es[0] == InterfaceAddition(0, vlan, cfg) && es[1] == InterfaceAddition(1, vlan, cfg)
               && es[2] == InterfaceAddition(2, vlan, cfg) && es[3] == InterfaceAddition(3, vlan, cfg)
               && es[4] == InterfaceAddition(4, vlan, cfg)
      modifies this`tables
      ensures err <==> made < 5
      ensures tables == AddAll(before, es[..if err then made else 5])
    {
      err := Step(WireguardEntry(WireguardName(vlan), GetVlanRouterPort(vlan), 1420), accepts(0, 0), accepts, made,
                  before, es, 0);
      if err { return; }
      err := Step(VlanInterfaceEntry(cfg.vlanBridge, VlanName(vlan), vlan), accepts(1, 0), accepts, made, before, es,
                  1);
      if err { return; }
      err := Step(InterfaceListEntry(ListName(vlan)), accepts(2, 0), accepts, made, before, es, 2);
      if err { return; }
      err := Step(VrfEntry(VrfName(vlan), [VlanName(vlan), WireguardName(vlan)]), accepts(3, 0), accepts, made,
                  before, es, 3);
      if err { return; }
      err := Step(BridgeVlanEntry(cfg.vlanBridge, vlan, cfg.taggedBridges), accepts(4, 0), accepts, made, before, es,
                  4);
      if err { return; }
    }

    /** Additions 5 and 6: the list members. */
    method ApplyMembers(vlan: int, accepts: (nat, nat) -> bool, ghost made: nat, ghost before: Tables,
                        ghost es: seq<Entry>)
      returns (err: bool)
      requires StopsAt(accepts, made) && made >= 5 && |es| == PLAN_SIZE && tables == AddAll(before, es[..5])
      requires es[5] == AddressAddition(5, vlan) && es[6] == AddressAddition(6, vlan)
      modifies this`tables
      ensures err <==> made < 7
      ensures tables == AddAll(before, es[..if err then made else 7])
    {
      err := Step(ListMemberEntry(VlanName(vlan), ListName(vlan)), accepts(5, 0), accepts, made, before, es, 5);
      if err { return; }
      err := Step(ListMemberEntry(WireguardName(vlan), ListName(vlan)), accepts(6, 0), accepts, made, before, es, 6);
    }

    /** Additions 7 and 8: the two gateway addresses. */
    method ApplyAddresses(vlan: int, accepts: (nat, nat) -> bool, ghost made: nat, ghost before: Tables,
                          ghost es: seq<Entry>)
      returns (err: bool)
      requires StopsAt(accepts, made) && made >= 7 && |es| == PLAN_SIZE && tables == AddAll(before, es[..7])
      requires es[7] == AddressAddition(7, vlan) && es[8] == AddressAddition(8, vlan)
      modifies this`tables
      ensures err <==> made < 9
      ensures tables == AddAll(before, es[..if err then made else 9])
    {
      err := Step(IpAddressEntry(VlanGatewayAddress(vlan), VlanName(vlan)), accepts(7, 0), accepts, made, before, es,
                  7);
      if err { return; }
      err := Step(IpAddressEntry(VpnGatewayAddress(vlan), WireguardName(vlan)), accepts(8, 0), accepts, made, before,
                  es, 8);
    }

    /** Additions 9 and 10: the firewall lets the tunnel in and the VLAN out. */
    method ApplyOutwardRules(vlan: int, accepts: (nat, nat) -> bool, ghost made: nat, ghost before: Tables,
                             ghost es: seq<Entry>)
      returns (err: bool)
      requires StopsAt(accepts, made) && made >= 9 && |es| == PLAN_SIZE && tables == AddAll(before, es[..9])
      requires es[9] == RuleAddition(9, vlan) && es[10] == RuleAddition(10, vlan)
      modifies this`tables
      ensures err <==> made < 11
      ensures tables == AddAll(before, es[..if err then made else 11])
    {
      err := Step(FirewallEntry("accept", "input", WanInput(GetVlanRouterPort(vlan))), accepts(9, 0), accepts, made,
                  before, es, 9);
      if err { return; }
      err := Step(FirewallEntry("accept", "forward", FromTo(ListName(vlan), "WAN")), accepts(10, 0), accepts, made,
                  before, es, 10);
    }

    /** Additions 11 and 12: within the VLAN and back in. */
    method ApplyInwardRules(vlan: int, accepts: (nat, nat) -> bool, ghost made: nat, ghost before: Tables,
                            ghost es: seq<Entry>)
      returns (err: bool)
      requires StopsAt(accepts, made) && made >= 11 && |es| == PLAN_SIZE && tables == AddAll(before, es[..11])
      requires es[11] == RuleAddition(11, vlan) && es[12] == RuleAddition(12, vlan)
      modifies this`tables
      ensures err <==> made < 13
      ensures tables == AddAll(before, es[..if err then made else 13])
    {
      err := Step(FirewallEntry("accept", "forward", FromTo(ListName(vlan), ListName(vlan))), accepts(11, 0),
                  accepts, made, before, es, 11);
      if err { return; }
      err := Step(FirewallEntry("accept", "forward", FromTo("WAN", ListName(vlan))), accepts(12, 0), accepts, made,
                  before, es, 12);
    }

    /** Additions 13 and 14: the routes into and out of the VRF. */
    method ApplyRoutes(vlan: int, accepts: (nat, nat) -> bool, ghost made: nat, ghost before: Tables,
                       ghost es: seq<Entry>)
      returns (err: bool)
      requires StopsAt(accepts, made) && made >= 13 && |es| == PLAN_SIZE && tables == AddAll(before, es[..13])
      requires es[13] == RouteAddition(13, vlan, cfg) && es[14] == RouteAddition(14, vlan, cfg)
      modifies this`tables
      ensures err <==> made < PLAN_SIZE
      ensures tables == AddAll(before, es[..made])
    {
      err := AddRoute(GetVlanNetworkIpWithSubnet(vlan), LeakGateway(vlan), "main", Attempts(accepts, 13));
      AttemptsAccepted(accepts, 13);
      if err { return; }
      AddAllStep(before, es, 13);
      err := AddRoute("0.0.0.0/0", cfg.externalGateway + MAIN_SUFFIX, VrfName(vlan), Attempts(accepts, 14));
      AttemptsAccepted(accepts, 14);
      if err { return; }
      AddAllStep(before, es, 14);
    }

    /** The fifteen removals, last addition first, carrying on past every error. */
    method RemoveVlanConfig(vlan: int, printed: nat -> bool, removed: nat -> bool) returns (err: bool)
      modifies this`tables
      ensures tables == RemoveAll(old(tables), VlanFilters(vlan, cfg), BothOk(printed, removed))
      ensures err == SomeRemovalFails(old(tables), VlanFilters(vlan, cfg), BothOk(printed, removed))
    {
      ghost var fs := VlanFilters(vlan, cfg);
      ghost var end := Outcome(tables, fs, BothOk(printed, removed));
      FiltersListed(vlan, cfg);
      assert fs[..PLAN_SIZE] == fs && fs[..0] == [];
      err := RemoveRoutes(vlan, printed, removed, false, fs, end);
      err := RemoveRules(vlan, printed, removed, err, fs, end);
      err := RemoveAddresses(vlan, printed, removed, err, fs, end);
      err := RemoveInterfaces(vlan, printed, removed, err, fs, end);
    }

    /** Removals 14 down to 13. */
    method RemoveRoutes(vlan: int, printed: nat -> bool, removed: nat -> bool, failed: bool,
                  ghost fs: seq<Entry>, ghost end: (Tables, bool))
      returns (err: bool)
      requires |fs| == PLAN_SIZE && fs[13] == RouteFilter(13, vlan, cfg) && fs[14] == RouteFilter(14, vlan, cfg)
      requires end.0 == RemoveAll(tables, fs[..15], BothOk(printed, removed))
      requires end.1 == (failed || SomeRemovalFails(tables, fs[..15], BothOk(printed, removed)))
      modifies this`tables
      ensures end.0 == RemoveAll(tables, fs[..13], BothOk(printed, removed))
      ensures end.1 == (err || SomeRemovalFails(tables, fs[..13], BothOk(printed, removed)))
    {
      err := failed;
      err := RemoveStep(RouteEntry("0.0.0.0/0", cfg.externalGateway, VrfName(vlan)), printed, removed, err, fs, 14,
                        end);
      err := RemoveStep(RouteEntry(GetVlanNetworkIpWithSubnet(vlan), LeakGateway(vlan), "main"), printed, removed,
                        err, fs, 13, end);
    }

    /** Removals 12 down to 9. */
    method RemoveRules(vlan: int, printed: nat -> bool, removed: nat -> bool, failed: bool,
                  ghost fs: seq<Entry>, ghost end: (Tables, bool))
      returns (err: bool)
      requires |fs| == PLAN_SIZE && fs[9] == RuleAddition(9, vlan) && fs[10] == RuleAddition(10, vlan)
               && fs[11] == RuleAddition(11, vlan) && fs[12] == RuleAddition(12, vlan)
      requires end.0 == RemoveAll(tables, fs[..13], BothOk(printed, removed))
      requires end.1 == (failed || SomeRemovalFails(tables, fs[..13], BothOk(printed, removed)))
      modifies this`tables
      ensures end.0 == RemoveAll(tables, fs[..9], BothOk(printed, removed))
      ensures end.1 == (err || SomeRemovalFails(tables, fs[..9], BothOk(printed, removed)))
    {
      err := failed;
      err := RemoveStep(FirewallEntry("accept", "forward", FromTo("WAN", ListName(vlan))), printed, removed, err, fs,
                        12, end);
      err := RemoveStep(FirewallEntry("accept", "forward", FromTo(ListName(vlan), ListName(vlan))), printed, removed,
                        err, fs, 11, end);
      err := RemoveStep(FirewallEntry("accept", "forward", FromTo(ListName(vlan), "WAN")), printed, removed, err, fs,
                        10, end);
      err := RemoveStep(FirewallEntry("accept", "input", WanInput(GetVlanRouterPort(vlan))), printed, removed, err,
                        fs, 9, end);
    }

    /** Removals 8 down to 5. */
    method RemoveAddresses(vlan: int, printed: nat -> bool, removed: nat -> bool, failed: bool,
                  ghost fs: seq<Entry>, ghost end: (Tables, bool))
      returns (err: bool)
      requires |fs| == PLAN_SIZE && fs[5] == AddressAddition(5, vlan) && fs[6] == AddressAddition(6, vlan)
               && fs[7] == AddressAddition(7, vlan) && fs[8] == AddressAddition(8, vlan)
      requires end.0 == RemoveAll(tables, fs[..9], BothOk(printed, removed))
      requires end.1 == (failed || SomeRemovalFails(tables, fs[..9], BothOk(printed, removed)))
      modifies this`tables
      ensures end.0 == RemoveAll(tables, fs[..5], BothOk(printed, removed))
      ensures end.1 == (err || SomeRemovalFails(tables, fs[..5], BothOk(printed, removed)))
    {
      err := failed;
      err := RemoveStep(IpAddressEntry(VpnGatewayAddress(vlan), WireguardName(vlan)), printed, removed, err, fs, 8,
                        end);
      err := RemoveStep(IpAddressEntry(VlanGatewayAddress(vlan), VlanName(vlan)), printed, removed, err, fs, 7, end);
      err := RemoveStep(ListMemberEntry(WireguardName(vlan), ListName(vlan)), printed, removed, err, fs, 6, end);
      err := RemoveStep(ListMemberEntry(VlanName(vlan), ListName(vlan)), printed, removed, err, fs, 5, end);
    }

    /** Removals 4 down to 0. */
    method RemoveInterfaces(vlan: int, printed: nat -> bool, removed: nat -> bool, failed: bool,
                  ghost fs: seq<Entry>, ghost end: (Tables, bool))
      returns (err: bool)
      requires |fs| == PLAN_SIZE && fs[0] == InterfaceFilter(0, vlan, cfg) && fs[1] == InterfaceFilter(1, vlan, cfg)
               && fs[2] == InterfaceFilter(2, vlan, cfg) && fs[3] == InterfaceFilter(3, vlan, cfg)
               && fs[4] == InterfaceFilter(4, vlan, cfg)
      requires end.0 == RemoveAll(tables, fs[..5], BothOk(printed, removed))
      requires end.1 == (failed || SomeRemovalFails(tables, fs[..5], BothOk(printed, removed)))
      modifies this`tables
      ensures end.0 == RemoveAll(tables, fs[..0], BothOk(printed, removed))
      ensures end.1 == (err || SomeRemovalFails(tables, fs[..0], BothOk(printed, removed)))
    {
      err := failed;
      err := RemoveStep(Entry(BridgeVlan, map[Bridge := cfg.vlanBridge, VlanIds := Itoa(vlan)]), printed, removed,
                        err, fs, 4, end);
      err := RemoveStep(NameFilter(Vrf, VrfName(vlan)), printed, removed, err, fs, 3, end);
      err := RemoveStep(NameFilter(InterfaceList, ListName(vlan)), printed, removed, err, fs, 2, end);
      err := RemoveStep(NameFilter(Vlan, VlanName(vlan)), printed, removed, err, fs, 1, end);
      err := RemoveStep(NameFilter(Wireguard, WireguardName(vlan)), printed, removed, err, fs, 0, end);
    }

    method ApplyVmConfig(vlan: int, identifier: int, ipAddWithSubnet: string, userPubKey: string, accepted: bool)
      returns (err: bool)
      requires |Split(ipAddWithSubnet, '.')| >= 4
      modifies this`tables
      ensures err == !accepted
      ensures tables == if err then old(tables)
                        else Add(old(tables), VmPeer(vlan, identifier, ipAddWithSubnet, userPubKey))
      ensures !err && VlanInRange(vlan) && IdentifierInRange(identifier)
              && ipAddWithSubnet == GetIpAddWithSubnet(vlan, identifier)
              ==> Connects(tables, vlan, identifier, userPubKey)
    {
      if VlanInRange(vlan) && IdentifierInRange(identifier) {
        TakenApart(vlan, identifier);
        PeerConnects(tables, vlan, identifier, userPubKey);
      }
      err := Run(VmPeer(vlan, identifier, ipAddWithSubnet, userPubKey), accepted);
    }

    method RemoveVmConfig(vlan: int, identifier: int, printed: bool, removed: bool) returns (err: bool)
      modifies this`tables
      ensures err <==> !(printed && removed && !NoneMatches(old(tables), PeerFilter(vlan, identifier)))
      ensures tables == if printed && removed then Delete(old(tables), PeerFilter(vlan, identifier)) else old(tables)
    {
      err := RemoveByFilter(PeerFilter(vlan, identifier), printed, removed);
    }

    /** Looks the VLAN's interface up by name; the key itself is the router's to make. */
    method GetWireguardPublicKey(name: string, printed: bool) returns (err: bool)
      ensures err <==> !(printed && HasMatch(tables[Wireguard], map[Name := name]))
    {
      err := !printed || !HasMatch(tables[Wireguard], map[Name := name]);
    }
  }
}
