/** The requests of vms-manager, each run from start to end: how they use the database, the router
    and the agents, and what they leave behind when some of those fail. */
module VmsManagement {
  import opened Wrappers
  import opened Text
  import opened Addressing
  import opened Schema
  import opened Postgres
  import opened RouterTables
  import opened VlanPlan
  import opened RouterReading
  import opened RouterOSClient
  import opened InstanceStatus
  import opened Fleet
  import opened ServiceInvariant
  import opened WireguardReading
  import opened WireguardText

  /** Which router commands succeed during one configuration or removal. */
  datatype RouterFaults = RouterFaults(
    accepts: (nat, nat) -> bool,
    printed: nat -> bool,
    removed: nat -> bool,
    keyPrinted: bool,
    peerAccepted: bool,
    peerPrinted: bool,
    peerRemoved: bool)

  /** The first `n` removals, if they are needed. */
  predicate RemovalsSucceed(faults: RouterFaults,
                            n: nat) { forall i: nat | i < n :: BothOk(faults.printed, faults.removed)(i) }

  datatype VmNetworkConfig = VmNetworkConfig(
    ipAddWithSubnet: string, gateway: string, vlanEtiquete: string, vmVlanIdentifier: int)

  function NetworkConfig(vlan: int, identifier: int): VmNetworkConfig {
    VmNetworkConfig(GetIpAddWithSubnet(vlan, identifier), GetVlanGatewayIp(vlan), GetVlanEtiquete(vlan, identifier),
                    identifier)
  }

  /** What a VM is told: an address of its VLAN's network and as gateway that network's first address; and
      a name that tells it from every other VM. */
  lemma NetworkConfigMeans(vlan: int, identifier: int, v: int, i: int)
    requires VlanInRange(vlan) && IdentifierInRange(identifier) && 0 <= v
    ensures var config := NetworkConfig(vlan, identifier);
            && ParseCidr(config.ipAddWithSubnet) == Cidr(Addressing.Address(10, 0, vlan - 100, identifier + 1), 24)
            && ParseCidr(config.gateway + "/24") == Cidr(Addressing.Address(10, 0, vlan - 100, 1), 24)
            && (config.vlanEtiquete == NetworkConfig(v, i).vlanEtiquete <==> v == vlan && i == identifier)
  {
    hide Addressing.Address, ParseCidr, GetVlanGatewayIp, GetIpAddWithSubnet;
    VmAddressReads(vlan, identifier);
    GatewayReads(vlan);
    if GetVlanEtiquete(vlan, identifier) == GetVlanEtiquete(v, i) {
      EtiquettesDistinct(vlan, identifier, v, i);
    }
  }

  datatype CreateRequest = CreateRequest(
    sourceVmId: VmId, sizeMB: int, vcpuCount: int, vramMB: int,
    username: string, password: string, subjectId: SubjectId, userWgPubKey: string)

  predicate WellFormed(r: CreateRequest) {
    && r.sizeMB > 0 && r.vcpuCount > 0 && r.vramMB > 0
    && r.username != "" && r.password != "" && r.subjectId != "" && r.userWgPubKey != ""
  }

  datatype CreateResponse = CreateResponse(
    instanceId: VmId, interfaceAddress: string, peerAllowedIps: seq<string>, peerEndpointPort: int)

  /** A create request succeeds, is refused or fails before its VM is stored, fails to read the new row
      back, fails at a router step and deletes what it stored, or is still in a retry loop, with the
      VLAN or identifier it picked. */
  datatype CreateResult =
    | Created(response: CreateResponse)
    | NotStored
    | Unread(instanceId: VmId)
    | RolledBack
    | Unfinished(pick: int)

  /** How a part of a create request ends: it goes on, fails, or is still in a retry loop. */
  datatype Progress = Passed | Stopped | Spinning(pick: int)

  /** What a request that is still in a retry loop picked is in use: a VLAN if its subject is not stored,
      otherwise an identifier of the subject. */
  predicate Taken(d: Db, subject: SubjectId, pick: int) {
    if subject in d.subjects then pick in Identifiers(d, subject) else pick in Vlans(d)
  }

  /** Nothing, or a new subject with the first free VLAN. */
  predicate SubjectAdded(d: Db, d': Db, subject: SubjectId) {
    || d' == d
    || NewSubject(d, d', subject)
  }

  predicate NewSubject(d: Db, d': Db, subject: SubjectId) {
    var vlan := FirstFree(Vlans(d), FIRST_VLAN);
    VlanInRange(vlan) && CanInsertSubject(d, subject, vlan) && d' == InsertSubject(d, subject, vlan)
  }

  predicate HasSource(d: Db, r: CreateRequest) {
    WellFormed(r) && r.sourceVmId in d.vms && IsSource(d.vms[r.sourceVmId])
  }

  predicate SomeIdFree(d: Db, uuids: nat -> VmId) { exists k | 0 <= k < ID_ATTEMPTS :: uuids(k) !in d.vms }

  /** What a caller can check to know that a create request stores a subject, whatever becomes of it. */
  predicate StoresSubject(d: Db, r: CreateRequest, uuids: nat -> VmId) {
    HasSource(d, r) && SomeIdFree(d, uuids) && r.subjectId !in d.subjects && |Vlans(d)| < 255
  }

  /** A VLAN for the subject and an identifier in it are left. */
  predicate NumbersLeft(d: Db, subject: SubjectId) {
    (subject in d.subjects || |Vlans(d)| < 255) && |Identifiers(d, subject)| < 253
  }

  lemma SameIdentifiers(d: Db, d': Db, subject: SubjectId)
    requires d'.vms == d.vms
    ensures Identifiers(d', subject) == Identifiers(d, subject)
  {
  }

  lemma IdentifiersFit(d: Db, subject: SubjectId)
    requires Allocated(d)
    ensures |Identifiers(d, subject)| <= 253
  {
    SubsetSize(Identifiers(d, subject), Interval(1, MAX_VMS_PER_VLAN));
  }

  /** What a caller can check to know that a create request gets as far as the router. */
  predicate CanPlace(d: Db, r: CreateRequest, uuids: nat -> VmId, alive: seq<bool>, choice: Option<nat>) {
    HasSource(d, r) && SomeIdFree(d, uuids) && NumbersLeft(d, r.subjectId) && CanChoose(alive, choice)
  }

  predicate VlanConfigured(d: Db, vlan: int) {
    exists s :: s in d.subjects && d.subjects[s].vlan == vlan && d.subjects[s].configured
  }

  predicate SubjectConfigured(d: Db, subject: SubjectId) { subject in d.subjects && d.subjects[subject].configured }

  /** Every router step of the request succeeds; a configured VLAN needs no configuration. */
  ghost predicate RouterAccepts(faults: RouterFaults, configured: bool) {
    (configured || Made(faults.accepts) == 15) && faults.keyPrinted && faults.peerAccepted
  }

  function WithVlan(t: Tables, configured: bool, vlan: int, cfg: RouterConfig): Tables {
    if configured then t else AddAll(t, VlanEntries(vlan, cfg))
  }

  /** A database with one base image and a request it cannot place: the subject it stores has no VM. */
  lemma CreateCanLeaveSubject(uuids: nat -> VmId)
    requires uuids(0) != "b"
    ensures exists d, d', r :: InventoryGood(d) && StoresSubject(d, r, uuids) && NewSubject(d, d', r.subjectId)
                               && VmsOf(d', r.subjectId) == {}
  {
    var d := Db(map[], map["b" := BaseRow("debian")]);
    var r := CreateRequest("b", 1, 1, 1, "user", "password", "s", "key");
    assert SomeIdFree(d, uuids) by { assert 0 <= 0 < ID_ATTEMPTS && uuids(0) !in d.vms; }
    assert Vlans(d) == {} && FirstFree({}, FIRST_VLAN) == FIRST_VLAN;
    assert r.sourceVmId in d.vms && StoresSubject(d, r, uuids);
    var d' := InsertSubject(d, "s", FIRST_VLAN);
    assert NewSubject(d, d', "s") && VmsOf(d', "s") == {};
    assert InventoryGood(d);
  }

  predicate RowStoredAs(d: Db, d': Db, r: CreateRequest, id: VmId) {
    && id !in d.vms
    && d'.vms == d.vms[id := InstanceRow(r.sourceVmId, r.subjectId, FirstFree(Identifiers(d, r.subjectId), 1))]
  }

  /** The addresses of an identifier in range in the subject's VLAN: the first free one if it is free. */
  predicate Configured(d: Db, subject: SubjectId, config: VmNetworkConfig) {
    && subject in d.subjects && IdentifierInRange(config.vmVlanIdentifier)
    && config == NetworkConfig(d.subjects[subject].vlan, config.vmVlanIdentifier)
    && (config.vmVlanIdentifier == FirstFree(Identifiers(d, subject), 1)
        <==> config.vmVlanIdentifier !in Identifiers(d, subject))
  }

  /** The row of the new instance, under some new id. */
  ghost predicate RowStored(d: Db, d': Db, r: CreateRequest) { exists id :: RowStoredAs(d, d', r, id) }

  function VlanFor(d: Db, subject: SubjectId): int {
    if subject in d.subjects then d.subjects[subject].vlan else FirstFree(Vlans(d), FIRST_VLAN)
  }

  /** Nothing on the router matches the VLAN's filters or the peer the request is to add. */
  predicate NothingOfIt(d: Db, t: Tables, cfg: RouterConfig, r: CreateRequest) {
    && Clean(t, VlanFilters(VlanFor(d, r.subjectId), cfg))
    && NoneMatches(t, PeerFilter(VlanFor(d, r.subjectId), FirstFree(Identifiers(d, r.subjectId), 1)))
  }

  /** The WireGuard interface of a configured VLAN is found by its name. */
  lemma InterfaceIsFound(t: Tables, vlan: int, cfg: RouterConfig)
    requires Present(t, vlan, cfg)
    ensures HasMatch(t[Wireguard], map[Name := WireguardName(vlan)])
  {
    FilterHitsOwn(0, vlan, cfg);
    assert VlanEntry(0, vlan, cfg).attrs in t[VlanEntry(0, vlan, cfg).path];
  }

  lemma ConfiguredBySubject(d: Db, d': Db, subject: SubjectId)
    requires Constraints(d') && subject in d'.subjects && FlagsKept(d, d', subject)
    ensures VlanConfigured(d', d'.subjects[subject].vlan) <==> SubjectConfigured(d, subject)
  {
  }

  lemma VlanIsPresent(d: Db, t: Tables, cfg: RouterConfig, vlan: int)
    requires ConfiguredArePresent(d, t, cfg) && vlan in Vlans(d)
    requires forall s | s in d.subjects && d.subjects[s].vlan == vlan :: d.subjects[s].configured
    ensures Present(t, vlan, cfg) && !Clean(t, VlanFilters(vlan, cfg))
  {
    var s :| s in d.subjects && d.subjects[s].vlan == vlan;
    PresentIsNotClean(t, vlan, cfg);
  }

  /** A configured VLAN is not clean. */
  lemma PresentIsNotClean(t: Tables, vlan: int, cfg: RouterConfig)
    requires Present(t, vlan, cfg)
    ensures !Clean(t, VlanFilters(vlan, cfg))
  {
    FilterHitsOwn(0, vlan, cfg);
    assert VlanFilters(vlan, cfg)[0] == VlanFilter(0, vlan, cfg);
    assert VlanEntry(0, vlan, cfg).attrs in t[VlanEntry(0, vlan, cfg).path];
  }

  /** At most the VLAN's configured flag is new. */
  predicate SameButFlag(d: Db, d': Db, vlan: int) { d' == d || d' == SetVlanAsConfigured(d, vlan) }

  lemma FlagIsSet(d: Db, vlan: int)
    requires Constraints(d) && VlanConfigured(d, vlan)
    ensures SetVlanAsConfigured(d, vlan) == d
  {
    assert SetVlanAsConfigured(d, vlan).subjects == d.subjects;
  }

  /** No row of another subject changes. */
  ghost predicate OthersKept(d: Db, d': Db, subject: SubjectId) {
    forall s | s != subject :: (s in d'.subjects <==> s in d.subjects)
                               && (s in d.subjects ==> d'.subjects[s] == d.subjects[s])
  }

  function WithoutInstance(d: Db, id: VmId): Db
    requires id in d.vms && d.vms[id].subjectId.Some?
  {
    var subject := d.vms[id].subjectId.value;
    var d' := Schema.DeleteVm(d, id);
    if |VmsOf(d, subject)| == 1 then Schema.DeleteSubject(d', subject) else d'
  }

  /** The peer's removal is asked for. */
  function WithoutPeer(d: Db, t: Tables, id: VmId, faults: RouterFaults): Tables
    requires id in d.vms && d.vms[id].subjectId.Some? && d.vms[id].subjectId.value in d.subjects
    requires d.vms[id].vlanIdentifier.Some?
  {
    var peer := PeerFilter(d.subjects[d.vms[id].subjectId.value].vlan, d.vms[id].vlanIdentifier.value);
    if faults.peerPrinted && faults.peerRemoved then RouterTables.Delete(t, peer) else t
  }

  /** The VLAN's fifteen removals are carried out. */
  function WithoutVlan(t: Tables, vlan: int, cfg: RouterConfig, faults: RouterFaults): Tables {
    RemoveAll(t, VlanFilters(vlan, cfg), BothOk(faults.printed, faults.removed))
  }

  /** The router after a delete request: with the last VM of a configured subject the VLAN's
      configuration goes, unless the database fails to say that it is configured. */
  predicate RouterAfterDelete(d: Db, t: Tables, t': Tables, cfg: RouterConfig, id: VmId, faults: RouterFaults, up: bool)
    requires id in d.vms && d.vms[id].subjectId.Some? && d.vms[id].subjectId.value in d.subjects
    requires d.vms[id].vlanIdentifier.Some?
  {
    var subject := d.vms[id].subjectId.value;
    var t1 := WithoutPeer(d, t, id, faults);
    if |VmsOf(d, subject)| == 1 && d.subjects[subject].configured
    then t' == WithoutVlan(t1, d.subjects[subject].vlan, cfg, faults) || (!up && t' == t1)
    else t' == t1
  }

  /** What a successful create request stored and answered. */
  ghost predicate CreatedAs(d: Db, d': Db, r: CreateRequest, response: CreateResponse) {
    var id := response.instanceId;
    && HasSource(d, r)
    && id !in d.vms
    && var vlan, identifier := VlanFor(d, r.subjectId), FirstFree(Identifiers(d, r.subjectId), 1);
    && d'.subjects == d.subjects[r.subjectId := Subject(vlan, true)]
    && d'.vms == d.vms[id := InstanceRow(r.sourceVmId, r.subjectId, identifier)]
    && response.interfaceAddress == TunnelAddress(vlan, identifier)
    && response.peerEndpointPort == 20000 + vlan
    && response.peerAllowedIps == [GetVlanNetworkIpWithSubnet(vlan), TunnelNetwork(vlan)]
  }

  /** The new row is stored, with the first free identifier of its subject's VLAN. */
  predicate Reserved(d: Db, d': Db, r: CreateRequest, id: VmId, config: VmNetworkConfig, vlan: int) {
    && RowStoredAs(d, d', r, id)
    && r.subjectId in d'.subjects && d'.subjects[r.subjectId].vlan == vlan && vlan in Vlans(d')
    && vlan == VlanFor(d, r.subjectId)
    && config == NetworkConfig(vlan, FirstFree(Identifiers(d, r.subjectId), 1))
  }

  /** Only the request's subject may be new, and a new subject is not configured. */
  ghost predicate FlagsKept(d: Db, d': Db, subject: SubjectId) {
    && OthersKept(d, d', subject)
    && (subject in d'.subjects ==> d'.subjects[subject].configured == SubjectConfigured(d, subject))
  }

  lemma AddedSubjectKeepsFlags(d: Db, d': Db, subject: SubjectId)
    requires SubjectAdded(d, d', subject)
    ensures FlagsKept(d, d', subject)
  {
  }

  lemma ReservedAfter(d0: Db, d1: Db, d2: Db, r: CreateRequest, id: VmId, config: VmNetworkConfig)
    requires SubjectAdded(d0, d1, r.subjectId) && id !in d1.vms && Configured(d1, r.subjectId, config)
    requires config.vmVlanIdentifier == FirstFree(Identifiers(d1, r.subjectId), 1)
    requires d2 == InsertVm(d1, id, InstanceRow(r.sourceVmId, r.subjectId, config.vmVlanIdentifier))
    requires d2.subjects[r.subjectId].vlan in Vlans(d2)
    ensures Reserved(d0, d2, r, id, config, d2.subjects[r.subjectId].vlan) && FlagsKept(d0, d2, r.subjectId)
  {
    SameIdentifiers(d0, d1, r.subjectId);
  }

  function Answer(id: VmId, config: VmNetworkConfig, vlan: int): CreateResponse
    requires |Split(config.ipAddWithSubnet, '.')| >= 4
    requires |Split(GetInterfaceAddressWithSubnet(config.ipAddWithSubnet), '.')| >= 3
  {
    CreateResponse(id, GetInterfaceAddressWithSubnet(config.ipAddWithSubnet),
                   GetPeerAllowedIps(config.ipAddWithSubnet), GetVlanRouterPort(vlan))
  }

  lemma SameRow(d0: Db, d1: Db, d2: Db, r: CreateRequest, id: VmId, vlan: int)
    requires Constraints(d1) && RowStoredAs(d0, d1, r, id) && FlagsKept(d0, d1, r.subjectId)
    requires r.subjectId in d1.subjects && d1.subjects[r.subjectId].vlan == vlan && SameButFlag(d1, d2, vlan)
    ensures RowStoredAs(d0, d2, r, id) && id in d2.vms && OthersKept(d0, d2, r.subjectId)
    ensures r.subjectId in d2.subjects && d2.subjects[r.subjectId].vlan == vlan
  {
  }

  lemma SubjectIsConfigured(d0: Db, d1: Db, subject: SubjectId, vlan: int)
    requires Constraints(d1) && OthersKept(d0, d1, subject)
    requires subject in d1.subjects && d1.subjects[subject].vlan == vlan
    ensures SetVlanAsConfigured(d1, vlan).subjects == d0.subjects[subject := Subject(vlan, true)]
    ensures OthersKept(d0, SetVlanAsConfigured(d1, vlan), subject)
  {
  }

  /** What was reserved and connected is what the answer says. */
  lemma ConnectedAs(d0: Db, d1: Db, d2: Db, r: CreateRequest, id: VmId, config: VmNetworkConfig, vlan: int)
    requires HasSource(d0, r) && Reserved(d0, d1, r, id, config, vlan)
    requires Constraints(d1) && FlagsKept(d0, d1, r.subjectId) && d2 == SetVlanAsConfigured(d1, vlan)
    ensures |Split(config.ipAddWithSubnet, '.')| >= 4
    ensures |Split(GetInterfaceAddressWithSubnet(config.ipAddWithSubnet), '.')| >= 3
    ensures CreatedAs(d0, d2, r, Answer(id, config, vlan)) && OthersKept(d0, d2, r.subjectId)
    ensures VmPeer(vlan, config.vmVlanIdentifier, config.ipAddWithSubnet, r.userWgPubKey) == OwnPeer(d0, r)
  {
    hide Constraints, OthersKept, HasSource, FirstFree, Split, Itoa, Dotted, VlanFor, Identifiers, Vlans;
    TakenApart(vlan, config.vmVlanIdentifier);
    SubjectIsConfigured(d0, d1, r.subjectId, vlan);
  }

  /** The user's peer for a new instance: allowed its own tunnel address and its VLAN's network. */
  function OwnPeer(d: Db, r: CreateRequest): Entry {
    PeerOf(VlanFor(d, r.subjectId), FirstFree(Identifiers(d, r.subjectId), 1), r.userWgPubKey)
  }

  /** The router after a create request: the VLAN's fifteen entries unless they were there, and the peer. */
  function RouterAfterCreate(d: Db, t: Tables, cfg: RouterConfig, r: CreateRequest): Tables {
    Add(WithVlan(t, SubjectConfigured(d, r.subjectId), VlanFor(d, r.subjectId), cfg), OwnPeer(d, r))
  }

  /** A peer added where its filter finds nothing goes again with its removal. */
  lemma PeerComesAndGoes(t: Tables, vlan: int, identifier: int, key: string)
    requires 0 <= vlan && NoneMatches(t, PeerFilter(vlan, identifier))
    ensures RouterTables.Delete(Add(t, PeerOf(vlan, identifier, key)), PeerFilter(vlan, identifier)) == t
  {
    PeerRemovalHitsOwnOnly(vlan, identifier, vlan, identifier, key,
                           [GetVlanNetworkIpWithSubnet(vlan), TunnelAddress(vlan, identifier)]);
    DeleteLast(t, PeerOf(vlan, identifier, key), PeerFilter(vlan, identifier));
  }

  lemma ConfigurationLeavesPeers(t: Tables, vlan: int, cfg: RouterConfig, f: Entry)
    requires f.path.WireguardPeers? && NoneMatches(t, f)
    ensures NoneMatches(AddAll(t, VlanEntries(vlan, cfg)), f)
  {
    var es := VlanEntries(vlan, cfg);
    forall e | e in es ensures !Hits(f, e) {
      var i :| 0 <= i < |es| && es[i] == e;
      PlanPaths(i, vlan, cfg);
    }
    MatchesAfterAdding(t, es, f);
  }

  /** The only row with the subject is the new one. */
  lemma NewSubjectHasOneVm(d0: Db, d1: Db, id: VmId, subject: SubjectId)
    requires Constraints(d0) && subject !in d0.subjects
    requires id in d1.vms && d1.vms == d0.vms[id := d1.vms[id]] && d1.vms[id].subjectId == Some(subject)
    ensures VmsOf(d1, subject) == {id}
  {
  }

  /** A VM of a new subject, created on a router with no trace of it and then deleted without a failure:
      the inventory is as it was, and so is the router if and only if it shows gateways without "@main";
      otherwise it keeps exactly the VLAN's default route. */
  lemma CreateThenDelete(d0: Db, d1: Db, t0: Tables, t1: Tables, t2: Tables, cfg: RouterConfig, r: CreateRequest,
                         response: CreateResponse, faults: RouterFaults)
    requires Constraints(d0) && r.subjectId !in d0.subjects && NothingOfIt(d0, t0, cfg, r)
    requires CreatedAs(d0, d1, r, response) && t1 == RouterAfterCreate(d0, t0, cfg, r)
    requires RouterAfterDelete(d1, t1, t2, cfg, response.instanceId, faults, true)
    requires faults.peerPrinted && faults.peerRemoved && RemovalsSucceed(faults, 15)
    ensures WithoutInstance(d1, response.instanceId) == d0
    ensures t2 == t0 <==> cfg.gateways.WithoutMain?
    ensures cfg.gateways.AsGiven? ==> t2 == Add(t0, VlanEntry(14, VlanFor(d0, r.subjectId), cfg))
  {
    var vlan, identifier := VlanFor(d0, r.subjectId), FirstFree(Identifiers(d0, r.subjectId), 1);
    hide Constraints, HasSource, VlanEntries, VlanFilters, VlanEntry, VlanFilter, TunnelAddress, Dotted;
    var ok := BothOk(faults.printed, faults.removed);
    NewSubjectHasOneVm(d0, d1, response.instanceId, r.subjectId);
    assert WithoutInstance(d1, response.instanceId).subjects == d0.subjects;
    assert WithoutInstance(d1, response.instanceId).vms == d0.vms;
    ConfigurationLeavesPeers(t0, vlan, cfg, PeerFilter(vlan, identifier));
    PeerComesAndGoes(AddAll(t0, VlanEntries(vlan, cfg)), vlan, identifier, r.userWgPubKey);
    assert t2 == RemoveAll(AddAll(t0, VlanEntries(vlan, cfg)), VlanFilters(vlan, cfg), ok);
    forall i | 0 <= i < PLAN_SIZE ensures ok(i) {
    }
    FullRemovalIsExactIff(t0, vlan, cfg, ok);
  }

  /** A new subject's VM, stored and its VLAN configured, can be undone on the router. */
  predicate Undoable(d: Db, t: Tables, cfg: RouterConfig, r: CreateRequest, undo: RouterFaults) {
    r.subjectId !in d.subjects && NothingOfIt(d, t, cfg, r) && RemovalsSucceed(undo, 15)
  }

  /** The tables without the new subject's VLAN, but for the default route if gateways are shown as given. */
  function Undone(d: Db, t: Tables, cfg: RouterConfig, r: CreateRequest): Tables {
    if cfg.gateways.AsGiven? then Add(t, VlanEntry(14, VlanFor(d, r.subjectId), cfg)) else t
  }

  lemma UndoneIsExact(d0: Db, d2: Db, t: Tables, t': Tables, cfg: RouterConfig, r: CreateRequest, id: VmId,
                      undo: RouterFaults)
    requires Constraints(d0) && Undoable(d0, t, cfg, r, undo) && RowStoredAs(d0, d2, r, id)
    requires r.subjectId in d2.subjects && d2.subjects[r.subjectId] == Subject(VlanFor(d0, r.subjectId), true)
    requires RouterAfterDelete(d2, AddAll(t, VlanEntries(VlanFor(d0, r.subjectId), cfg)), t', cfg, id, undo, true)
    ensures t' == Undone(d0, t, cfg, r)
  {
    hide HasSource, VlanEntries, VlanFilters, VlanEntry, VlanFilter, TunnelAddress, Dotted;
    var vlan, identifier := VlanFor(d0, r.subjectId), FirstFree(Identifiers(d0, r.subjectId), 1);
    var ok := BothOk(undo.printed, undo.removed);
    NewSubjectHasOneVm(d0, d2, id, r.subjectId);
    ConfigurationLeavesPeers(t, vlan, cfg, PeerFilter(vlan, identifier));
    DeleteMisses(AddAll(t, VlanEntries(vlan, cfg)), PeerFilter(vlan, identifier));
    forall i | 0 <= i < PLAN_SIZE ensures ok(i) {
    }
    FullRemovalIsExactIff(t, vlan, cfg, ok);
  }

  /** One more VM of a configured subject that has others, created and deleted: inventory and router
      are as they were. */
  lemma CreateThenDeleteAnother(d0: Db, d1: Db, t0: Tables, t1: Tables, t2: Tables, cfg: RouterConfig, r: CreateRequest,
                                response: CreateResponse, faults: RouterFaults)
    requires Allocated(d0) && SubjectConfigured(d0, r.subjectId) && VmsOf(d0, r.subjectId) != {}
    requires NoneMatches(t0, PeerFilter(VlanFor(d0, r.subjectId), FirstFree(Identifiers(d0, r.subjectId), 1)))
    requires CreatedAs(d0, d1, r, response) && t1 == RouterAfterCreate(d0, t0, cfg, r)
    requires RouterAfterDelete(d1, t1, t2, cfg, response.instanceId, faults, true)
    requires faults.peerPrinted && faults.peerRemoved
    ensures WithoutInstance(d1, response.instanceId) == d0 && t2 == t0
  {
    var id := response.instanceId;
    LastMeansNoOther(d1, id, r.subjectId);
    OthersOf(d0, d1, id, r.subjectId);
    assert d1.subjects == d0.subjects;
    assert WithoutInstance(d1, id).vms == d0.vms;
    PeerComesAndGoes(t0, VlanFor(d0, r.subjectId), FirstFree(Identifiers(d0, r.subjectId), 1), r.userWgPubKey);
  }

  /** The user's peer leads to the VM, and the router serves the VM's VLAN. */
  ghost predicate ConnectedVm(d: Db, t: Tables, cfg: RouterConfig, r: CreateRequest) {
    && Serves(t, VlanFor(d, r.subjectId), cfg)
    && Connects(t, VlanFor(d, r.subjectId), FirstFree(Identifiers(d, r.subjectId), 1), r.userWgPubKey)
  }

  lemma CreatedIsConnected(d0: Db, d2: Db, t0: Tables, t2: Tables, cfg: RouterConfig, r: CreateRequest,
                           response: CreateResponse)
    requires InRange(d2) && CreatedAs(d0, d2, r, response) && t2 == RouterAfterCreate(d0, t0, cfg, r)
    requires Present(t2, VlanFor(d0, r.subjectId), cfg)
    ensures ConnectedVm(d0, t2, cfg, r)
  {
    hide HasSource, Present, Serves, Connects, WithVlan, PeerOf, FirstFree, TunnelAddress, GetVlanNetworkIpWithSubnet;
    var vlan, identifier := VlanFor(d0, r.subjectId), FirstFree(Identifiers(d0, r.subjectId), 1);
    assert d2.subjects[r.subjectId].vlan == vlan;
    assert d2.vms[response.instanceId].vlanIdentifier == Some(identifier);
    PresentServes(t2, vlan, cfg);
    PeerConnects(WithVlan(t0, SubjectConfigured(d0, r.subjectId), vlan, cfg), vlan, identifier, r.userWgPubKey);
  }

  /** The answer to a create request, printed with the user's own key and shown in the browser, describes
      the tunnel that the router lets through to the VM. */
  lemma AnswerDescribesTheVm(d0: Db, d2: Db, r: CreateRequest, response: CreateResponse, privateKey: string,
                             peerKey: string, endpoint: string)
    requires InRange(d2) && CreatedAs(d0, d2, r, response)
    requires IsBase64(privateKey) && IsBase64(peerKey) && AllPlain(endpoint)
    ensures var n, i := VlanFor(d0, r.subjectId), FirstFree(Identifiers(d0, r.subjectId), 1);
            var conf := WireguardConfig(privateKey, response.interfaceAddress, peerKey, response.peerAllowedIps,
                                        response.peerEndpointPort);
            && VlanInRange(n) && IdentifierInRange(i)
            && ReadTunnel(FormatConfig(Encode(GetWireguardConfig(conf, endpoint))))
               == Some(Tunnel(privateKey, Cidr(Addressing.Address(10, 1, n - 100, i + 1), 32), peerKey,
                              [Cidr(Addressing.Address(10, 0, n - 100, 0), 24),
                               Cidr(Addressing.Address(10, 1, n - 100, 0), 24)],
                              endpoint, 20000 + n))
  {
    hide HasSource, ReadTunnel, FormatConfig, GetWireguardConfig, Encode, Addressing.Address, Itoa, FirstFree,
         TunnelAddress, Identifiers, Vlans;
    var n, i := VlanFor(d0, r.subjectId), FirstFree(Identifiers(d0, r.subjectId), 1);
    assert d2.subjects[r.subjectId].vlan == n;
    assert d2.vms[response.instanceId].vlanIdentifier == Some(i);
    TakenApart(n, i);
    ShownConfigDescribesTheVm(n, i, privateKey, peerKey, endpoint);
  }

  /** Some row carries the description. */
  predicate Described(d: Db, description: string) {
    exists i :: i in d.vms && d.vms[i].description == Some(description)
  }

  /** Rows may be added, none is changed. */
  predicate Extends(d: Db, d': Db) {
    d'.subjects == d.subjects && forall i | i in d.vms :: i in d'.vms && d'.vms[i] == d.vms[i]
  }

  predicate AllDescribed(d: Db, names: seq<string>) { forall n | n in names :: Described(d, n) }

  lemma DescribedStays(d: Db, d': Db, names: seq<string>)
    requires Extends(d, d') && AllDescribed(d, names)
    ensures AllDescribed(d', names)
  {
    forall n | n in names ensures Described(d', n) {
      var i :| i in d.vms && d.vms[i].description == Some(n);
      assert d'.vms[i].description == Some(n);
    }
  }

  lemma OneMoreDescribed(d: Db, names: seq<string>, k: nat)
    requires k < |names| && AllDescribed(d, names[..k]) && Described(d, names[k])
    ensures AllDescribed(d, names[..k + 1])
  {
    assert names[..k + 1] == names[..k] + [names[k]];
  }

  datatype Request =
    | Create(r: CreateRequest, uuids: nat -> VmId, faults: RouterFaults, undo: RouterFaults, choice: Option<nat>,
             downFor: nat, watched: nat)
    | Delete(id: VmId, faults: RouterFaults, downFor: nat)
    | Start(id: VmId, choice: Option<nat>)
    | Stop(id: VmId)
    | Define(id: VmId, sizeMB: int, vcpuCount: int, vramMB: int, uuids: nat -> VmId, choice: Option<nat>, downFor: nat)
    | RemoveTemplate(id: VmId, downFor: nat)
    | Environment(hosts: seq<Domains>, alive: seq<bool>, up: bool, obliging: bool)

  /** The database stays up, and a create request is watched beyond the attempts that find it down. */
  predicate StaysUp(q: Request) {
    match q
    case Create(_, _, _, _, _, downFor, watched) => downFor < watched
    case Environment(_, _, up, _) => up
    case _ => true
  }

  /** Between requests VMs may stop and agents may come and go; no VM starts by itself, every domain
      is running or shut off, and a silent agent runs none. */
  predicate MayBecome(hosts: seq<Domains>, hosts': seq<Domains>, alive: seq<bool>) {
    && |hosts'| == |hosts| == |alive|
    && forall a | 0 <= a < |hosts'| :: forall id | id in hosts'[a] ::
         || hosts'[a][id] == SHUTOFF_STATUS
         || (hosts'[a][id] == RUNNING_STATUS && alive[a] && id in hosts[a] && hosts[a][id] == RUNNING_STATUS)
  }

  lemma EnvironmentKeepsSound(hosts: seq<Domains>, hosts': seq<Domains>, alive: seq<bool>, alive': seq<bool>)
    requires Sound(hosts, alive) && MayBecome(hosts, hosts', alive')
    ensures Sound(hosts', alive')
  {
    assert RUNNING_STATUS[0] != SHUTOFF_STATUS[0];
    forall a: nat, id | RunsOn(hosts', a, id) ensures RunsOn(hosts, a, id) && alive'[a] {
    }
  }

  lemma OthersOf(d0: Db, d2: Db, id: VmId, subject: SubjectId)
    requires id !in d0.vms && id in d2.vms && d2.vms == d0.vms[id := d2.vms[id]]
    ensures (exists i :: i in d2.vms && i != id && d2.vms[i].subjectId == Some(subject)) <==> VmsOf(d0, subject) != {}
  {
    if i :| i in d2.vms && i != id && d2.vms[i].subjectId == Some(subject) {
      assert i in VmsOf(d0, subject);
    }
    if VmsOf(d0, subject) != {} {
      var i :| i in VmsOf(d0, subject);
      assert i in d2.vms && i != id && d2.vms[i].subjectId == Some(subject);
    }
  }

  lemma RollbackRestores(d0: Db, d2: Db, id: VmId, subject: SubjectId)
    requires id !in d0.vms && id in d2.vms && d2.vms[id].subjectId == Some(subject)
             && d2.vms == d0.vms[id := d2.vms[id]]
    requires subject in d2.subjects && OthersKept(d0, d2, subject)
    ensures var d' := WithoutInstance(d2, id);
            d'.vms == d0.vms && (subject in d'.subjects <==> VmsOf(d0, subject) != {}) && OthersKept(d0, d', subject)
  {
    LastMeansNoOther(d2, id, subject);
    OthersOf(d0, d2, id, subject);
  }

  predicate NoneDependsOn(d: Db, gone: set<VmId>) {
    forall i | i in d.vms && d.vms[i].dependsOn.Some? :: d.vms[i].dependsOn.value !in gone
  }

  lemma DropsKeep(d: Db, d': Db, gone: set<VmId>)
    requires InventoryGood(d) && DropsOnly(d, d', gone)
    ensures Allocated(d')
    ensures NoneDependsOn(d, gone) ==> InventoryGood(d')
  {
  }

  const ID_ATTEMPTS := 11

  /** The ids drawn for the images are new and differ from image to image, as fresh UUIDs do. */
  predicate FreshIds(d: Db, uuids: (nat, nat) -> VmId, n: nat) {
    && (forall k: nat, j: nat | k < n && j < ID_ATTEMPTS :: uuids(k, j) !in d.vms)
    && (forall k: nat, j: nat, k': nat, j': nat | k < k' < n && j < ID_ATTEMPTS && j' < ID_ATTEMPTS ::
          uuids(k, j) != uuids(k', j'))
  }

  predicate Drawn(uuids: nat -> VmId, id: VmId) { exists j :: 0 <= j < ID_ATTEMPTS && uuids(j) == id }

  class VmsManager {
    const db: PostgresDatabase
    const router: RouterOSService
    const agents: ServerAgents

    constructor (db: PostgresDatabase, router: RouterOSService, agents: ServerAgents)
      ensures this.db == db && this.router == router && this.agents == agents
    {
      this.db := db;
      this.router := router;
      this.agents := agents;
    }

    ghost predicate Valid()
      reads this, db, router, agents
    {
      && InventoryGood(db.tables)
      && ConfiguredArePresent(db.tables, router.tables, router.cfg)
      && Sound(agents.hosts, agents.alive)
    }

    /** The database is up and every agent answers and does what it is asked. */
    ghost predicate AllWell()
      reads db, agents
    {
      db.up && agents.obliging && forall a | 0 <= a < |agents.alive| :: agents.alive[a]
    }

    // ----- The four retry loops. `downFor` is how many attempts find the database down. The two
    // ----- inserts may never succeed, so they are watched for a number of attempts.

    method AddVmToDb(id: VmId, vm: Vm, downFor: nat, watched: nat) returns (stored: bool, attempts: nat)
      modifies db`tables
      ensures stored <==> downFor < watched && CanInsertVm(old(db.tables), id, vm)
      ensures attempts == if stored then downFor + 1 else watched
      ensures db.tables == if stored then InsertVm(old(db.tables), id, vm) else old(db.tables)
    {
      stored, attempts := false, 0;
      while attempts < watched
        invariant attempts <= watched && !stored && db.tables == old(db.tables)
        invariant CanInsertVm(db.tables, id, vm) ==> attempts <= downFor
      {
        var err := db.AddVm(id, vm, attempts < downFor);
        attempts := attempts + 1;
        if !err { return true, attempts; }
      }
    }

    method DeleteVmFromDb(id: VmId, downFor: nat) returns (attempts: nat)
      modifies db`tables
      ensures attempts == downFor + 1
      ensures db.tables == Schema.DeleteVm(old(db.tables), id)
    {
      attempts := 0;
      while true
        invariant attempts <= downFor && db.tables == old(db.tables)
        decreases downFor - attempts
      {
        var err := db.DeleteVm(id, attempts < downFor);
        attempts := attempts + 1;
        if !err { return; }
      }
    }

    method AddSubjectToDb(id: SubjectId, vlan: int, downFor: nat, watched: nat) returns (stored: bool, attempts: nat)
      modifies db`tables
      ensures stored <==> downFor < watched && CanInsertSubject(old(db.tables), id, vlan)
      ensures attempts == if stored then downFor + 1 else watched
      ensures db.tables == if stored then InsertSubject(old(db.tables), id, vlan) else old(db.tables)
    {
      stored, attempts := false, 0;
      while attempts < watched
        invariant attempts <= watched && !stored && db.tables == old(db.tables)
        invariant CanInsertSubject(db.tables, id, vlan) ==> attempts <= downFor
      {
        var err := db.AddSubject(id, vlan, attempts < downFor);
        attempts := attempts + 1;
        if !err { return true, attempts; }
      }
    }

    method DeleteSubjectFromDb(id: SubjectId, downFor: nat) returns (attempts: nat)
      requires CanDeleteSubject(db.tables, id)
      modifies db`tables
      ensures attempts == downFor + 1
      ensures db.tables == Schema.DeleteSubject(old(db.tables), id)
    {
      attempts := 0;
      while true
        invariant attempts <= downFor && db.tables == old(db.tables)
        decreases downFor - attempts
      {
        var err := db.DeleteSubject(id, attempts < downFor);
        attempts := attempts + 1;
        if !err { return; }
      }
    }

    // ----- Checks

    /** Draws ids until one is unknown to the database; gives up after eleven failures. */
    method GenerateNewVmId(uuids: nat -> VmId) returns (err: bool, id: VmId, ghost drawn: nat)
      ensures 1 <= drawn <= ID_ATTEMPTS && id == uuids(drawn - 1)
      ensures if err then drawn == ID_ATTEMPTS else id !in db.tables.vms
      ensures db.up ==> forall k: nat | k < drawn - 1 :: uuids(k) in db.tables.vms
      ensures db.up ==> (err <==> !SomeIdFree(db.tables, uuids))
    {
      var errorCount := 0;
      drawn := 0;
      while true
        invariant 0 <= errorCount < ID_ATTEMPTS && drawn == errorCount
        invariant db.up ==> forall k: nat | k < errorCount :: uuids(k) in db.tables.vms
        decreases ID_ATTEMPTS - errorCount
      {
        id := uuids(errorCount);
        drawn := drawn + 1;
        var failed, known := db.VmExistsById(id);
        if !known && !failed {
          assert 0 <= errorCount < ID_ATTEMPTS && uuids(errorCount) !in db.tables.vms;
          return false, id, drawn;
        }
        errorCount := errorCount + 1;
        if errorCount > 10 { return true, id, drawn; }
      }
    }

    method CheckIfVmExists(id: VmId) returns (err: bool)
      ensures !err ==> id in db.tables.vms
      ensures db.up && id in db.tables.vms ==> !err
    {
      var failed, known := db.VmExistsById(id);
      err := failed || !known;
    }

    method CheckIfVmIsTemplateOrBase(id: VmId) returns (err: bool)
      ensures !err ==> id in db.tables.vms && IsInstance(db.tables.vms[id])
      ensures db.up && id in db.tables.vms && IsInstance(db.tables.vms[id]) ==> !err
    {
      var yes: bool;
      err, yes := db.VmIsTemplate(id);
      if err || yes { return true; }
      err, yes := db.VmIsBase(id);
      err := err || yes;
    }

    /** The status check over all agents: when it passes, the VM runs somewhere exactly if that was
        wanted. */
    method CheckIfVmIsRunning(id: VmId, wantRunning: bool) returns (err: bool)
      requires SilentIdle(agents.hosts, agents.alive)
      ensures !err ==> (wantRunning <==> !Nowhere(agents.hosts, id))
      ensures db.up && agents.obliging && (wantRunning <==> !Nowhere(agents.hosts, id)) ==> !err
    {
      var replies := agents.AllReplies();
      var failed, ids := db.GetAllVmIds();
      var merged := ListInstancesStatus(replies, if failed then None else Some(ids));
      if merged.None? { return true; }
      MergeSeesRunning(agents.hosts, agents.alive, replies, ids, merged.value, id);
      err := InstanceStatus.CheckIfVmIsRunning(merged.value, id, wantRunning);
    }

    // ----- Network allocation

    /** The list read may have been cut short; then the VLAN found may be taken. */
    method GetFirstAvailableVlan() returns (err: bool, vlan: int)
      requires Allocated(db.tables)
      ensures !err
              ==> VlanInRange(vlan) && (vlan == FirstFree(Vlans(db.tables), FIRST_VLAN) <==> vlan !in Vlans(db.tables))
      ensures db.up ==> (err <==> |Vlans(db.tables)| == 255)
      ensures db.up && !err ==> vlan !in Vlans(db.tables)
    {
      var vlans: seq<int>;
      vlan := 0;
      err, vlans := db.GetAllVlans();
      if err { return; }
      ghost var part := set v | v in vlans;
      ListSize(vlans, part);
      if db.up {
        ListedSet(vlans, Vlans(db.tables));
      }
      if |vlans| == MAX_VLANS { return true, 0; }
      vlan := FirstFreeFrom(vlans, FIRST_VLAN);
      FirstFreeInRange(vlans, part, FIRST_VLAN, MAX_VLANS);
      CutReadFindsFreeIff(part, Vlans(db.tables), FIRST_VLAN);
    }

    method GetFirstAvailableVmVlanIdentifier(vlan: int, ghost subject: SubjectId) returns (err: bool, identifier: int)
      requires Allocated(db.tables) && subject in db.tables.subjects && db.tables.subjects[subject].vlan == vlan
      ensures !err ==> IdentifierInRange(identifier)
                       && (identifier == FirstFree(Identifiers(db.tables, subject), 1)
                           <==> identifier !in Identifiers(db.tables, subject))
      ensures db.up ==> (err <==> |Identifiers(db.tables, subject)| == 253)
      ensures db.up && !err ==> identifier !in Identifiers(db.tables, subject)
    {
      var identifiers: seq<int>;
      ghost var owner;
      identifier := 0;
      assert vlan in Vlans(db.tables);
      err, identifiers, owner := db.GetVmsVlanIdentifiers(vlan);
      if err { return; }
      assert owner == subject;
      ghost var part := set v | v in identifiers;
      ListSize(identifiers, part);
      if db.up {
        ListedSet(identifiers, Identifiers(db.tables, subject));
      }
      if |identifiers| == MAX_VMS_PER_VLAN { return true, 0; }
      identifier := FirstFreeFrom(identifiers, 1);
      FirstFreeInRange(identifiers, part, 1, MAX_VMS_PER_VLAN);
      CutReadFindsFreeIff(part, Identifiers(db.tables, subject), 1);
    }

    /** The VLAN of a new subject, allocated and stored. */
    method AllocateVlan(subject: SubjectId, downFor: nat, watched: nat) returns (progress: Progress, vlan: int)
      requires InventoryGood(db.tables) && subject !in db.tables.subjects
      modifies db`tables
      ensures InventoryGood(db.tables)
      ensures progress.Passed?
              ==> NewSubject(old(db.tables), db.tables, subject) && vlan == db.tables.subjects[subject].vlan
      ensures !progress.Passed? ==> db.tables == old(db.tables)
      ensures progress.Spinning?
              ==> (downFor < watched ==> progress.pick in Vlans(db.tables)) && (db.up ==> watched <= downFor)
      ensures db.up && !progress.Spinning? ==> (progress.Passed? <==> |Vlans(old(db.tables))| < 255)
    {
      var err, stored: bool;
      err, vlan := GetFirstAvailableVlan();
      VlansFit(db.tables);
      if err { return Stopped, vlan; }
      VlanInsertable(db.tables, subject, vlan);
      if vlan !in Vlans(db.tables) {
        SubjectInsertKeeps(db.tables, subject, vlan);
      }
      var attempts: nat;
      stored, attempts := AddSubjectToDb(subject, vlan, downFor, watched);
      progress := if stored then Passed else Spinning(vlan);
    }

    /** The subject's VLAN, allocated and stored if the subject is new, and an identifier in it, the
        first free one unless the list read was cut short. */
    method GetVmNetworkConfigFromSubjectId(subject: SubjectId, downFor: nat, watched: nat)
      returns (progress: Progress, config: VmNetworkConfig)
      requires InventoryGood(db.tables)
      modifies db`tables
      ensures InventoryGood(db.tables) && SubjectAdded(old(db.tables), db.tables, subject)
      ensures progress.Spinning? ==> subject !in db.tables.subjects && db.tables == old(db.tables)
                                     && (downFor < watched ==> progress.pick in Vlans(db.tables))
                                     && (db.up ==> watched <= downFor)
      ensures db.up && !progress.Spinning?
              ==> (db.tables != old(db.tables)
                   <==> subject !in old(db.tables).subjects && |Vlans(old(db.tables))| < 255)
      ensures db.up && !progress.Spinning? ==> (progress.Passed? <==> NumbersLeft(old(db.tables), subject))
      ensures progress.Passed? ==> Configured(db.tables, subject, config)
      ensures db.up && progress.Passed? ==> config.vmVlanIdentifier !in Identifiers(db.tables, subject)
    {
      var err, known: bool;
      var vlan, identifier: int;
      ghost var d := db.tables;
      config := NetworkConfig(0, 0);
      err, known := db.SubjectExistsById(subject);
      if err { return Stopped, config; }
      if !known {
        progress, vlan := AllocateVlan(subject, downFor, watched);
        if !progress.Passed? { return; }
      } else {
        err, vlan := db.GetSubjectVlan(subject);
        if err { return Stopped, config; }
      }
      SameIdentifiers(d, db.tables, subject);
      IdentifiersFit(d, subject);
      err, identifier := GetFirstAvailableVmVlanIdentifier(vlan, subject);
      if err { return Stopped, config; }
      return Passed, NetworkConfig(vlan, identifier);
    }

    // ----- Router configuration of a VLAN

    method AddVlanConfigIfNotExists(vlan: int, faults: RouterFaults) returns (err: bool)
      requires InventoryGood(db.tables) && ConfiguredArePresent(db.tables, router.tables, router.cfg)
      requires vlan in Vlans(db.tables)
      modifies db`tables, router`tables
      ensures InventoryGood(db.tables) && ConfiguredArePresent(db.tables, router.tables, router.cfg)
      ensures err ==> db.tables == old(db.tables)
      ensures db.up ==> (err <==> !VlanConfigured(old(db.tables), vlan) && Made(faults.accepts) < 15)
      ensures !err
              ==> router.tables == WithVlan(old(router.tables), VlanConfigured(old(db.tables), vlan), vlan, router.cfg)
      ensures !err ==> db.tables == SetVlanAsConfigured(old(db.tables), vlan)
                       && Present(router.tables, vlan, router.cfg)
      // A refused configuration is rolled back exactly if the removals of the additions made succeed.
      ensures Made(faults.accepts) < PLAN_SIZE && Clean(old(router.tables), VlanFilters(vlan, router.cfg))
              && RemovalsSucceed(faults, Made(faults.accepts))
              ==> err && router.tables == old(router.tables)
      // One whose flag cannot be set is too, except for the default route if gateways are shown as given.
      ensures err && Made(faults.accepts) == PLAN_SIZE && Clean(old(router.tables), VlanFilters(vlan, router.cfg))
              && RemovalsSucceed(faults, PLAN_SIZE)
              ==> router.tables == old(router.tables)
                  || (router.cfg.gateways.AsGiven?
                      && router.tables == Add(old(router.tables), VlanEntry(14, vlan, router.cfg)))
    {
      hide Constraints, InRange, SourcesExist, Made, VlanEntries, VlanFilters, VlanEntry;
      var configured: bool;
      err, configured := db.IsVlanConfigured(vlan);
      if err { return; }
      if !configured {
        ghost var d, t := db.tables, router.tables;
        err := ConfigureOrUndo(vlan, faults);
        if err { return; }
        err := db.SetVlanAsConfigured(vlan);
        if err {
          if Clean(t, VlanFilters(vlan, router.cfg)) && RemovalsSucceed(faults, PLAN_SIZE) {
            FullRemovalIsExactIff(t, vlan, router.cfg, BothOk(faults.printed, faults.removed));
          }
          RemoveKeepsOthers(d, router.tables, router.cfg, vlan, BothOk(faults.printed, faults.removed));
          var _ := router.RemoveVlanConfig(vlan, faults.printed, faults.removed);
          return;
        }
        FlagKeeps(d, vlan);
      } else {
        VlanIsPresent(db.tables, router.tables, router.cfg, vlan);
        FlagIsSet(db.tables, vlan);
      }
    }

    /** The fifteen additions, undone if one is refused. */
    method ConfigureOrUndo(vlan: int, faults: RouterFaults) returns (err: bool)
      requires Constraints(db.tables) && ConfiguredButPresent(db.tables, router.tables, router.cfg, vlan)
      modifies router`tables
      ensures err <==> Made(faults.accepts) < PLAN_SIZE
      ensures ConfiguredButPresent(db.tables, router.tables, router.cfg, vlan)
      ensures !err ==> Present(router.tables, vlan, router.cfg)
                       && router.tables == AddAll(old(router.tables), VlanEntries(vlan, router.cfg))
      ensures err && Clean(old(router.tables), VlanFilters(vlan, router.cfg))
              && RemovalsSucceed(faults, Made(faults.accepts))
              ==> router.tables == old(router.tables)
    {
      ghost var t, cfg := router.tables, router.cfg;
      ghost var ok := BothOk(faults.printed, faults.removed);
      err := router.ApplyVlanConfig(vlan, faults.accepts);
      ApplyKeepsOthers(db.tables, t, cfg, vlan, Made(faults.accepts));
      if err {
        RemoveKeepsOthers(db.tables, router.tables, cfg, vlan, ok);
        var _ := router.RemoveVlanConfig(vlan, faults.printed, faults.removed);
        if Clean(t, VlanFilters(vlan, cfg)) && RemovalsSucceed(faults, Made(faults.accepts)) {
          RollbackIsExact(t, vlan, cfg, Made(faults.accepts), ok);
        }
      } else {
        assert VlanEntries(vlan, cfg)[..PLAN_SIZE] == VlanEntries(vlan, cfg);
        FullyAppliedIsPresent(t, vlan, cfg);
      }
    }

    method DeleteVlanConfigWhenAvailable(vlan: int, faults: RouterFaults) returns (err: bool)
      requires Constraints(db.tables) && ConfiguredButPresent(db.tables, router.tables, router.cfg, vlan)
      modifies router`tables
      ensures ConfiguredButPresent(db.tables, router.tables, router.cfg, vlan)
      ensures if vlan in Vlans(db.tables) && VlanConfigured(db.tables, vlan)
              then router.tables == WithoutVlan(old(router.tables), vlan, router.cfg, faults)
                   || (!db.up && router.tables == old(router.tables))
              else router.tables == old(router.tables)
    {
      var configured: bool;
      err, configured := db.IsVlanConfigured(vlan);
      if err { return; }
      if configured {
        RemoveKeepsOthers(db.tables, router.tables, router.cfg, vlan, BothOk(faults.printed, faults.removed));
        var _ := router.RemoveVlanConfig(vlan, faults.printed, faults.removed);
      }
    }

    // ----- Deleting

    /** Asks every live agent to delete a VM; the first error ends the loop. */
    method DeleteOnAgents(id: VmId) returns (err: bool, agentsCalled: nat)
      requires Sound(agents.hosts, agents.alive)
      modifies agents`hosts
      ensures Sound(agents.hosts, agents.alive) && OnlyLoses(old(agents.hosts), agents.hosts, id)
      ensures !err ==> forall a | 0 <= a < |agents.hosts| && agents.alive[a] :: id !in agents.hosts[a]
      ensures !err ==> agentsCalled <= |agents.alive|
                       && (agentsCalled == |agents.alive| <==> forall a | 0 <= a < |agents.alive| :: agents.alive[a])
      ensures !err ==> (agentsCalled == 0 <==> forall a | 0 <= a < |agents.alive| :: !agents.alive[a])
      ensures agents.obliging ==> !err
    {
      err, agentsCalled := false, 0;
      for a := 0 to |agents.alive|
        invariant Sound(agents.hosts, agents.alive) && OnlyLoses(old(agents.hosts), agents.hosts, id)
        invariant forall b | 0 <= b < a && agents.alive[b] :: id !in agents.hosts[b]
        invariant 0 <= agentsCalled <= a && (agentsCalled == a <==> forall b | 0 <= b < a :: agents.alive[b])
        invariant agentsCalled == 0 <==> forall b | 0 <= b < a :: !agents.alive[b]
      {
        if agents.alive[a] {
          agentsCalled := agentsCalled + 1;
          ghost var before := agents.hosts;
          err := agents.DeleteVm(a, id);
          ShrinkKeepsSound(before, agents.hosts, agents.alive);
          if err { return; }
        }
      }
    }

    method DeleteInstance(id: VmId, faults: RouterFaults, downFor: nat) returns (err: bool)
      requires Valid()
      modifies db`tables, router`tables, agents`hosts
      ensures Valid() && OnlyLoses(old(agents.hosts), agents.hosts, id)
      ensures err ==> db.tables == old(db.tables) && router.tables == old(router.tables)
      ensures !err ==> id in old(db.tables).vms && IsInstance(old(db.tables).vms[id])
                       && old(db.tables).vms[id].subjectId.Some?
                       && db.tables == WithoutInstance(old(db.tables), id) && Undefined(agents.hosts, id)
                       && (forall a | 0 <= a < |agents.alive| :: agents.alive[a])
                       && RouterAfterDelete(old(db.tables), old(router.tables), router.tables, router.cfg, id, faults,
                                            db.up)
      // A VM that runs, or is no instance, is not touched; any other goes if nothing fails.
      ensures !(id in old(db.tables).vms && IsInstance(old(db.tables).vms[id]) && old(Nowhere(agents.hosts, id)))
              ==> err && agents.hosts == old(agents.hosts)
      ensures AllWell() && id in old(db.tables).vms && IsInstance(old(db.tables).vms[id])
              && old(Nowhere(agents.hosts, id))
              ==> !err
    {
      hide InRange, SourcesExist, AtMostOneHost, TwoStates, WithoutInstance, RouterAfterDelete, VmsOf;
      ghost var d, t, cfg := db.tables, router.tables, router.cfg;
      err := CheckIfVmExists(id);
      if err { return; }
      err := CheckIfVmIsTemplateOrBase(id);
      if err { return; }
      assert RowChecks(d.vms[id]);
      err := CheckIfVmIsRunning(id, false);
      if err { return; }
      var vlan, identifier: int;
      var isLast: bool;
      var subject: SubjectId;
      err, vlan := db.GetVlanByVmId(id);
      if err { return; }
      err, isLast := db.VmIsLastInstanceInSubject(id);
      if err { return; }
      var agentsCalled: nat;
      err, agentsCalled := DeleteOnAgents(id);
      if err { return; }
      if agentsCalled != |agents.alive| { return true; }
      err, subject := db.GetSubjectIdByVmId(id);
      if err { return; }
      err, identifier := db.GetVmVlanIdentifierByVmId(id);
      if err { return; }
      ForgetInstance(id, vlan, identifier, subject, isLast, faults, downFor);
      err := false;
    }

    /** The row, the peer and, with its last VM, the subject and its VLAN's configuration. */
    method ForgetInstance(id: VmId, vlan: int, identifier: int, subject: SubjectId, isLast: bool,
                          faults: RouterFaults, downFor: nat)
      requires InventoryGood(db.tables) && ConfiguredArePresent(db.tables, router.tables, router.cfg)
      requires id in db.tables.vms && IsInstance(db.tables.vms[id])
      requires db.tables.vms[id].subjectId == Some(subject) && db.tables.vms[id].vlanIdentifier == Some(identifier)
      requires subject in db.tables.subjects && db.tables.subjects[subject].vlan == vlan
      requires isLast <==> |VmsOf(db.tables, subject)| == 1
      modifies db`tables, router`tables
      ensures InventoryGood(db.tables) && ConfiguredArePresent(db.tables, router.tables, router.cfg)
      ensures db.tables == WithoutInstance(old(db.tables), id)
      ensures RouterAfterDelete(old(db.tables), old(router.tables), router.tables, router.cfg, id, faults, db.up)
    {
      ghost var d, t, cfg := db.tables, router.tables, router.cfg;
      hide InRange, SourcesExist, Present, VlanFilters;
      var _ := DeleteVmFromDb(id, downFor);
      VmDeleteKeeps(d, id);
      var _ := router.RemoveVmConfig(vlan, identifier, faults.peerPrinted, faults.peerRemoved);
      PeerChangeKeepsConfigured(db.tables, t, router.tables, cfg);
      if isLast {
        assert vlan in Vlans(db.tables);
        var _ := DeleteVlanConfigWhenAvailable(vlan, faults);
        LastVmFreesSubject(d, id, subject);
        SubjectDeleteKeeps(db.tables, subject);
        var _ := DeleteSubjectFromDb(subject, downFor);
      }
    }

    method DeleteTemplate(id: VmId, downFor: nat) returns (err: bool)
      requires Valid()
      modifies db`tables, agents`hosts
      ensures Valid() && OnlyLoses(old(agents.hosts), agents.hosts, id)
      ensures err ==> db.tables == old(db.tables)
      ensures !(id in old(db.tables).vms && old(db.tables).vms[id].isTemplate
                && forall i | i in old(db.tables).vms :: old(db.tables).vms[i].dependsOn != Some(id))
              ==> err && agents.hosts == old(agents.hosts)
      ensures !err ==> (forall a | 0 <= a < |agents.hosts| && agents.alive[a] :: id !in agents.hosts[a])
      ensures db.up && agents.obliging
              ==> (!err <==> id in old(db.tables).vms && old(db.tables).vms[id].isTemplate
                             && (forall i | i in old(db.tables).vms :: old(db.tables).vms[i].dependsOn != Some(id))
                             && exists a :: 0 <= a < |agents.alive| && agents.alive[a])
      ensures !err ==> id in old(db.tables).vms && old(db.tables).vms[id].isTemplate
                       && (forall i | i in old(db.tables).vms :: old(db.tables).vms[i].dependsOn != Some(id))
                       && db.tables == Schema.DeleteVm(old(db.tables), id)
    {
      ghost var d := db.tables;
      var yes: bool;
      err := CheckIfVmExists(id);
      if err { return; }
      err, yes := db.VmIsTemplate(id);
      if err || !yes { return true; }
      err, yes := db.VmHasInstancesThatDependOnIt(id);
      if err || yes { return true; }
      var agentsCalled: nat;
      err, agentsCalled := DeleteOnAgents(id);
      if err || agentsCalled == 0 { return true; }
      var _ := DeleteVmFromDb(id, downFor);
      VmDeleteKeeps(d, id);
    }

    // ----- Starting and stopping

    method StartInstance(id: VmId, choice: Option<nat>) returns (err: bool)
      requires Valid()
      modifies agents`hosts
      ensures Valid()
      ensures db.up && agents.obliging && id in db.tables.vms && IsInstance(db.tables.vms[id])
              && old(Nowhere(agents.hosts, id)) && CanChoose(agents.alive, choice)
              ==> !err
      ensures !err ==> id in db.tables.vms && IsInstance(db.tables.vms[id]) && old(Nowhere(agents.hosts, id))
                       && CanChoose(agents.alive, choice)
                       && agents.hosts == PlacedOn(old(agents.hosts), choice, id, RUNNING_STATUS)
                       && forall a: nat :: RunsOn(agents.hosts, a, id) <==> a == choice.value
      ensures !(id in db.tables.vms && IsInstance(db.tables.vms[id]) && old(Nowhere(agents.hosts, id)))
              ==> err && agents.hosts == old(agents.hosts)
      ensures KeepsKnown(old(agents.hosts), agents.hosts, db.tables.vms.Keys - {id})
      ensures forall k | k != id :: (Nowhere(agents.hosts, k) <==> old(Nowhere(agents.hosts, k)))
    {
      err := CheckIfVmExists(id);
      if err { return; }
      err := CheckIfVmIsTemplateOrBase(id);
      if err { return; }
      err := CheckIfVmIsRunning(id, false);
      if err { return; }
      var vlan, identifier: int;
      err, vlan := db.GetVlanByVmId(id);
      if err { return; }
      err, identifier := db.GetVmVlanIdentifierByVmId(id);
      if err { return; }
      var agent := agents.SelectServerAgent(choice);
      if agent.None? { return true; }
      ghost var before := agents.hosts;
      err := agents.StartVm(agent.value, id);
      TouchKeepsSound(before, agents.hosts, agents.alive, agent.value, id);
      TouchKeepsOthers(before, agents.hosts, agent.value, id);
      TouchKeepsKnown(before, agents.hosts, agent.value, id, db.tables.vms.Keys - {id});
      assert !err ==> RunsOn(agents.hosts, agent.value, id);
    }

    /** Asks the live agents in turn until one does not answer "bad request". */
    method StopInstance(id: VmId) returns (err: bool)
      requires Valid()
      modifies agents`hosts
      ensures Valid()
      ensures db.up && agents.obliging && id in db.tables.vms && !old(Nowhere(agents.hosts, id)) ==> !err
      ensures !err ==> id in db.tables.vms && Nowhere(agents.hosts, id)
                       && exists a: nat :: old(RunsOn(agents.hosts, a, id))
                                           && agents.hosts == Placed(old(agents.hosts), a, id, SHUTOFF_STATUS)
      ensures old(Nowhere(agents.hosts, id)) ==> err && agents.hosts == old(agents.hosts)
      ensures KeepsKnown(old(agents.hosts), agents.hosts, db.tables.vms.Keys - {id})
      ensures forall k | k != id :: (Nowhere(agents.hosts, k) <==> old(Nowhere(agents.hosts, k)))
    {
      err := CheckIfVmExists(id);
      if err { return; }
      err := CheckIfVmIsRunning(id, true);
      if err { return; }
      ghost var before := agents.hosts;
      for a := 0 to |agents.alive|
        invariant agents.hosts == before
        invariant forall b: nat | b < a :: !RunsOn(before, b, id)
      {
        if agents.alive[a] {
          var badRequest: bool;
          badRequest, err := agents.StopVm(a, id);
          if !badRequest {
            TouchKeepsSound(before, agents.hosts, agents.alive, a, id);
            TouchKeepsOthers(before, agents.hosts, a, id);
            TouchKeepsKnown(before, agents.hosts, a, id, db.tables.vms.Keys - {id});
            return;
          }
        } else {
          assert !RunsOn(before, a, id);
        }
      }
    }

    // ----- Creating

    method DefineTemplate(sourceId: VmId, sizeMB: int, vcpuCount: int, vramMB: int, uuids: nat -> VmId,
                          choice: Option<nat>, downFor: nat)
      returns (template: Option<VmId>)
      requires Valid()
      requires forall k: nat | k < ID_ATTEMPTS :: Undefined(agents.hosts, uuids(k))
      modifies db`tables, agents`hosts
      ensures Valid()
      ensures template.None? ==> db.tables == old(db.tables)
      ensures db.up && agents.obliging
              ==> (template.Some? <==> sourceId in old(db.tables).vms && IsInstance(old(db.tables).vms[sourceId])
                                       && old(Nowhere(agents.hosts, sourceId))
                                       && sizeMB > 0 && vcpuCount > 0 && vramMB > 0
                                       && SomeIdFree(old(db.tables), uuids) && CanChoose(agents.alive, choice))
      ensures template.Some? ==> sourceId in old(db.tables).vms && IsInstance(old(db.tables).vms[sourceId])
                                 && old(Nowhere(agents.hosts, sourceId))
                                 && sizeMB > 0 && vcpuCount > 0 && vramMB > 0
                                 && template.value !in old(db.tables).vms
                                 && db.tables == InsertVm(old(db.tables), template.value, TemplateRow())
                                 && CanChoose(agents.alive, choice)
                                 && agents.hosts == PlacedOn(old(agents.hosts), choice, template.value, SHUTOFF_STATUS)
      ensures !(sourceId in old(db.tables).vms && IsInstance(old(db.tables).vms[sourceId])
                && old(Nowhere(agents.hosts, sourceId)))
              ==> template.None? && agents.hosts == old(agents.hosts)
      ensures KeepsKnown(old(agents.hosts), agents.hosts, old(db.tables).vms.Keys)
    {
      ghost var d := db.tables;
      template := None;
      var err, yes: bool;
      err := CheckIfVmExists(sourceId);
      if err { return; }
      err := CheckIfVmIsRunning(sourceId, false);
      if err { return; }
      err, yes := db.VmIsTemplate(sourceId);
      if err || yes { return; }
      err, yes := db.VmIsBase(sourceId);
      if err || yes { return; }
      if sizeMB <= 0 || vcpuCount <= 0 || vramMB <= 0 { return; }
      var id: VmId;
      ghost var drawn;
      err, id, drawn := GenerateNewVmId(uuids);
      if err { return; }
      var agent := agents.SelectServerAgent(choice);
      if agent.None? { return; }
      ghost var before := agents.hosts;
      err := CreateOnAgent(agent.value, id);
      TouchKeepsKnown(before, agents.hosts, agent.value, id, d.vms.Keys);
      if err { return; }
      var _, _ := AddVmToDb(id, TemplateRow(), downFor, downFor + 1);
      SourceInsertKeeps(d, id, TemplateRow());
      template := Some(id);
    }

    /** A VM no host knows yet, created on one; it ends up running at most there. */
    method CreateOnAgent(a: nat, id: VmId) returns (err: bool)
      requires Sound(agents.hosts, agents.alive) && a < |agents.hosts| && agents.alive[a] && Undefined(agents.hosts, id)
      modifies agents`hosts
      ensures Sound(agents.hosts, agents.alive) && Touches(old(agents.hosts), agents.hosts, a, id)
      ensures agents.obliging ==> !err
      ensures !err ==> Nowhere(agents.hosts, id)
                       && agents.hosts == Placed(old(agents.hosts), a, id, SHUTOFF_STATUS)
    {
      ghost var before := agents.hosts;
      err := agents.CreateVm(a, id);
      TouchKeepsSound(before, agents.hosts, agents.alive, a, id);
    }

    /** The router steps of a create request: the VLAN's configuration, its public key, the peer. */
    method ConnectInstance(vlan: int, identifier: int, address: string, userWgPubKey: string, faults: RouterFaults,
                           ghost configured: bool)
      returns (err: bool)
      requires InventoryGood(db.tables) && ConfiguredArePresent(db.tables, router.tables, router.cfg)
      requires configured == VlanConfigured(db.tables, vlan)
      requires vlan in Vlans(db.tables) && |Split(address, '.')| >= 4
      modifies db`tables, router`tables
      ensures InventoryGood(db.tables) && ConfiguredArePresent(db.tables, router.tables, router.cfg)
      ensures SameButFlag(old(db.tables), db.tables, vlan)
      ensures Made(faults.accepts) < PLAN_SIZE && Clean(old(router.tables), VlanFilters(vlan, router.cfg))
              && RemovalsSucceed(faults, Made(faults.accepts))
              ==> err && router.tables == old(router.tables)
      ensures db.up ==> (err <==> !RouterAccepts(faults, configured))
      ensures db.up && err && (configured || Made(faults.accepts) == 15)
              ==> router.tables == WithVlan(old(router.tables), configured, vlan, router.cfg)
                  && db.tables == SetVlanAsConfigured(old(db.tables), vlan)
      ensures !err
              ==> router.tables == Add(WithVlan(old(router.tables), configured, vlan, router.cfg),
                                       VmPeer(vlan, identifier, address, userWgPubKey))
      ensures !err ==> db.tables == SetVlanAsConfigured(old(db.tables), vlan)
                       && Present(router.tables, vlan, router.cfg)
    {
      hide Constraints, InRange, SourcesExist, RemovalsSucceed, Clean, VlanEntries, VlanFilters;
      err := AddVlanConfigIfNotExists(vlan, faults);
      if err { return; }
      InterfaceIsFound(router.tables, vlan, router.cfg);
      err := router.GetWireguardPublicKey(WireguardName(vlan), faults.keyPrinted);
      if err { return; }
      ghost var t := router.tables;
      err := router.ApplyVmConfig(vlan, identifier, address, userWgPubKey, faults.peerAccepted);
      PeerChangeKeepsConfigured(db.tables, t, router.tables, router.cfg);
      if !err {
        PeerAddKeepsPresent(t, VmPeer(vlan, identifier, address, userWgPubKey), vlan, router.cfg);
      }
    }

    /** The checks, the allocation and the agent's work: everything before the VM is stored. */
    method PrepareInstance(r: CreateRequest, uuids: nat -> VmId, choice: Option<nat>, downFor: nat, watched: nat)
      returns (progress: Progress, id: VmId, config: VmNetworkConfig)
      requires Valid()
      requires forall k: nat | k < ID_ATTEMPTS :: Undefined(agents.hosts, uuids(k))
      modifies db`tables, agents`hosts
      ensures Valid() && SubjectAdded(old(db.tables), db.tables, r.subjectId)
      ensures db.up && !progress.Spinning?
              ==> (db.tables != old(db.tables) <==> StoresSubject(old(db.tables), r, uuids))
      ensures db.up && agents.obliging && !progress.Spinning?
              ==> (progress.Passed? <==> CanPlace(old(db.tables), r, uuids, agents.alive, choice))
      ensures db.up && progress.Passed? ==> CanPlace(old(db.tables), r, uuids, agents.alive, choice)
      ensures progress.Spinning? ==> db.tables == old(db.tables)
      ensures progress.Passed? ==> CanChoose(agents.alive, choice)
      ensures progress.Spinning? ==> (downFor < watched ==> Taken(db.tables, r.subjectId, progress.pick))
                                     && (db.up ==> watched <= downFor)
      ensures progress.Passed? ==> HasSource(db.tables, r) && id !in db.tables.vms
                                   && Undefined(old(agents.hosts), id) && Nowhere(agents.hosts, id)
                                   && agents.hosts == PlacedOn(old(agents.hosts), choice, id, SHUTOFF_STATUS)
                                   && Configured(db.tables, r.subjectId, config)
      ensures KeepsKnown(old(agents.hosts), agents.hosts, old(db.tables).vms.Keys)
      ensures db.up && progress.Passed? ==> config.vmVlanIdentifier !in Identifiers(db.tables, r.subjectId)
    {
      hide Constraints, InRange, AtMostOneHost, TwoStates, SilentIdle, NetworkConfig;
      id, config := "", NetworkConfig(0, 0);
      ghost var known := db.tables.vms.Keys;
      var err, isBase: bool;
      err, isBase := CheckRequest(r);
      if err { return Stopped, id, config; }
      ghost var drawn;
      err, id, drawn := GenerateNewVmId(uuids);
      if err { return Stopped, id, config; }
      progress, config := GetVmNetworkConfigFromSubjectId(r.subjectId, downFor, watched);
      assert ConfiguredArePresent(db.tables, router.tables, router.cfg);
      if !progress.Passed? { return; }
      err := PlaceInstance(r.sourceVmId, isBase, id, choice, known);
      if err { progress := Stopped; }
    }

    /** The request's fields and its source. */
    method CheckRequest(r: CreateRequest) returns (err: bool, isBase: bool)
      ensures !err ==> HasSource(db.tables, r) && isBase == db.tables.vms[r.sourceVmId].isBase
      ensures db.up ==> (err <==> !HasSource(db.tables, r))
    {
      isBase := false;
      if !WellFormed(r) { return true, isBase; }
      var isTemplate: bool;
      err := CheckIfVmExists(r.sourceVmId);
      if err { return; }
      err, isTemplate := db.VmIsTemplate(r.sourceVmId);
      if err { return; }
      err, isBase := db.VmIsBase(r.sourceVmId);
      if err { return; }
      err := !isTemplate && !isBase;
    }

    /** The source's description if it is a base image, then the work of some agent. */
    method PlaceInstance(sourceId: VmId, isBase: bool, id: VmId, choice: Option<nat>, ghost known: set<VmId>)
      returns (err: bool)
      requires Sound(agents.hosts, agents.alive) && Undefined(agents.hosts, id) && id !in known
      modifies agents`hosts
      ensures Sound(agents.hosts, agents.alive) && KeepsKnown(old(agents.hosts), agents.hosts, known)
      ensures !err ==> Nowhere(agents.hosts, id)
                       && agents.hosts == PlacedOn(old(agents.hosts), choice, id, SHUTOFF_STATUS)
      ensures !err ==> CanChoose(agents.alive, choice)
      ensures db.up && agents.obliging && CanChoose(agents.alive, choice)
              && (isBase ==> sourceId in db.tables.vms && db.tables.vms[sourceId].description.Some?)
              ==> !err
    {
      if isBase {
        var description: string;
        err, description := db.GetDescriptionById(sourceId);
        if err { return; }
      }
      var agent := agents.SelectServerAgent(choice);
      if agent.None? { return true; }
      ghost var before := agents.hosts;
      err := CreateOnAgent(agent.value, id);
      TouchKeepsKnown(before, agents.hosts, agent.value, id, known);
    }

    method CreateInstance(r: CreateRequest, uuids: nat -> VmId, faults: RouterFaults, undo: RouterFaults,
                          choice: Option<nat>, downFor: nat, watched: nat)
      returns (result: CreateResult)
      requires Valid()
      requires forall k: nat | k < ID_ATTEMPTS :: Undefined(agents.hosts, uuids(k))
      modifies db`tables, router`tables, agents`hosts
      ensures Valid() && OthersKept(old(db.tables), db.tables, r.subjectId)
      // Exactly when a request succeeds, and when it fails at a router step.
      ensures db.up && agents.obliging
              ==> (result.Created? <==> CanPlace(old(db.tables), r, uuids, agents.alive, choice) && downFor < watched
                                        && RouterAccepts(faults, SubjectConfigured(old(db.tables), r.subjectId)))
      ensures db.up && agents.obliging
              ==> (result.RolledBack? <==> CanPlace(old(db.tables), r, uuids, agents.alive, choice) && downFor < watched
                                           && !RouterAccepts(faults, SubjectConfigured(old(db.tables), r.subjectId)))
      ensures db.up && result.RolledBack? ==> !RouterAccepts(faults, SubjectConfigured(old(db.tables), r.subjectId))
      ensures result.Created? || result.RolledBack? ==> CanChoose(agents.alive, choice)
      ensures result.Created? ==> router.tables == RouterAfterCreate(old(db.tables), old(router.tables), router.cfg, r)
      ensures result.Created? ==> CreatedAs(old(db.tables), db.tables, r, result.response)
                                  && ConnectedVm(old(db.tables), router.tables, router.cfg, r)
                                  && agents.hosts == PlacedOn(old(agents.hosts), choice, result.response.instanceId,
                                                              SHUTOFF_STATUS)
      ensures KeepsKnown(old(agents.hosts), agents.hosts, old(db.tables).vms.Keys)
      // A request that stops before its VM is stored leaves a new subject behind exactly when the caller
      // could have known, and it does not get further if no agent can be chosen.
      ensures result.NotStored? || result.Unfinished?
              ==> SubjectAdded(old(db.tables), db.tables, r.subjectId) && router.tables == old(router.tables)
      ensures result.NotStored? && db.up ==> (db.tables != old(db.tables) <==> StoresSubject(old(db.tables), r, uuids))
      ensures !CanChoose(agents.alive, choice) ==> result.NotStored? || result.Unfinished?
      // A retry loop goes on after an attempt that finds the database up only if what it inserts is
      // taken, and that happens only if a list was cut short.
      ensures result.Unfinished? ==> (downFor < watched ==> Taken(db.tables, r.subjectId, result.pick))
                                     && (db.up ==> watched <= downFor)
      // If reading the new row back fails, row and domain stay.
      ensures result.Unread? ==> !db.up && router.tables == old(router.tables)
                                 && RowStoredAs(old(db.tables), db.tables, r, result.instanceId)
                                 && agents.hosts == PlacedOn(old(agents.hosts), choice, result.instanceId,
                                                             SHUTOFF_STATUS)
      ensures result.RolledBack? ==> db.tables.vms == old(db.tables).vms || RowStored(old(db.tables), db.tables, r)
      // A failure at a router step leaves no trace of the VM, and of the subject only if it has others.
      ensures result.RolledBack? && AllWell()
              ==> db.tables.vms == old(db.tables).vms && agents.hosts == old(agents.hosts)
                  && (r.subjectId in db.tables.subjects <==> VmsOf(old(db.tables), r.subjectId) != {})
      // A new subject's VLAN is taken off the router again, and a configuration refused at any position
      // leaves no trace.
      ensures result.RolledBack? && AllWell() && Made(faults.accepts) == 15
              && Undoable(old(db.tables), old(router.tables), router.cfg, r, undo)
              ==> router.tables == Undone(old(db.tables), old(router.tables), router.cfg, r)
      ensures result.RolledBack? && Made(faults.accepts) < PLAN_SIZE && RemovalsSucceed(faults, Made(faults.accepts))
              && NothingOfIt(old(db.tables), old(router.tables), router.cfg, r)
              ==> router.tables == old(router.tables)
    {
      hide Constraints, InRange, SourcesExist, AtMostOneHost, TwoStates, SilentIdle, RowStoredAs, NothingOfIt,
           ConnectedVm;
      ghost var d0, h0 := db.tables, agents.hosts;
      ghost var accepted := RouterAccepts(faults, SubjectConfigured(d0, r.subjectId));
      var early, id, config, vlan := ReserveInstance(r, uuids, choice, downFor, watched);
      if early.Some? { return early.value; }
      ghost var placed := agents.hosts;
      result := FinishInstance(r, id, config, vlan, faults, undo, downFor, d0, accepted,
                               Undoable(d0, router.tables, router.cfg, r, undo));
      if result.RolledBack? {
        LossKeepsKnown(h0, placed, agents.hosts, id, d0.vms.Keys);
        if AllWell() {
          PlacedAndLost(h0, agents.hosts, choice, id);
        }
      }
    }

    /** Everything up to the VLAN that is read back for the row just stored. */
    method ReserveInstance(r: CreateRequest, uuids: nat -> VmId, choice: Option<nat>, downFor: nat, watched: nat)
      returns (early: Option<CreateResult>, id: VmId, config: VmNetworkConfig, vlan: int)
      requires Valid()
      requires forall k: nat | k < ID_ATTEMPTS :: Undefined(agents.hosts, uuids(k))
      modifies db`tables, agents`hosts
      ensures Valid()
      ensures early.None? ==> HasSource(old(db.tables), r) && Reserved(old(db.tables), db.tables, r, id, config, vlan)
                              && id !in old(db.tables).vms && Undefined(old(agents.hosts), id)
                              && Nowhere(agents.hosts, id)
                              && agents.hosts == PlacedOn(old(agents.hosts), choice, id, SHUTOFF_STATUS)
      ensures KeepsKnown(old(agents.hosts), agents.hosts, old(db.tables).vms.Keys)
      ensures early.Some? ==> early.value.NotStored? || early.value.Unread? || early.value.Unfinished?
      ensures early.Some? && !early.value.Unread? ==> SubjectAdded(old(db.tables), db.tables, r.subjectId)
      ensures early == Some(NotStored) && db.up
              ==> (db.tables != old(db.tables) <==> StoresSubject(old(db.tables), r, uuids))
      ensures !CanChoose(agents.alive, choice) ==> early.Some? && !early.value.Unread?
      ensures db.up && agents.obliging
              ==> (early.None? <==> CanPlace(old(db.tables), r, uuids, agents.alive, choice) && downFor < watched)
      ensures db.up && early.None? ==> CanPlace(old(db.tables), r, uuids, agents.alive, choice) && downFor < watched
      ensures FlagsKept(old(db.tables), db.tables, r.subjectId)
      ensures early.Some? && early.value.Unfinished?
              ==> (downFor < watched ==> Taken(db.tables, r.subjectId, early.value.pick))
                  && (db.up ==> watched <= downFor)
      ensures early.Some? && early.value.Unread?
              ==> !db.up && RowStoredAs(old(db.tables), db.tables, r, early.value.instanceId)
                  && agents.hosts == PlacedOn(old(agents.hosts), choice, early.value.instanceId, SHUTOFF_STATUS)
    {
      hide Constraints, InRange, SourcesExist, AtMostOneHost, TwoStates, SilentIdle, CanPlace, StoresSubject,
           OthersKept, FlagsKept;
      ghost var d0 := db.tables;
      vlan := 0;
      var progress: Progress;
      progress, id, config := PrepareInstance(r, uuids, choice, downFor, watched);
      AddedSubjectKeepsFlags(d0, db.tables, r.subjectId);
      match progress
      case Stopped => return Some(NotStored), id, config, vlan;
      case Spinning(pick) => return Some(Unfinished(pick)), id, config, vlan;
      case Passed =>
      ghost var d1 := db.tables;
      progress, vlan := StoreInstance(r, id, config, downFor, watched);
      if !progress.Spinning? {
        assert db.tables.subjects[r.subjectId].vlan in Vlans(db.tables);
        ReservedAfter(d0, d1, db.tables, r, id, config);
      }
      match progress
      case Stopped => return Some(Unread(id)), id, config, vlan;
      case Spinning(pick) => return Some(Unfinished(pick)), id, config, vlan;
      case Passed => return None, id, config, vlan;
    }

    /** Stores the new row and reads its VLAN back. */
    method StoreInstance(r: CreateRequest, id: VmId, config: VmNetworkConfig, downFor: nat, watched: nat)
      returns (progress: Progress, vlan: int)
      requires InventoryGood(db.tables) && HasSource(db.tables, r) && id !in db.tables.vms
      requires Configured(db.tables, r.subjectId, config)
      modifies db`tables
      ensures InventoryGood(db.tables)
      ensures progress.Spinning?
              ==> db.tables == old(db.tables) && progress.pick == config.vmVlanIdentifier
                  && (downFor < watched ==> config.vmVlanIdentifier in Identifiers(db.tables, r.subjectId))
                  && (config.vmVlanIdentifier !in Identifiers(db.tables, r.subjectId) ==> watched <= downFor)
      ensures !progress.Spinning?
              ==> config.vmVlanIdentifier == FirstFree(Identifiers(old(db.tables), r.subjectId), 1)
                  && db.tables == InsertVm(old(db.tables), id,
                                           InstanceRow(r.sourceVmId, r.subjectId, config.vmVlanIdentifier))
      ensures !progress.Spinning? ==> downFor < watched
      ensures progress.Stopped? ==> !db.up
      ensures progress.Passed? ==> vlan == db.tables.subjects[r.subjectId].vlan && vlan in Vlans(db.tables)
    {
      vlan := 0;
      var err, stored: bool;
      var attempts: nat;
      InstanceInsertAllowedIff(db.tables, id, r.sourceVmId, r.subjectId, config.vmVlanIdentifier);
      if config.vmVlanIdentifier !in Identifiers(db.tables, r.subjectId) {
        InstanceInsertKeeps(db.tables, id, r.sourceVmId, r.subjectId, config.vmVlanIdentifier);
      }
      stored, attempts :=
        AddVmToDb(id, InstanceRow(r.sourceVmId, r.subjectId, config.vmVlanIdentifier), downFor, watched);
      if !stored { return Spinning(config.vmVlanIdentifier), vlan; }
      err, vlan := db.GetVlanByVmId(id);
      progress := if err then Stopped else Passed;
    }

    /** The router steps; if one fails, what was stored is deleted. */
    method FinishInstance(r: CreateRequest, id: VmId, config: VmNetworkConfig, vlan: int,
                          faults: RouterFaults, undo: RouterFaults, downFor: nat, ghost d0: Db, ghost accepted: bool,
                          ghost undoable: bool)
      returns (result: CreateResult)
      requires Constraints(d0) && undoable == Undoable(d0, router.tables, router.cfg, r, undo)
      requires accepted == RouterAccepts(faults, SubjectConfigured(d0, r.subjectId))
      requires Valid() && HasSource(d0, r) && Reserved(d0, db.tables, r, id, config, vlan)
      requires FlagsKept(d0, db.tables, r.subjectId)
      requires Nowhere(agents.hosts, id)
      modifies db`tables, router`tables, agents`hosts
      ensures Valid() && (result.Created? || result.RolledBack?)
      ensures OthersKept(d0, db.tables, r.subjectId)
      ensures db.up ==> (result.Created? <==> accepted)
      ensures result.Created? ==> router.tables == RouterAfterCreate(d0, old(router.tables), router.cfg, r)
      ensures result.Created? ==> CreatedAs(d0, db.tables, r, result.response)
                                  && ConnectedVm(d0, router.tables, router.cfg, r)
                                  && result.response.instanceId == id && agents.hosts == old(agents.hosts)
      ensures result.RolledBack? ==> db.tables.vms == d0.vms || RowStored(d0, db.tables, r)
      ensures result.RolledBack? ==> OnlyLoses(old(agents.hosts), agents.hosts, id)
      ensures result.RolledBack? && AllWell() && undoable && Made(faults.accepts) == 15
              ==> router.tables == Undone(d0, old(router.tables), router.cfg, r)
      ensures result.RolledBack? && AllWell()
              ==> db.tables.vms == d0.vms && Undefined(agents.hosts, id)
                  && (r.subjectId in db.tables.subjects <==> VmsOf(d0, r.subjectId) != {})
      ensures result.RolledBack? && Made(faults.accepts) < PLAN_SIZE && RemovalsSucceed(faults, Made(faults.accepts))
              && NothingOfIt(d0, old(router.tables), router.cfg, r)
              ==> router.tables == old(router.tables)
    {
      hide Constraints, InRange, SourcesExist, AtMostOneHost, TwoStates, SilentIdle, Made, RemovalsSucceed,
           OthersKept, FlagsKept, ConnectedVm;
      ghost var d1, t := db.tables, router.tables;
      TakenApart(vlan, config.vmVlanIdentifier);
      ConfiguredBySubject(d0, d1, r.subjectId);
      var err := ConnectInstance(vlan, config.vmVlanIdentifier, config.ipAddWithSubnet, r.userWgPubKey, faults,
                                 SubjectConfigured(d0, r.subjectId));
      if err {
        SameRow(d0, d1, db.tables, r, id, vlan);
        ghost var d2 := db.tables;
        if AllWell() && undoable && Made(faults.accepts) == 15 {
          SubjectIsConfigured(d0, d1, r.subjectId, vlan);
        }
        UndoInstance(r, id, undo, downFor, d0);
        if AllWell() && undoable && Made(faults.accepts) == 15 {
          UndoneIsExact(d0, d2, t, router.tables, router.cfg, r, id, undo);
        }
        return RolledBack;
      }
      ConnectedAs(d0, d1, db.tables, r, id, config, vlan);
      CreatedIsConnected(d0, db.tables, t, router.tables, router.cfg, r, Answer(id, config, vlan));
      return Created(Answer(id, config, vlan));
    }

    /** Deletes what a failed create request stored; the deletion may fail in turn. */
    method UndoInstance(r: CreateRequest, id: VmId, undo: RouterFaults, downFor: nat, ghost d0: Db)
      requires Valid() && id in db.tables.vms && RowStoredAs(d0, db.tables, r, id)
      requires r.subjectId in db.tables.subjects && db.tables.subjects[r.subjectId].vlan == VlanFor(d0, r.subjectId)
      requires Nowhere(agents.hosts, id) && OthersKept(d0, db.tables, r.subjectId)
      modifies db`tables, router`tables, agents`hosts
      ensures Valid() && OthersKept(d0, db.tables, r.subjectId)
      ensures db.tables.vms == d0.vms || RowStored(d0, db.tables, r)
      ensures OnlyLoses(old(agents.hosts), agents.hosts, id)
      ensures AllWell()
              ==> db.tables.vms == d0.vms && Undefined(agents.hosts, id)
                  && (r.subjectId in db.tables.subjects <==> VmsOf(d0, r.subjectId) != {})
      ensures NothingOfIt(d0, old(router.tables), router.cfg, r) ==> router.tables == old(router.tables)
      ensures AllWell()
              ==> RouterAfterDelete(old(db.tables), old(router.tables), router.tables, router.cfg, id, undo, true)
    {
      ghost var d2, t := db.tables, router.tables;
      hide InventoryGood, Sound, OthersKept;
      var failed := DeleteInstance(id, undo, downFor);
      if !failed {
        RollbackRestores(d0, d2, id, r.subjectId);
        if NothingOfIt(d0, t, router.cfg, r) {
          DeleteMisses(t, PeerFilter(VlanFor(d0, r.subjectId), FirstFree(Identifiers(d0, r.subjectId), 1)));
          CleanStays(t, VlanFilters(VlanFor(d0, r.subjectId), router.cfg), BothOk(undo.printed, undo.removed));
        }
      }
    }

    // ----- Start-up

    /** Adds a base image the table does not know; a failed look-up skips it. */
    method AddBaseImage(name: string, uuids: nat -> VmId, down: bool) returns (err: bool)
      requires Allocated(db.tables)
      modifies db`tables
      ensures Allocated(db.tables) && Extends(old(db.tables), db.tables)
      ensures InventoryGood(old(db.tables)) ==> InventoryGood(db.tables)
      ensures !err && db.up ==> Described(db.tables, name)
      ensures db.up && !down && SomeIdFree(old(db.tables), uuids) ==> !err
      ensures forall i | i in db.tables.vms && i !in old(db.tables).vms ::
                db.tables.vms[i] == BaseRow(name) && Drawn(uuids, i)
    {
      ghost var before := db.tables;
      var failed, known := db.VmExistsByDescription(name);
      if failed || known { return false; }
      var id: VmId;
      ghost var drawn;
      err, id, drawn := GenerateNewVmId(uuids);
      if err { return; }
      err := db.AddVm(id, BaseRow(name), down);
      if err { return; }
      VmGuardIsExact(before, id, BaseRow(name));
      if InventoryGood(before) {
        SourceInsertKeeps(before, id, BaseRow(name));
      }
      assert db.tables.vms[id].description == Some(name);
      assert 0 <= drawn - 1 < ID_ATTEMPTS && uuids(drawn - 1) == id;
    }

    method AddMissingBaseImages(names: seq<string>, uuids: (nat, nat) -> VmId, downs: nat -> bool) returns (err: bool)
      requires Allocated(db.tables)
      modifies db`tables
      ensures Allocated(db.tables) && Extends(old(db.tables), db.tables)
      ensures InventoryGood(old(db.tables)) ==> InventoryGood(db.tables)
      ensures !err && db.up ==> AllDescribed(db.tables, names)
      ensures DroppedBases(old(db.tables), names) == {} ==> DroppedBases(db.tables, names) == {}
      ensures db.up && (forall k: nat | k < |names| :: !downs(k)) && FreshIds(old(db.tables), uuids, |names|) ==> !err
    {
      hide Allocated, InventoryGood, Described;
      ghost var start := db.tables;
      err := false;
      for k := 0 to |names|
        invariant Allocated(db.tables) && Extends(start, db.tables)
        invariant InventoryGood(start) ==> InventoryGood(db.tables)
        invariant db.up ==> AllDescribed(db.tables, names[..k])
        invariant DroppedBases(start, names) == {} ==> DroppedBases(db.tables, names) == {}
        invariant FreshIds(start, uuids, |names|)
                  ==> forall m: nat, j: nat | k <= m < |names| && j < ID_ATTEMPTS :: uuids(m, j) !in db.tables.vms
      {
        ghost var before := db.tables;
        var draw := (j: nat) => uuids(k, j);
        if FreshIds(start, uuids, |names|) {
          assert 0 <= 0 < ID_ATTEMPTS && draw(0) == uuids(k, 0) && draw(0) !in db.tables.vms;
        }
        err := AddBaseImage(names[k], draw, downs(k));
        if err { return; }
        if db.up {
          DescribedStays(before, db.tables, names[..k]);
          OneMoreDescribed(db.tables, names, k);
        }
      }
      assert names[..|names|] == names;
    }

    /** Base images that are gone are dropped, those that are new are added. */
    method AddBaseImagesToDb(names: seq<string>, uuids: (nat, nat) -> VmId, downs: nat -> bool) returns (err: bool)
      requires InventoryGood(db.tables)
      modifies db`tables
      ensures Allocated(db.tables) && db.tables.subjects == old(db.tables).subjects
      ensures NoneDependsOn(old(db.tables), DroppedBases(old(db.tables), names)) ==> InventoryGood(db.tables)
      ensures forall i | i in old(db.tables).vms && i !in DroppedBases(old(db.tables), names) ::
                i in db.tables.vms && db.tables.vms[i] == old(db.tables).vms[i]
      ensures !err && db.up ==> AllDescribed(db.tables, names)
      ensures db.up ==> DroppedBases(db.tables, names) == {}
      ensures db.up && (forall k: nat | k < |names| :: !downs(k)) && FreshIds(old(db.tables), uuids, |names|) ==> !err
    {
      ghost var d := db.tables;
      err := db.DeleteBaseImagesNotInList(names);
      DropsKeep(d, db.tables, DroppedBases(d, names));
      if err { return; }
      err := AddMissingBaseImages(names, uuids, downs);
    }

    // ----- Serial runs

    /** Any sequence of requests, one after the other, with the agents' hosts changing in between only
        as the environment may: the invariant holds after every one. The run ends with a request that
        does not return; none does that as long as the database stays up. */
    method ServeSerially(requests: seq<Request>) returns (served: nat)
      requires Valid()
      modifies db, router`tables, agents
      ensures Valid()
      ensures served <= |requests| && (served < |requests| ==> requests[served].Create?)
      ensures old(db.up) && (forall q | q in requests :: StaysUp(q)) ==> served == |requests|
    {
      for k := 0 to |requests|
        invariant Valid()
        invariant old(db.up) && (forall q | q in requests :: StaysUp(q)) ==> db.up
      {
        var returned := ServeOne(requests[k]);
        if !returned { return k; }
      }
      served := |requests|;
    }

    method ServeOne(q: Request) returns (returned: bool)
      requires Valid()
      modifies db, router`tables, agents
      ensures Valid()
      ensures !returned ==> q.Create?
      ensures old(db.up) && StaysUp(q) ==> returned && db.up
    {
      returned := true;
      match q
      case Create(r, uuids, faults, undo, choice, downFor, watched) =>
        if forall j | 0 <= j < ID_ATTEMPTS :: forall a | 0 <= a < |agents.hosts| :: uuids(j) !in agents.hosts[a] {
          var result := CreateInstance(r, uuids, faults, undo, choice, downFor, watched);
          returned := !result.Unfinished?;
        }
      case Delete(id, faults, downFor) => var _ := DeleteInstance(id, faults, downFor);
      case Start(id, choice) => var _ := StartInstance(id, choice);
      case Stop(id) => var _ := StopInstance(id);
      case Define(id, sizeMB, vcpuCount, vramMB, uuids, choice, downFor) =>
        if forall j | 0 <= j < ID_ATTEMPTS :: forall a | 0 <= a < |agents.hosts| :: uuids(j) !in agents.hosts[a] {
          var _ := DefineTemplate(id, sizeMB, vcpuCount, vramMB, uuids, choice, downFor);
        }
      case RemoveTemplate(id, downFor) => var _ := DeleteTemplate(id, downFor);
      case Environment(hosts, alive, up, obliging) =>
        if MayBecome(agents.hosts, hosts, alive) {
          EnvironmentKeepsSound(agents.hosts, hosts, agents.alive, alive);
          agents.hosts, agents.alive, agents.obliging := hosts, alive, obliging;
          db.up := up;
        }
    }
  }

  lemma VlanInsertable(d: Db, subject: SubjectId, vlan: int)
    requires subject !in d.subjects
    ensures CanInsertSubject(d, subject, vlan) <==> vlan !in Vlans(d)
  {
    if vlan !in Vlans(d) {
      forall s | s in d.subjects ensures d.subjects[s].vlan != vlan {
        assert d.subjects[s].vlan in Vlans(d);
      }
    }
  }
}
