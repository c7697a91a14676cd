# A verified model of the lab control plane

The system lends university students virtual machines. `vms-manager` keeps an inventory of subjects
and VMs in Postgres, gives every subject a VLAN and every VM an identifier in it, configures the
RouterOS router accordingly, and has one `server-agent` per host run the VMs. The web server prints
each VM's WireGuard configuration for the browser and ends sessions when their time is up.

These Dafny modules state what that control plane keeps true, over all inputs, all runs and all
patterns of failing database, router, agent, mail and HTTP calls, and prove it. Verify the project
with `dafny verify dfyconfig.toml`.

## The modules

| module | what it is |
|---|---|
| `Text`, `Addressing` | decimal printing, splitting and joining; constants, addresses, names and ports |
| `WireguardText` | the printed configuration, its JSON string, `formatConfig`, `getSSHInfo` |
| `WireguardReading` | the shown configuration as a WireGuard client reads it |
| `RouterTables`, `VlanPlan` | router tables as sequences of records; a VLAN's fifteen additions and removals |
| `RouterReading` | what the router's tables say about a VLAN and its VMs, in plain names and numbers |
| `RouterOSClient` | class `RouterOSService`: the commands in order, with their failures |
| `Schema`, `Postgres` | the two tables with their constraints; class `PostgresDatabase` with its statements |
| `Interleaving` | create and delete requests interleaved statement by statement |
| `InstanceStatus`, `Fleet` | the status merge; class `ServerAgents`: the hosts, their domains and which agents answer |
| `ServiceInvariant`, `VmsManagement` | what holds between requests; class `VmsManager`: the requests themselves |
| `Sessions` | class `SessionManager`: scheduled events and session columns |
| `Agent` | the `virsh list --all` parser and the loop that waits for a shutdown |

Failures are inputs. A router command, a mail, an HTTP call or a session statement succeeds or fails
as a parameter says; a database read fails or not as it likes unless the database is up; `downFor` is
how many attempts of a retry loop find the database down; which agents answer is a field. A statement
or command that fails has no effect.

## Where the code and its documentation part

- The default route of a VLAN is added with gateway `externalGateway@main` and looked for without
  `@main`. Removing a fully applied configuration is therefore exact if and only if the router reports
  gateways without `@main`; otherwise exactly that route stays (`VlanPlan.FullRemovalIsExactIff`).
  Rolling back a partly applied one is exact either way, because the route comes last.
- The comments of the retry loops say that only an unreachable database makes them fail. For the two
  deletions that holds when requests run one after another, for the two inserts it does not. The list
  reads in `vms-manager/database.go` never ask the rows for their error, so a connection lost on the way
  gives a shortened list and no error. The first free number of such a list is the first free one if
  and only if it is free (`Schema.CutReadFindsFreeIff`); if it is taken, no attempt of the insert
  succeeds while the row stands, though the database is up again and no other request runs
  (`Interleaving.CutReadCanSpin`). An insert whose list was read with the database up always succeeds at
  the first attempt that finds it up (`VmsManagement.VmsManager.CreateInstance`,
  `VmsManagement.VmsManager.ServeSerially`).
- Interleaved, complete reads do not help either: two requests for new subjects can pick one VLAN, two
  requests for VMs of one subject one identifier, and a subject's deletion can cross the creation of a
  VM in it (`Interleaving.RetryLoopCanSpin`, `Interleaving.VmInsertCanSpin`,
  `Interleaving.SubjectDeletionCanSpin`). `Interleaving.RetryLoopSucceedsIff` says exactly when an
  attempt made with the database up succeeds.
- Start-up drops base images that are no longer on disk without asking whether an instance depends on
  them (`ServiceInvariant.DroppingBasesIsSafeIff`, `ServiceInvariant.StartUpCanOrphan`).
- `formatConfig` undoes only the escape of a newline. It shows the encoded text if and only if the
  text has no other character that JSON or the encoder escapes (`WireguardText.FormatConfigInvertsEncode`).
- A create request that fails before its VM is stored keeps the subject it stored. With the database
  up this happens exactly when the request is well-formed, its source is a template or base image, one
  of eleven drawn ids is unknown, the subject is new and a VLAN is free; and every create request fails
  there if no agent can be chosen (`VmsManagement.StoresSubject` in the contract of
  `VmsManagement.VmsManager.CreateInstance`; `VmsManagement.CreateCanLeaveSubject` is an input).
- If the database fails when the VLAN of the row just stored is read back, the create request reports
  an error and keeps row and domain (the result `Unread` in the same contract).
- The token of a mailed link is looked up without the mutex that the renewal takes. If the instance is
  stopped and restarted in between, the old link renews the new session
  (`Sessions.OldLinkCanRenewNewSession`); otherwise it renews the session it was mailed for or none
  (`Sessions.LinkNamesUnlessRestarted`).
- The session is dropped before the VM manager is asked to stop the VM. If that is refused, no later
  tick stops the VM (`Sessions.DroppedStaysDropped`).
- The agent's stop loop ends if and only if it does not, while still waiting, see the last of the
  domain: once no poll lists the domain any more and no listing fails, it polls forever without
  sleeping (`Agent.EndsIff`, `Agent.WithoutAnswersItWaits`).

## Model

| member | source | states |
|---|---|---|
| Interleaving.EveryInterleavingStaysAllocated | vms-manager/service.go:1087-1186 | in every state of every run, for any number of create and delete requests interleaved between any two statements, with list reads cut short anywhere, subject VLANs are distinct and in 100..354 and identifiers are distinct within their subject and in 1..253, and what a request carries from a stale or cut read stays in range |
| Interleaving.ExecutesKeepsInv | vms-manager/database.go:117-150 | each statement of each request keeps that, the list reads whether complete or not |
| Interleaving.CutReadCanSpin | vms-manager/database.go:246-264 | a reachable state with one single request, whose read of the VLANs was cut short, whose insert can succeed against no database that still has a row with its VLAN |
| Interleaving.RetryLoopSucceedsIff | vms-manager/service.go:1037-1063 | exactly when an attempt of each retry loop that finds the database up succeeds, in terms of the rows that stand |
| Interleaving.RetryLoopCanSpin | vms-manager/service.go:1152-1164 | a reachable state in which the subject insert of a retry loop can succeed against no database that still has a row with its VLAN |
| Interleaving.VmInsertCanSpin | vms-manager/service.go:1037-1049 | the same for the insert of a VM whose identifier another create request stored first |
| Interleaving.SubjectDeletionCanSpin | vms-manager/service.go:1247-1259 | the same for the deletion of a subject in which a create request stored a VM after the count |
| Schema.FirstFreeInRange | vms-manager/service.go:1130-1150 | whatever distinct values were read, if they are not exactly as many as the range holds then the first free value lies in the range |
| Schema.CutReadFindsFreeIff | vms-manager/service.go:1130-1186 | searching a part of the taken numbers finds the first free one if and only if what it finds is free, and never goes beyond it |
| Schema.FirstFreeFrom | vms-manager/service.go:1166-1186 | the counting loop ends at the least value from the start on that the list lacks |
| Schema.AllocationsInRange | vms-manager/service.go:1130-1186 | both allocators stay in range on any snapshot of an allocated database, read to the end or cut short |
| Schema.SubjectGuardIsExact | vms-manager/database.go:500-513 | inserting a subject keeps every constraint if and only if the guard of the insert holds |
| Schema.VmGuardIsExact | vms-manager/database.go:514-543 | inserting a VM keeps every key, unique, check and foreign-key rule if and only if the guard of the insert holds |
| Schema.VmDeletionKeepsConstraints | vms-manager/database.go:141-150 | deleting a VM keeps every constraint |
| Schema.SubjectDeletionGuardIsExact | vms-manager/database.go:384-393 | deleting a subject keeps every constraint if and only if no VM refers to it |
| VmsManagement.VmsManager.ServeSerially | vms-manager/service.go:270-581 | after every request of any serial run from a valid state, under any failures and with agents and VMs stopping in between: tables allocated, every row one of base, template or instance, every instance's source an existing template or base, configured subjects fully on the router, every VM running on at most one host; only a create request can fail to return, and none does while the database stays up |
| VmsManagement.VmsManager.AddVmToDb | vms-manager/service.go:1037-1049 | watched for any number of attempts, the row is stored if and only if one of them finds the database up and the insert meets every rule, and then at the first that does; else nothing changes |
| VmsManagement.VmsManager.DeleteVmFromDb | vms-manager/service.go:1051-1063 | the loop ends at the first attempt made while the database is up, with the row gone |
| VmsManagement.VmsManager.AddSubjectToDb | vms-manager/service.go:1152-1164 | watched for any number of attempts, the subject is stored if and only if one of them finds the database up and id and VLAN are free, and then at the first that does; else nothing changes |
| VmsManagement.VmsManager.DeleteSubjectFromDb | vms-manager/service.go:1247-1259 | the loop ends at the first attempt made while the database is up, with the subject gone; wherever it is called no VM refers to the subject any more |
| VmsManagement.VmsManager.CreateInstance | vms-manager/service.go:270-421 | with the database up and agents that do what they are asked, it succeeds if and only if the request is well-formed, its source is a template or base image, one of eleven drawn ids is unknown, a VLAN (fewer than 255 taken) and an identifier (fewer than 253 taken) are left, the agent chosen answers and every router step works; it fails at a router step exactly when only the last of these is missing. Success changes exactly three things: the new row with the first free identifier of the subject's VLAN and the subject configured in it (the first free VLAN if the subject is new), the domain, shut off, on the chosen host, and on the router the VLAN's entries, unless they were there, and the user's peer, which then serve the VLAN and lead to the VM as `RouterReading` reads them; the answer is its tunnel address, networks and port 20000 + VLAN. No row of another subject and no known VM's domain ever changes. A failure before the row is stored leaves the router alone and, with the database up, a new subject exactly when the caller could have known; a request still in a retry loop after an attempt that found the database up picked what is taken, which needs a read that was cut short; a failed read-back keeps row and domain; a failure at a router step with everything else working restores the vms table and the hosts, keeps the subject's row if and only if it has another VM, and takes a new subject's VLAN off the router again, the default route excepted where gateways are shown as given; a configuration refused at any position restores every router table |
| VmsManagement.VmsManager.DeleteInstance | vms-manager/service.go:423-522 | an error leaves database and router as they were; a VM that runs, or is no instance, is refused and no host touched; success needs every agent and removes the row, the VM from every host and its peer from the router, and, if it was its subject's only VM, the subject, and if that was configured all fifteen removals of its VLAN are carried out, else nothing else on the router changes; with everything available an existing stopped instance is deleted |
| VmsManagement.VmsManager.DeleteTemplate | vms-manager/service.go:183-268 | with the database up and obliging agents it succeeds if and only if the VM is a template nothing depends on and some agent answers; then the row and the domain on every live host go; a refusal touches no host, and no other row or domain changes |
| VmsManagement.VmsManager.DefineTemplate | vms-manager/service.go:88-181 | with the database up and obliging agents it succeeds if and only if the source is an instance that runs nowhere, the sizes are positive, an id is left and an agent can be chosen; then exactly one row and one domain, shut off on the chosen host, are new; refusals change no row and no known VM's domain |
| VmsManagement.VmsManager.StartInstance | vms-manager/service.go:524-581 | success means an instance that ran nowhere and now runs on the chosen host and no other, which is all that changed; a VM that already runs or is no instance is refused and no host touched; with the database up and an obliging chosen agent every stopped instance starts |
| VmsManagement.VmsManager.StopInstance | vms-manager/service.go:583-627 | success means that the VM ran on some host, is shut off there, and nothing else changed; one that runs nowhere is refused and no host touched; with the database up and obliging agents every running VM stops |
| VmsManagement.VmsManager.AddVlanConfigIfNotExists | vms-manager/service.go:1279-1321 | with the database up it fails if and only if the VLAN is not configured and one of the fifteen additions is refused; success adds exactly the fifteen entries unless the VLAN was configured, and sets its flag; an addition refused at any position leaves every router table exactly as it was, if nothing matched the VLAN's filters before and the removals of the additions made succeed; a flag that cannot be set does too, but for the default route where gateways are shown as given |
| VmsManagement.VmsManager.DeleteVlanConfigWhenAvailable | vms-manager/service.go:1323-1343 | a configured VLAN's fifteen removals are carried out, unless the database fails to say that it is configured; for any other VLAN the router stays as it is; no other configured subject loses an entry |
| VmsManagement.VmsManager.GetVmNetworkConfigFromSubjectId | vms-manager/service.go:1087-1128 | with the database up it succeeds if and only if the subject has a VLAN or fewer than 255 are taken, and fewer than 253 of its identifiers are; a new subject is stored with the first free VLAN, or its insert is still tried, after an attempt that found the database up because the VLAN picked is taken; an old one keeps its own; the identifier is the first free one if and only if it is free, which it is with the database up |
| VmsManagement.VmsManager.GenerateNewVmId | vms-manager/service.go:1018-1035 | the last id drawn is returned, unknown to the database unless eleven draws failed; with the database up that is so if and only if all eleven are known |
| VmsManagement.VmsManager.CheckIfVmIsRunning | vms-manager/service.go:901-933 | when the check passes, the VM runs on some host if and only if that was wanted; with everything available it fails in no other case |
| VmsManagement.VmsManager.AddBaseImagesToDb | vms-manager/service.go:935-974 | start-up keeps the inventory sound if no row depends on a dropped image, and with the database up leaves every image on disk, and no other, in the table; it fails in no case in which the database stays up and the drawn ids are new |
| VmsManagement.RollbackRestores | vms-manager/service.go:374-412 | deleting a VM just stored restores the vms table, and the subject stays if and only if it had another VM |
| VmsManagement.CreateThenDelete | vms-manager/service.go:270-522 | a VM of a new subject created on a router without a trace of it and then deleted: the inventory is as before, the router if and only if it shows gateways without `@main`, and otherwise it has exactly the VLAN's default route more |
| VmsManagement.CreateThenDeleteAnother | vms-manager/service.go:270-522 | one more VM of a configured subject created and deleted: inventory and router are as before |
| VmsManagement.AnswerDescribesTheVm | web-server/backend/instance_service.go:222-236 | the answer to a create request, printed and shown, is read by a WireGuard client as the tunnel of exactly the VM stored: its address, the VLAN's two networks, port 20000 + VLAN |
| VmsManagement.CreatedIsConnected | vms-manager/service.go:384-420 | after a create request the router's tables serve the subject's VLAN and hold the user's peer for the VM's own tunnel address |
| VmsManagement.NetworkConfigMeans | vms-manager/service.go:1087-1128 | what a VM is told reads as its own address in its VLAN's /24 with that network's first address as gateway, and its name differs from every other VM's |
| VmsManagement.CreateCanLeaveSubject | vms-manager/service.go:1087-1128 | a sound inventory and a request whose failure leaves a subject without any VM |
| ServiceInvariant.InstanceInsertAllowedIff | vms-manager/service.go:374-382 | the row of a new instance meets every constraint if and only if its identifier is free |
| ServiceInvariant.LastVmFreesSubject | vms-manager/service.go:510-521 | when the count read before the deletion was one, the subject may be deleted after it |
| ServiceInvariant.LastMeansNoOther | vms-manager/database.go:349-370 | the count is one if and only if no other VM has the subject |
| ServiceInvariant.RemoveKeepsOthers | vms-manager/service.go:1323-1343 | removing one VLAN's configuration, whatever removals fail, leaves every other configured subject's fifteen entries in place |
| ServiceInvariant.ApplyKeepsOthers | vms-manager/service.go:1279-1321 | applying any part of it does too |
| ServiceInvariant.DroppingBasesIsSafeIff | vms-manager/database.go:186-220 | dropping base images keeps every instance's source if and only if no instance depends on a dropped one |
| ServiceInvariant.StartUpCanOrphan | vms-manager/service.go:935-974 | a sound inventory and a list of images for which start-up breaks that |
| Postgres.PostgresDatabase.GetVmsVlanIdentifiers | vms-manager/database.go:284-312 | without an error the list read is some of the identifiers of the VLAN's subject, without repetition; with the database up, all of them |
| Postgres.PostgresDatabase.GetAllVlans | vms-manager/database.go:246-264 | without an error the list read is some of the VLANs in use, without repetition; with the database up, all of them |
| Postgres.PostgresDatabase.VmIsLastInstanceInSubject | vms-manager/database.go:349-370 | true if and only if the VM's subject has one VM |
| Postgres.PostgresDatabase.DeleteBaseImagesNotInList | vms-manager/database.go:186-220 | only base images whose description is not listed are dropped, and with the database up all of them; a scan that is cut short ends early without an error |
| RouterTables.RemoveAllLeaves | vms-manager/routeros_service.go:208-331 | after any first part of the additions, the removals leave the tables as they were plus exactly the additions whose own removal failed or does not look for them |
| RouterTables.DeleteAdded | vms-manager/routeros_service.go:356-383 | removing the first match of a filter that can hit only one addition takes out exactly that one |
| VlanPlan.FilterHitsOwnOnly | vms-manager/routeros_service.go:208-331 | a removal of one VLAN hits an addition of another, or of its own, only if it is its counterpart |
| VlanPlan.FilterHitsOwn | vms-manager/routeros_service.go:199-219 | it hits its counterpart, the default route excepted unless the router reports gateways without `@main` |
| VlanPlan.RollbackIsExact | vms-manager/routeros_service.go:52-331 | for every position at which an addition is refused, the removals put every router table back exactly |
| VlanPlan.FullRemovalIsExactIff | vms-manager/routeros_service.go:199-223 | full removal is exact if and only if the router reports gateways without `@main`, and otherwise leaves exactly the default route |
| VlanPlan.VlansAreIsolated | vms-manager/routeros_service.go:52-331 | applying any part of a VLAN's configuration, or removing it, leaves the records of every other VLAN in place and in order |
| VlanPlan.PeersAreIsolated | vms-manager/routeros_service.go:333-354 | adding or removing a VM's peer leaves the records of every other VLAN in place and in order |
| VlanPlan.PeersLeaveTheFifteen | vms-manager/routeros_service.go:333-354 | it leaves the tables that hold the fifteen entries, of its own VLAN and of any other, as they were |
| VlanPlan.PeerRemovalHitsOwnOnly | vms-manager/routeros_service.go:348-354 | a peer's removal hits only the peer of the same VLAN and identifier |
| VlanPlan.NamesInjective | vms-manager/routeros_service.go:52-206 | interface, list and VRF names, VLAN ids and ports tell VLANs apart |
| VlanPlan.PeerNamesInjective | vms-manager/routeros_service.go:333-354 | peer names tell (VLAN, identifier) pairs apart |
| RouterOSClient.RouterOSService.ApplyVlanConfig | vms-manager/routeros_service.go:52-206 | the additions are made in order up to the first that is refused, and an error is returned if and only if one is; without an error the tables serve the VLAN as `RouterReading.Serves` reads them |
| RouterReading.PresentServes | vms-manager/routeros_service.go:52-206 | tables with the fifteen entries, read on their own: the VLAN interface has the address 10.0.x.1/24 and the WireGuard interface 10.1.x.1/24 and listens on 20000 + VLAN; both are in one VRF and one interface list, which may reach itself and, both ways, the outside; the tunnel port is open; the main table leads to the VLAN's network, the VLAN's table to everywhere else |
| RouterReading.OnlyItsAddress | vms-manager/routeros_service.go:118-132 | a configuration adds no address but the VLAN's gateway on the VLAN interface and the tunnel's first address on the WireGuard interface |
| RouterReading.VmReachesItsGateway | vms-manager/service.go:1188-1207 | where the router serves a VLAN, the gateway its VMs are told is the address of the VLAN's interface, lies in each VM's own block and is no VM's address |
| RouterReading.TunnelReachesTheRouter | vms-manager/service.go:1192-1194 | a VM's tunnel address lies in the block of the WireGuard interface and is not that interface's |
| RouterReading.PeerConnects | vms-manager/routeros_service.go:333-346 | the peer added for a VM sits on its VLAN's WireGuard interface with the user's key, and its allowed addresses read as 10.0.x.0/24 and the VM's own 10.1.x.y/32 |
| RouterOSClient.RouterOSService.RemoveVlanConfig | vms-manager/routeros_service.go:208-331 | all fifteen removals are tried from the last to the first, and an error is returned if and only if one of them fails or finds nothing |
| RouterOSClient.RouterOSService.RemoveByFilter | vms-manager/routeros_service.go:356-383 | the first match goes, if there is one and both commands succeed; else nothing changes and an error is returned |
| RouterOSClient.RouterOSService.AddRoute | vms-manager/routeros_service.go:797-820 | the route is added at most once, and an error is returned if and only if five attempts are refused |
| RouterOSClient.RouterOSService.ApplyVmConfig | vms-manager/routeros_service.go:333-346 | adds the VM's peer or nothing; for an address the service prints, the peer reads as allowed exactly the VLAN's network and the VM's own tunnel address |
| RouterOSClient.RouterOSService.RemoveVmConfig | vms-manager/routeros_service.go:348-354 | removes the first peer with the VM's name or nothing |
| InstanceStatus.ListInstancesStatus | vms-manager/service.go:685-754 | the nested-loop merge refines a map over all reports, plus the ids the database knows as "shut off" when some agent is silent; there is no result if and only if an agent answers with an error or those ids cannot be read |
| InstanceStatus.RefinesMeans | vms-manager/service.go:685-754 | what the merge result says: every id once, running if and only if reported running, else its first report, ids exactly those reported |
| InstanceStatus.RunningIgnoresOrder | vms-manager/service.go:685-754 | the running ids do not depend on the order of the agents |
| InstanceStatus.RunningIsReported | vms-manager/service.go:685-754 | an id is running in the result if and only if some answering agent reports it running |
| InstanceStatus.CheckIfVmIsRunning | vms-manager/service.go:901-933 | the scan returns an error if and only if the VM's running state is not the wanted one |
| Fleet.MergeSeesRunning | vms-manager/service.go:685-754 | where silent agents run nothing, the merged status is running if and only if some host runs the VM |
| Fleet.TouchKeepsSound | server-agent/server_agent.go:194-273 | one agent's work on one VM that runs at most there keeps every VM on at most one host |
| Fleet.ServerAgents.StartVm | server-agent/server_agent.go:194-220 | a started VM runs on that host; only that VM's domain there changes |
| Fleet.ServerAgents.StopVm | server-agent/server_agent.go:222-273 | "bad request" exactly for a VM that does not run there; a stopped VM no longer runs there |
| Fleet.ServerAgents.DeleteVm | server-agent/server_agent.go:153-192 | a deleted VM has no domain there any more, and no other domain changes |
| Addressing.VmAddressesDistinct | vms-manager/service.go:1200-1207 | distinct (VLAN, identifier) pairs print distinct addresses |
| Addressing.EtiquettesDistinct | vms-manager/service.go:1213-1215 | distinct pairs have distinct interface names |
| Addressing.VmAddressReads | vms-manager/service.go:1200-1211 | the printed address reads as an address block with the intended octets and prefix, and the tunnel address too |
| Addressing.NetworkReads | vms-manager/service.go:1196-1198 | the printed network reads as the VLAN's /24 |
| Addressing.GatewaysRead | vms-manager/service.go:1188-1194 | the printed gateways read as the first addresses of the VLAN's two subnets |
| Addressing.VmAddressInOwnSubnet | vms-manager/service.go:1196-1211 | a VM's address lies in a VLAN's /24 (section 3.1 of RFC 4632) if and only if that is its own VLAN, and is never its network, gateway or broadcast address |
| Addressing.InterfaceAddressKeepsHost | vms-manager/service.go:1224-1245 | splitting and reprinting keeps the host under 10.1 with /32, never the VPN gateway, and the network form recovers the VLAN's subnet |
| Addressing.TakenApart | vms-manager/service.go:1217-1245 | both take-apart functions on every printed address |
| Text.ItoaInjective | vms-manager/service.go:1188-1215 | decimal printing tells numbers apart |
| Text.SplitJoin | vms-manager/service.go:1224-1245 | splitting undoes joining |
| WireguardText.UserSeesTheVmsAddress | web-server/backend/instance_service.go:683-694 | for every in-range VLAN and identifier, base64 keys and escape-free endpoint, the browser shows the printed text and getSSHInfo gives exactly the VM's own 10.0.x.y address |
| WireguardReading.PrintedConfigReads | web-server/backend/instance_service.go:683-694 | for any values without a line break, the printed text reads back, line by line and cut at the equals sign, as exactly the five settings it was made of, each under its own key in its own section |
| WireguardReading.PrintedConfigDescribes | web-server/backend/instance_service.go:683-694 | key, address, peer key, both allowed blocks, endpoint and port are what a client takes from it |
| WireguardReading.ShownConfigDescribesTheVm | web-server/backend/instance_service.go:683-694 | what the browser shows for a VM is read as its own tunnel: its keys, 10.1.x.y/32, the networks 10.0.x.0/24 and 10.1.x.0/24, port 20000 + VLAN |
| WireguardText.FormatConfigInvertsEncode | web-server/frontend/src/hooks/useWireguardConfig.ts:8-16 | formatConfig of the encoded text is the text if and only if it holds no character, other than newlines, that is escaped (section 7 of RFC 8259) |
| WireguardText.ReplacementUndoesEscaping | web-server/frontend/src/hooks/useWireguardConfig.ts:8-16 | the replacement alone undoes the escaping under the same condition |
| WireguardText.MatcherIsComplete | web-server/frontend/src/components/vm/WireguardConfigButton.tsx:54-62 | the greedy matcher finds what the regular expression can capture, and that is unique |
| WireguardText.MatcherIsSound | web-server/frontend/src/components/vm/WireguardConfigButton.tsx:54-62 | everything it finds is a capture of the regular expression |
| WireguardText.LabelOnlyOnce | web-server/frontend/src/components/vm/WireguardConfigButton.tsx:54-62 | no match starts in the lines above the address |
| Sessions.EveryRunIsGood | web-server/backend/session_service.go:71-333 | over any run of one instance, under any failures and any read-back: event and row agree on token and end time; both end when the last start or renewal plus its minutes is due, or at the read-back of that time; every stop is sent after that read-back; mails sent number at most starts, renewals and lost flag writes; every mail has 0 < time left <= 30 minutes; at most one adoption since the last start or renewal |
| Sessions.AdvanceKeepsGood | web-server/backend/session_service.go:71-333 | each step keeps the invariant behind that |
| Sessions.NoStopBeforeItIsDue | web-server/backend/session_service.go:121-174 | if times are read back as they were stored, every stop in any run is sent later than the last start or renewal plus its minutes, and there is one |
| Sessions.RemindedOnce | web-server/backend/session_service.go:83-119 | a session left to the monitor is mailed about exactly once if a tick within the last half hour can mail, unless a flag is lost |
| Sessions.RenewalRemindsAgain | web-server/backend/session_service.go:284-333 | after a renewal it is mailed about exactly once more, for the new end |
| Sessions.LateTicksEnd | web-server/backend/session_service.go:121-174 | a session left to the monitor is over, a stop sent for the stored time and row and event cleared together, after one tick past the time written that can read the stored time and a later one past the stored time whose calls succeed, whatever the ticks around them did |
| Sessions.EndingTickEnds | web-server/backend/session_service.go:121-174 | once the event has the stored time, one tick past it whose calls succeed is enough |
| Sessions.DroppedStaysDropped | web-server/backend/instance_service.go:269-301 | once a stop request dropped the event, no tick does anything for the instance |
| Sessions.TokenNamesOneInstance | web-server/backend/api.go:574-591 | the row a mailed token finds belongs to the only instance whose event may carry it, and it does carry it if there is one |
| Sessions.LinkNamesUnlessRestarted | web-server/backend/api.go:574-591 | whatever happens between look-up and renewal, the event of the instance found, if there is one, still carries the token if and only if the instance was not restarted |
| Sessions.OldLinkCanRenewNewSession | web-server/backend/api.go:574-591 | a session, and a stop and a restart, after which the old link renews an event with another token |
| Sessions.StepKeepsAllGood | web-server/backend/session_service.go:71-333 | a step of one instance keeps the invariant of all and the tokens distinct |
| Sessions.SessionManager.Serve | web-server/backend/session_service.go:71-333 | over any sequence of ticks, starts, stops, renewals and row changes, the invariant holds at every release of the mutex and every instance is where its own steps take it |
| Sessions.SessionManager.CheckEvent | web-server/backend/session_service.go:83-174 | the loop body does to its instance what the step function says, for every pattern of failing calls |
| Sessions.SessionManager.MonitorSessions | web-server/backend/session_service.go:71-183 | one tick does that to every scheduled instance exactly once, in any order |
| Sessions.SessionManager.StartSession | web-server/backend/session_service.go:185-248 | on success event and row end the configured minutes after now, with the token, no reminder sent; else neither changes; an error exactly when the duration, the mail look-up or the write fails |
| Sessions.SessionManager.StopSession | web-server/backend/session_service.go:250-282 | the event goes whatever happens, the row is cleared unless the write fails |
| Sessions.SessionManager.RenewSession | web-server/backend/session_service.go:284-333 | on success event and row, if there is one, end the configured minutes after now, the token and the start stay and the reminder is due again; else nothing changes; an error exactly without an event, a duration or the write |
| Sessions.SessionManager.HandleRenewSession | web-server/backend/api.go:574-591 | with any other holders of the mutex between look-up and renewal: it works if and only if every call does and the instance found still has an event; then that instance and no other is renewed, the only one whose event could carry the token at the look-up, and its event still carries it if and only if it was not restarted meanwhile; else nothing is renewed |
| Sessions.SessionManager.StartInstance | web-server/backend/instance_service.go:243-267 | a VM that was started is no error even if its session could not start |
| Sessions.SessionManager.StopInstance | web-server/backend/instance_service.go:269-301 | the session is dropped whether or not the VM manager stops the VM |
| Agent.TableRoundTrip | server-agent/server_agent.go:305-333 | reading a printed table of distinct names, with one- or two-word states and any padding and rule, gives back exactly the names and states |
| Agent.ListInstancesStatus | server-agent/server_agent.go:305-333 | the parsing loop computes that map from any output |
| Agent.FieldsOfLine | server-agent/server_agent.go:315-322 | a line's words come back whatever the white space around them |
| Agent.StopInstance | server-agent/server_agent.go:222-273 | watched for any number of polls, the loop has ended or is still waiting as its rounds say, each round using up a silence of the domain, time or the one retry; at most six polls list the domain and at most one shutdown is repeated, in a poll that reads between ten and twenty seconds; success means seen shut off or force-stopped, the latter after twenty seconds at least, counted as the polls' delays and sleeps |
| Agent.ClockDecides | server-agent/server_agent.go:252-265 | for a listed domain that is still up: forced if and only if twenty seconds of delays and five-second sleeps have passed, else the shutdown repeated if and only if ten have and it was not yet, else another five seconds of sleep |
| Agent.RepeatedIffDue | server-agent/server_agent.go:255-263 | while the loop waits, the shutdown has been repeated if and only if some poll before was due for it |
| Agent.EndsIff | server-agent/server_agent.go:241-272 | the loop ends if and only if there is no point at which it still waits and from which no poll lists the domain or fails |
| Agent.ListedEndsInSix | server-agent/server_agent.go:241-272 | a domain that stays listed ends the loop within six polls |
| Agent.CheckDomain | server-agent/server_agent.go:245-271 | one round of the loop, and what it spends |
| Agent.SixAnswersEnd | server-agent/server_agent.go:241-272 | six polls that list the domain end the loop, wherever they come and however long anything takes |
| Agent.WithoutAnswersItWaits | server-agent/server_agent.go:244-272 | from any state in which the loop waits, polls that do not list the domain leave it waiting and neither repeat nor force the shutdown |

## Left out

- VmsManagement.VmsManager.ServeSerially: requests run one after another; the per-VM mutexes are not modelled, because `deleteVmMutex` drops an entry while others may wait on it.
- VmsManagement.VmsManager.CreateInstance: the ids drawn are assumed defined on no host, as fresh UUIDs are; password hashing and the agent's files are left out, and the router's public key is not part of the answer.
- VmsManagement.VmsManager.AddVmToDb: a statement that fails has no effect; a connection lost after the commit, which would make the next attempt fail on the key, is not modelled.
- VmsManagement.VmsManager.ServeOne: a create request that does not return ends the serial run; what requests do that run beside it is the interleaving's matter.
- VmsManagement.VmsManager.AddBaseImagesToDb: reading the image names from the agents is an input.
- VmsManagement.VmsManager.StopInstance: `RestartInstance`, which has the same shape and leaves the VM running, is left out.
- Schema.VmGuardIsExact: integers are unbounded; the values allocated fit the INTEGER columns.
- Fleet.ServerAgents.StartVm: between and during requests agents report only "running" and "shut off", liveness is fixed within a request, and a silent agent runs no VM.
- Fleet.ServerAgents.DeleteVm: the steps on disk and bridge are left out, and removing a domain is one step.
- Fleet.ServerAgents.StopVm: the wait for the shutdown is modelled apart, in `Agent.StopInstance`.
- RouterOSClient.RouterOSService.ApplyVlanConfig: comments on records, record ids and deletions the router makes by itself are left out; the additions are grouped into six methods.
- RouterOSClient.RouterOSService.GetWireguardPublicKey: the key is the router's own; only whether the interface is found is modelled.
- Interleaving.EveryInterleavingStaysAllocated: interleaving is at database statements; router and agent steps lie between them and touch no table.
- Agent.StopInstance: the listing is an input there, and the loop is watched for a number of polls, because it need not end; `Agent.EndsIff` says when it does.
- Sessions.SessionManager.MonitorSessions: times are unbounded integers; rows change only between holders of the mutex; the texts of mails are left out.
- Sessions.SessionManager.HandleRenewSession: a look-up falls between two holders of the mutex; each holder writes an instance's row once, so one that falls within a holder reads what a look-up just before or after it reads.
- Sessions.SessionManager.StartSession: tokens are assumed fresh, as UUIDs are.
- WireguardText.UserSeesTheVmsAddress: texts are sequences of characters, without their UTF-8 bytes.
- The agent score and `/proc` reading: which agent `selectServerAgent` chooses is an input.
- HTTP routing, JSON apart from the one string, environment variables, SMTP, `virsh`, `qemu-img` and `bridge`.
- Users, subjects and enrolment in the web server, and its own copies of instance rows apart from the session columns: single statements.
- The front end apart from `formatConfig` and `getSSHInfo`.
