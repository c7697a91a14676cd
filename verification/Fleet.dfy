/** The server agents as vms-manager sees them: the domains each host defines and the state of each
    domain, and what one request to one agent may do to them. */
module Fleet {
  import opened Wrappers
  import opened Schema
  import opened InstanceStatus

  /** The domains of one host with their states. */
  type Domains = map<VmId, string>

  ghost predicate RunsOn(hosts: seq<Domains>, a: nat, id: VmId) {
    a < |hosts| && id in hosts[a] && hosts[a][id] == RUNNING_STATUS
  }

  /** Every VM runs on at most one host. */
  ghost predicate AtMostOneHost(hosts: seq<Domains>) {
    forall a: nat, b: nat, id | RunsOn(hosts, a, id) && RunsOn(hosts, b, id) :: a == b
  }

  /** Agents report only "running" or "shut off". */
  ghost predicate TwoStates(hosts: seq<Domains>) {
    forall a, id | 0 <= a < |hosts| && id in hosts[a] ::
      hosts[a][id] == RUNNING_STATUS || hosts[a][id] == SHUTOFF_STATUS
  }

  /** A silent agent runs no VM. */
  ghost predicate SilentIdle(hosts: seq<Domains>, alive: seq<bool>) {
    |hosts| == |alive| && forall a: nat, id | RunsOn(hosts, a, id) :: alive[a]
  }

  ghost predicate Sound(hosts: seq<Domains>, alive: seq<bool>) {
    AtMostOneHost(hosts) && TwoStates(hosts) && SilentIdle(hosts, alive)
  }

  ghost predicate Nowhere(hosts: seq<Domains>, id: VmId) { forall a: nat :: !RunsOn(hosts, a, id) }

  /** One host with a domain in some state, everything else as it was. */
  function Placed(hosts: seq<Domains>, a: nat, id: VmId, state: string): seq<Domains> {
    if a < |hosts| then hosts[a := hosts[a][id := state]] else hosts
  }

  /** The hosts of a choice that can be made. */
  function PlacedOn(hosts: seq<Domains>, choice: Option<nat>, id: VmId, state: string): seq<Domains> {
    if choice.Some? then Placed(hosts, choice.value, id, state) else hosts
  }

  /** Nothing happened to the domains of these VMs on any host. */
  ghost predicate KeepsKnown(hosts: seq<Domains>, hosts': seq<Domains>, known: set<VmId>) {
    |hosts'| == |hosts| && forall a, id | 0 <= a < |hosts| && id in known ::
                             (id in hosts'[a] <==> id in hosts[a]) && (id in hosts[a] ==> hosts'[a][id] == hosts[a][id])
  }

  /** A choice among the agents is one that answers. */
  predicate CanChoose(alive: seq<bool>, choice: Option<nat>) {
    choice.Some? && choice.value < |alive| && alive[choice.value]
  }

  ghost predicate Undefined(hosts: seq<Domains>, id: VmId) { forall a | 0 <= a < |hosts| :: id !in hosts[a] }

  /** `statuses` lists exactly the host's domains. */
  ghost predicate ReportOf(statuses: seq<Status>, host: Domains) {
    forall x :: x in statuses <==> x.instanceId in host && host[x.instanceId] == x.status
  }

  ghost predicate ReplyOf(reply: AgentReply, host: Domains, alive: bool) {
    && (reply.Silent? <==> !alive)
    && (reply.Reports? ==> ReportOf(reply.statuses, host))
  }

  ghost predicate RepliesOf(replies: seq<AgentReply>, hosts: seq<Domains>, alive: seq<bool>) {
    && |replies| == |hosts| == |alive|
    && forall a | 0 <= a < |replies| :: ReplyOf(replies[a], hosts[a], alive[a])
  }

  /** One host's domains with one domain set to a state, or left as it was. */
  ghost predicate OnlyTouches(m: Domains, m': Domains, id: VmId) {
    && (forall k | k in m && k != id :: k in m' && m'[k] == m[k])
    && (forall k | k in m' && k != id :: k in m)
    && (id in m' ==> m'[id] == RUNNING_STATUS || m'[id] == SHUTOFF_STATUS || (id in m && m'[id] == m[id]))
  }

  /** Only one host's view of one VM may change, and only on a live host. */
  ghost predicate Touches(hosts: seq<Domains>, hosts': seq<Domains>, a: nat, id: VmId) {
    |hosts'| == |hosts| && a < |hosts| && hosts' == hosts[a := hosts'[a]] && OnlyTouches(hosts[a], hosts'[a], id)
  }

  // ----- The merged status tells where a VM runs

  /** When no agent's answer was an error, the merge reports a VM running exactly when it runs on some
      host; silent hosts run nothing. */
  lemma MergeSeesRunning(hosts: seq<Domains>, alive: seq<bool>, replies: seq<AgentReply>, ids: seq<VmId>,
                         global: seq<Status>, id: VmId)
    requires SilentIdle(hosts, alive) && RepliesOf(replies, hosts, alive) && Failed !in replies
    requires Refines(global, Flatten(replies)) || Refines(global, Flatten(replies) + ShutOff(ids))
    ensures StatusOf(global, id) == Some(RUNNING_STATUS) <==> !Nowhere(hosts, id)
  {
    var x := Status(id, RUNNING_STATUS);
    RunningIsReported(replies, global, ids, id);
    EntryIsStatus(global, x);
    FlattenMembers(replies, x);
    if x in Flatten(replies) {
      var a :| 0 <= a < |replies| && replies[a].Reports? && x in replies[a].statuses;
      assert RunsOn(hosts, a, id);
    }
    if !Nowhere(hosts, id) {
      var a: nat :| RunsOn(hosts, a, id);
      assert alive[a] && ReplyOf(replies[a], hosts[a], alive[a]) && replies[a] in replies;
      assert x in replies[a].statuses;
    }
  }

  // ----- Changes that keep the fleet sound

  /** Anything may happen to a VM on one live host, as long as it runs on no other. */
  lemma TouchKeepsSound(hosts: seq<Domains>, hosts': seq<Domains>, alive: seq<bool>, a: nat, id: VmId)
    requires Sound(hosts, alive) && Touches(hosts, hosts', a, id) && alive[a]
    requires forall b: nat | RunsOn(hosts, b, id) :: b == a
    ensures Sound(hosts', alive)
    ensures forall b: nat | RunsOn(hosts', b, id) :: b == a
  {
    forall b: nat, k | RunsOn(hosts', b, k) && (b != a || k != id) ensures RunsOn(hosts, b, k) {
    }
    forall b: nat, k | b < |hosts'| && k in hosts'[b]
      ensures hosts'[b][k] == RUNNING_STATUS || hosts'[b][k] == SHUTOFF_STATUS
    {
      if b != a {
        assert hosts'[b] == hosts[b];
      }
    }
    forall b: nat, c: nat, k | RunsOn(hosts', b, k) && RunsOn(hosts', c, k) ensures b == c {
    }
  }

  lemma TouchKeepsOthers(hosts: seq<Domains>, hosts': seq<Domains>, a: nat, id: VmId)
    requires Touches(hosts, hosts', a, id)
    ensures forall b: nat, k | k != id :: RunsOn(hosts', b, k) <==> RunsOn(hosts, b, k)
  {
  }

  /** Domains are only undefined. */
  ghost predicate Shrinks(hosts: seq<Domains>, hosts': seq<Domains>) {
    |hosts'| == |hosts| && forall a, id | 0 <= a < |hosts| && id in hosts'[a] ::
                             id in hosts[a] && hosts'[a][id] == hosts[a][id]
  }

  /** Every host has the same domains as before, except that it may have lost this one. */
  ghost predicate OnlyLoses(hosts: seq<Domains>, hosts': seq<Domains>, id: VmId) {
    |hosts'| == |hosts| && forall a | 0 <= a < |hosts| :: hosts'[a] == hosts[a] || hosts'[a] == hosts[a] - {id}
  }

  lemma ShrinkKeepsSound(hosts: seq<Domains>, hosts': seq<Domains>, alive: seq<bool>)
    requires Sound(hosts, alive) && Shrinks(hosts, hosts')
    ensures Sound(hosts', alive)
    ensures forall a: nat, id | RunsOn(hosts', a, id) :: RunsOn(hosts, a, id)
  {
    forall a: nat, id | RunsOn(hosts', a, id) ensures RunsOn(hosts, a, id) {
    }
  }

  lemma TouchKeepsKnown(hosts: seq<Domains>, hosts': seq<Domains>, a: nat, id: VmId, known: set<VmId>)
    requires Touches(hosts, hosts', a, id) && id !in known
    ensures KeepsKnown(hosts, hosts', known)
  {
    forall b, k | 0 <= b < |hosts| && k in known
      ensures (k in hosts'[b] <==> k in hosts[b]) && (k in hosts[b] ==> hosts'[b][k] == hosts[b][k])
    {
      assert b != a ==> hosts'[b] == hosts[b];
    }
  }

  lemma LossKeepsKnown(hosts: seq<Domains>, hosts': seq<Domains>, hosts'': seq<Domains>, id: VmId, known: set<VmId>)
    requires KeepsKnown(hosts, hosts', known) && OnlyLoses(hosts', hosts'', id) && id !in known
    ensures KeepsKnown(hosts, hosts'', known)
  {
    forall b, k | 0 <= b < |hosts| && k in known
      ensures (k in hosts''[b] <==> k in hosts[b]) && (k in hosts[b] ==> hosts''[b][k] == hosts[b][k])
    {
      assert hosts''[b] == hosts'[b] || hosts''[b] == hosts'[b] - {id};
    }
  }

  /** A domain that comes and goes leaves no trace. */
  lemma PlacedAndLost(hosts: seq<Domains>, hosts': seq<Domains>, choice: Option<nat>, id: VmId)
    requires Undefined(hosts, id) && OnlyLoses(PlacedOn(hosts, choice, id, SHUTOFF_STATUS), hosts', id)
    requires Undefined(hosts', id)
    ensures hosts' == hosts
  {
    var placed := PlacedOn(hosts, choice, id, SHUTOFF_STATUS);
    assert |placed| == |hosts| == |hosts'|;
    forall a | 0 <= a < |hosts| ensures hosts'[a] == hosts[a] {
      assert placed[a] == hosts[a] || placed[a] == hosts[a][id := SHUTOFF_STATUS];
      assert id !in hosts[a] && id !in hosts'[a];
    }
  }

  class ServerAgents {
    var hosts: seq<Domains>
    var alive: seq<bool>
    /** Every agent answers and carries out what it is asked during the current request. */
    var obliging: bool

    constructor (hosts: seq<Domains>, alive: seq<bool>, obliging: bool)
      ensures this.hosts == hosts && this.alive == alive && this.obliging == obliging
    {
      this.hosts := hosts;
      this.alive := alive;
      this.obliging := obliging;
    }

    method Refuses() returns (refused: bool)
      ensures obliging ==> !refused
    {
      refused := *;
      if obliging {
        refused := false;
      }
    }

    /** Asks one agent for its VMs. */
    method InstancesStatus(a: nat) returns (reply: AgentReply)
      requires a < |hosts| == |alive|
      ensures ReplyOf(reply, hosts[a], alive[a])
      ensures obliging ==> !reply.Failed?
    {
      if !alive[a] { return Silent; }
      var failed := Refuses();
      if failed { return Failed; }
      var statuses: seq<Status> := [];
      var left := hosts[a].Keys;
      while left != {}
        invariant left <= hosts[a].Keys
        invariant forall x :: x in statuses <==> x.instanceId in hosts[a] && x.instanceId !in left
                                                 && hosts[a][x.instanceId] == x.status
        decreases |left|
      {
        var id :| id in left;
        left := left - {id};
        statuses := statuses + [Status(id, hosts[a][id])];
      }
      return Reports(statuses);
    }

    /** Asks every agent in turn. */
    method AllReplies() returns (replies: seq<AgentReply>)
      requires |hosts| == |alive|
      ensures RepliesOf(replies, hosts, alive)
      ensures obliging ==> Failed !in replies
    {
      replies := [];
      for a := 0 to |hosts|
        invariant |replies| == a && forall b | 0 <= b < a :: ReplyOf(replies[b], hosts[b], alive[b])
        invariant obliging ==> Failed !in replies
      {
        var reply := InstancesStatus(a);
        replies := replies + [reply];
      }
    }

    /** The agent with the best score, if any is alive and free: `choice` says which. */
    method SelectServerAgent(choice: Option<nat>) returns (a: Option<nat>)
      ensures a == if CanChoose(alive, choice) then choice else None
    {
      a := if CanChoose(alive, choice) then choice else None;
    }

    /** Creates and installs a VM and shuts it down again; an error may leave it in any state. */
    method CreateVm(a: nat, id: VmId) returns (err: bool)
      requires a < |hosts| && id !in hosts[a]
      modifies this`hosts
      ensures old(obliging) ==> !err
      ensures Touches(old(hosts), hosts, a, id)
      ensures !err ==> hosts == old(hosts)[a := old(hosts)[a][id := SHUTOFF_STATUS]]
    {
      var defined, stopped := *, *;
      err := Refuses();
      if err {
        if defined {
          hosts := hosts[a := hosts[a][id := if stopped then SHUTOFF_STATUS else RUNNING_STATUS]];
        }
        return;
      }
      hosts := hosts[a := hosts[a][id := SHUTOFF_STATUS]];
    }

    /** Defines the domain if the host does not know it, starts it and sets its network up; an error
        may come before or after the start. */
    method StartVm(a: nat, id: VmId) returns (err: bool)
      requires a < |hosts|
      modifies this`hosts
      ensures if RunsOn(old(hosts), a, id) then err else old(obliging) ==> !err
      ensures Touches(old(hosts), hosts, a, id)
      ensures !err ==> hosts == old(hosts)[a := old(hosts)[a][id := RUNNING_STATUS]]
    {
      var imported, started, networked := *, *, *;
      if obliging {
        imported, started, networked := true, true, true;
      }
      var domains := hosts[a];
      if id !in domains {
        if !imported { return true; }
        domains := domains[id := SHUTOFF_STATUS];
      }
      if started && domains[id] != RUNNING_STATUS {
        domains := domains[id := RUNNING_STATUS];
        err := !networked;
      } else {
        err := true;
      }
      hosts := hosts[a := domains];
      assert !err ==> domains == old(hosts)[a][id := RUNNING_STATUS];
    }

    /** Stops a VM that runs here and answers "bad request" if none does; an error may leave it
        running or not. */
    method StopVm(a: nat, id: VmId) returns (badRequest: bool, err: bool)
      requires a < |hosts|
      modifies this`hosts
      ensures badRequest <==> !RunsOn(old(hosts), a, id)
      ensures old(obliging) ==> !err
      ensures badRequest ==> hosts == old(hosts)
      ensures Touches(old(hosts), hosts, a, id)
      ensures !badRequest && !err ==> hosts == old(hosts)[a := old(hosts)[a][id := SHUTOFF_STATUS]]
    {
      badRequest, err := !(id in hosts[a] && hosts[a][id] == RUNNING_STATUS), false;
      if badRequest { return; }
      var stopped := *;
      err := Refuses();
      if !err || stopped {
        hosts := hosts[a := hosts[a][id := SHUTOFF_STATUS]];
      }
    }

    /** Undefines a domain and removes its storage; a host that does not know it succeeds at once. */
    method DeleteVm(a: nat, id: VmId) returns (err: bool)
      requires a < |hosts|
      modifies this`hosts
      ensures old(obliging) ==> !err
      ensures Touches(old(hosts), hosts, a, id)
      ensures !err ==> hosts == old(hosts)[a := old(hosts)[a] - {id}]
      ensures hosts[a] == old(hosts)[a] || hosts[a] == old(hosts)[a] - {id}
    {
      var undefined := *;
      err := Refuses();
      if !err || undefined {
        hosts := hosts[a := hosts[a] - {id}];
      }
    }
  }
}
