/** The status of every VM, merged over the server agents. */
module InstanceStatus {
  import opened Wrappers

  const RUNNING_STATUS := "running"
  const SHUTOFF_STATUS := "shut off"

  datatype Status = Status(instanceId: string, status: string)

  /** What asking one agent for its VMs comes to: it is not alive, its answer is an error, or it
      reports its VMs. */
  datatype AgentReply = Silent | Failed | Reports(statuses: seq<Status>)

  // ----- What the merge means

  predicate DistinctIds(s: seq<Status>) {
    forall i, j | 0 <= i < j < |s| :: s[i].instanceId != s[j].instanceId
  }

  function StatusOf(s: seq<Status>, id: string): Option<string> {
    if s == [] then None else if s[0].instanceId == id then Some(s[0].status) else StatusOf(s[1..], id)
  }

  predicate ReportedRunning(all: seq<Status>, id: string) { Status(id, RUNNING_STATUS) in all }

  /** The map the merged list refines: an id is running if anyone says so, and otherwise keeps its
      first reported status; an unreported id has none. */
  function Merged(all: seq<Status>, id: string): Option<string> {
    if ReportedRunning(all, id) then Some(RUNNING_STATUS) else StatusOf(all, id)
  }

  /** `global` lists every id reported in `all` exactly once, with its merged status. */
  ghost predicate Refines(global: seq<Status>, all: seq<Status>) {
    DistinctIds(global) && forall id :: StatusOf(global, id) == Merged(all, id)
  }

  /** The reports of the answering agents, in the order the agents were asked. */
  function Flatten(replies: seq<AgentReply>): seq<Status> {
    if replies == [] then []
    else Flatten(replies[..|replies| - 1])
         + match replies[|replies| - 1] { case Reports(s) => s case _ => [] }
  }

  // ----- Lookup in a list

  lemma {:induction false} StatusOfMember(s: seq<Status>, id: string)
    ensures StatusOf(s, id).Some? <==> exists k | 0 <= k < |s| :: s[k].instanceId == id
    ensures StatusOf(s, id).Some? ==> Status(id, StatusOf(s, id).value) in s
  {
    if s != [] && s[0].instanceId != id {
      StatusOfMember(s[1..], id);
      assert forall k | 0 <= k < |s[1..]| :: s[1..][k] == s[k + 1];
      if k :| 0 <= k < |s| && s[k].instanceId == id {
        assert s[1..][k - 1].instanceId == id;
      }
    } else if s != [] {
      assert s[0] == Status(id, s[0].status);
    }
  }

  lemma {:induction false} StatusOfAppend(s: seq<Status>, x: Status, id: string)
    ensures StatusOf(s + [x], id)
         == if StatusOf(s, id).Some? then StatusOf(s, id) else if x.instanceId == id then Some(x.status) else None
  {
    if s == [] {
      assert s + [x] == [x] && [x][1..] == [];
    } else {
      assert (s + [x])[1..] == s[1..] + [x];
      StatusOfAppend(s[1..], x, id);
    }
  }

  lemma {:induction false} StatusOfUpdate(s: seq<Status>, k: nat, x: Status, id: string)
    requires DistinctIds(s) && k < |s| && s[k].instanceId == x.instanceId
    ensures DistinctIds(s[k := x])
    ensures StatusOf(s[k := x], id) == if id == x.instanceId then Some(x.status) else StatusOf(s, id)
  {
    var s' := s[k := x];
    if k == 0 {
      assert s'[1..] == s[1..];
    } else {
      assert s'[1..] == s[1..][k - 1 := x];
      StatusOfUpdate(s[1..], k - 1, x, id);
    }
  }

  lemma MergedAppend(all: seq<Status>, x: Status, id: string)
    ensures Merged(all + [x], id)
         == if x.instanceId != id then Merged(all, id)
            else if x.status == RUNNING_STATUS then Some(RUNNING_STATUS)
            else if Merged(all, id).Some? then Merged(all, id)
            else Some(x.status)
  {
    assert forall y :: y in all + [x] <==> y in all || y == x;
    StatusOfAppend(all, x, id);
  }

  lemma MergedIffReported(all: seq<Status>, id: string)
    ensures Merged(all, id).Some? <==> StatusOf(all, id).Some?
    ensures Merged(all, id) == Some(RUNNING_STATUS) <==> ReportedRunning(all, id)
  {
    StatusOfMember(all, id);
    if ReportedRunning(all, id) {
      var k :| 0 <= k < |all| && all[k] == Status(id, RUNNING_STATUS);
      assert all[k].instanceId == id;
    }
  }

  // ----- The inner search loop: the position of an id in the merged list

  method Find(global: seq<Status>, id: string) returns (i: nat)
    ensures i <= |global|
    ensures i < |global| ==> global[i].instanceId == id
    ensures forall k | 0 <= k < i :: global[k].instanceId != id
  {
    i := 0;
    while i < |global| && global[i].instanceId != id
      invariant i <= |global|
      invariant forall k | 0 <= k < i :: global[k].instanceId != id
    {
      i := i + 1;
    }
  }

  lemma UpdateRefines(global: seq<Status>, all: seq<Status>, i: nat, x: Status)
    requires Refines(global, all) && i < |global| && global[i].instanceId == x.instanceId
    ensures Refines(if x.status == RUNNING_STATUS then global[i := x] else global, all + [x])
  {
    var global' := if x.status == RUNNING_STATUS then global[i := x] else global;
    forall id ensures StatusOf(global', id) == Merged(all + [x], id) {
      MergedAppend(all, x, id);
      StatusOfMember(global, id);
      if x.status == RUNNING_STATUS {
        StatusOfUpdate(global, i, x, id);
      }
    }
    if x.status == RUNNING_STATUS {
      StatusOfUpdate(global, i, x, x.instanceId);
    }
  }

  lemma AppendRefines(global: seq<Status>, all: seq<Status>, x: Status)
    requires Refines(global, all) && forall k | 0 <= k < |global| :: global[k].instanceId != x.instanceId
    ensures Refines(global + [x], all + [x])
  {
    forall id ensures StatusOf(global + [x], id) == Merged(all + [x], id) {
      MergedAppend(all, x, id);
      StatusOfAppend(global, x, id);
      StatusOfMember(global, id);
      MergedIffReported(all, id);
    }
  }

  /** The VMs of one agent, absorbed into the list. */
  method Absorb(global: seq<Status>, statuses: seq<Status>, ghost all: seq<Status>) returns (r: seq<Status>)
    requires Refines(global, all)
    ensures Refines(r, all + statuses)
  {
    r := global;
    assert all + statuses[..0] == all;
    for n := 0 to |statuses|
      invariant Refines(r, all + statuses[..n])
    {
      var vmStatus := statuses[n];
      var i := Find(r, vmStatus.instanceId);
      ghost var seen := all + statuses[..n];
      assert all + statuses[..n + 1] == seen + [vmStatus];
      if i < |r| {
        UpdateRefines(r, seen, i, vmStatus);
        if vmStatus.status == RUNNING_STATUS {
          r := r[i := vmStatus];
        }
      } else {
        AppendRefines(r, seen, vmStatus);
        r := r + [vmStatus];
      }
    }
    assert statuses[..|statuses|] == statuses;
  }

  predicate SomeSilent(replies: seq<AgentReply>) { Silent in replies }

  /** The whole merge. `vmIds` are the database's non-base VMs, read only when an agent is silent;
      the read may fail. */
  method ListInstancesStatus(replies: seq<AgentReply>, vmIds: Option<seq<string>>) returns (r: Option<seq<Status>>)
    ensures r.None? <==> Failed in replies || (SomeSilent(replies) && vmIds.None?)
    ensures r.Some? && !SomeSilent(replies) ==> Refines(r.value, Flatten(replies))
    ensures r.Some? && SomeSilent(replies) ==> Refines(r.value, Flatten(replies) + ShutOff(vmIds.value))
  {
    var global: seq<Status> := [];
    var agentsCalled := 0;
    for a := 0 to |replies|
      invariant Failed !in replies[..a]
      invariant Refines(global, Flatten(replies[..a]))
      invariant 0 <= agentsCalled <= a && (agentsCalled == a <==> !SomeSilent(replies[..a]))
    {
      assert replies[..a + 1] == replies[..a] + [replies[a]];
      assert replies[..a + 1][..a] == replies[..a];
      match replies[a]
      case Silent =>
        assert Flatten(replies[..a]) + [] == Flatten(replies[..a]);
      case Failed =>
        return None;
      case Reports(statuses) =>
        agentsCalled := agentsCalled + 1;
        global := Absorb(global, statuses, Flatten(replies[..a]));
    }
    assert replies[..|replies|] == replies;
    if agentsCalled != |replies| {
      if vmIds.None? {
        return None;
      }
      global := AddMissing(global, vmIds.value, Flatten(replies));
    }
    return Some(global);
  }

  function ShutOff(ids: seq<string>): (s: seq<Status>)
    ensures |s| == |ids| && forall k | 0 <= k < |s| :: s[k] == Status(ids[k], SHUTOFF_STATUS)
  {
    seq(|ids|, k requires 0 <= k < |ids| => Status(ids[k], SHUTOFF_STATUS))
  }

  /** VMs nobody reported are added as shut off. */
  method AddMissing(global: seq<Status>, vmIds: seq<string>, ghost all: seq<Status>) returns (r: seq<Status>)
    requires Refines(global, all)
    ensures Refines(r, all + ShutOff(vmIds))
  {
    r := global;
    ghost var added := ShutOff(vmIds);
    assert all + added[..0] == all;
    for n := 0 to |vmIds|
      invariant Refines(r, all + added[..n])
    {
      var i := Find(r, vmIds[n]);
      ghost var seen := all + added[..n];
      assert all + added[..n + 1] == seen + [added[n]];
      if i < |r| {
        UpdateRefines(r, seen, i, added[n]);
      } else {
        AppendRefines(r, seen, added[n]);
        r := r + [Status(vmIds[n], SHUTOFF_STATUS)];
      }
    }
    assert added[..|vmIds|] == added;
  }

  // ----- What the merged list tells

  /** Read as a map: every id once; running exactly when some report says so, otherwise the first
      report's status; and no id that nobody reported. */
  lemma RefinesMeans(global: seq<Status>, all: seq<Status>, x: Status)
    requires Refines(global, all)
    ensures DistinctIds(global)
    ensures x in global <==> Merged(all, x.instanceId) == Some(x.status)
    ensures (exists k | 0 <= k < |global| :: global[k].instanceId == x.instanceId)
       <==> (exists k | 0 <= k < |all| :: all[k].instanceId == x.instanceId)
    ensures Status(x.instanceId, RUNNING_STATUS) in global <==> ReportedRunning(all, x.instanceId)
  {
    StatusOfMember(global, x.instanceId);
    StatusOfMember(all, x.instanceId);
    MergedIffReported(all, x.instanceId);
    EntryIsStatus(global, x);
    EntryIsStatus(global, Status(x.instanceId, RUNNING_STATUS));
  }

  lemma EntryIsStatus(global: seq<Status>, x: Status)
    requires DistinctIds(global)
    ensures x in global <==> StatusOf(global, x.instanceId) == Some(x.status)
  {
    StatusOfMember(global, x.instanceId);
    if x in global {
      var k :| 0 <= k < |global| && global[k] == x;
      var y := Status(x.instanceId, StatusOf(global, x.instanceId).value);
      var j :| 0 <= j < |global| && global[j] == y;
      assert j == k;
    }
  }

  lemma {:induction false} FlattenMembers(replies: seq<AgentReply>, x: Status)
    ensures x in Flatten(replies) <==> exists a | 0 <= a < |replies| :: replies[a].Reports? && x in replies[a].statuses
  {
    if replies != [] {
      var n := |replies| - 1;
      FlattenMembers(replies[..n], x);
      assert x in Flatten(replies) <==> x in Flatten(replies[..n]) || (replies[n].Reports? && x in replies[n].statuses);
      if a :| 0 <= a < |replies| && replies[a].Reports? && x in replies[a].statuses {
        assert a < n ==> replies[..n][a] == replies[a];
      }
    }
  }

  /** The set of running VMs does not depend on the order in which the agents are asked, nor on how
      often one of them answers. */
  lemma RunningIgnoresOrder(replies: seq<AgentReply>, replies': seq<AgentReply>, r: seq<Status>, r': seq<Status>,
                            ids: seq<string>, ids': seq<string>, id: string)
    requires forall x :: x in replies <==> x in replies'
    requires Refines(r, Flatten(replies)) || Refines(r, Flatten(replies) + ShutOff(ids))
    requires Refines(r', Flatten(replies')) || Refines(r', Flatten(replies') + ShutOff(ids'))
    ensures Status(id, RUNNING_STATUS) in r <==> Status(id, RUNNING_STATUS) in r'
  {
    RunningIsReported(replies, r, ids, id);
    RunningIsReported(replies', r', ids', id);
    SameReports(replies, replies', Status(id, RUNNING_STATUS));
    SameReports(replies', replies, Status(id, RUNNING_STATUS));
  }

  lemma SameReports(replies: seq<AgentReply>, replies': seq<AgentReply>, x: Status)
    requires forall y :: y in replies <==> y in replies'
    ensures x in Flatten(replies) ==> x in Flatten(replies')
  {
    FlattenMembers(replies, x);
    FlattenMembers(replies', x);
    if x in Flatten(replies) {
      var a :| 0 <= a < |replies| && replies[a].Reports? && x in replies[a].statuses;
      assert replies[a] in replies';
    }
  }

  lemma RunningIsReported(replies: seq<AgentReply>, r: seq<Status>, ids: seq<string>, id: string)
    requires Refines(r, Flatten(replies)) || Refines(r, Flatten(replies) + ShutOff(ids))
    ensures Status(id, RUNNING_STATUS) in r <==> Status(id, RUNNING_STATUS) in Flatten(replies)
  {
    var x := Status(id, RUNNING_STATUS);
    assert RUNNING_STATUS[0] != SHUTOFF_STATUS[0];
    assert x !in ShutOff(ids);
    if Refines(r, Flatten(replies)) {
      RefinesMeans(r, Flatten(replies), x);
    } else {
      RefinesMeans(r, Flatten(replies) + ShutOff(ids), x);
    }
  }

  // ----- checkIfVmIsRunning

  /** Whether the check refuses: the merged list is searched for the VM's first entry. */
  method CheckIfVmIsRunning(statuses: seq<Status>, vmId: string, wantRunning: bool) returns (err: bool)
    ensures err <==> (StatusOf(statuses, vmId) == Some(RUNNING_STATUS)) != wantRunning
  {
    var i := Find(statuses, vmId);
    FirstEntry(statuses, vmId, i);
    if i < |statuses| {
      return (statuses[i].status == RUNNING_STATUS && !wantRunning)
          || (statuses[i].status != RUNNING_STATUS && wantRunning);
    }
    return wantRunning;
  }

  lemma {:induction false} FirstEntry(s: seq<Status>, id: string, i: nat)
    requires i <= |s| && (i < |s| ==> s[i].instanceId == id)
    requires forall k | 0 <= k < i :: s[k].instanceId != id
    ensures StatusOf(s, id) == if i < |s| then Some(s[i].status) else None
  {
    if i > 0 {
      assert s[0].instanceId != id;
      FirstEntry(s[1..], id, i - 1);
    }
  }
}
