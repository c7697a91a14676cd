/** Any number of create and delete requests, interleaved between any two of their database
    statements. One step is one statement of one request; a statement may also fail without effect,
    which ends the request or, in a retry loop, is tried again. */
module Interleaving {
  import opened Wrappers
  import opened Addressing
  import opened Schema

  datatype CreateRequest = CreateRequest(subject: SubjectId, vmId: VmId, source: VmId)

  /** Where a request stands, with the local variables it still uses; each state names the next
      statement. */
  datatype Request =
    | SubjectExists(c: CreateRequest)
    | ReadAllVlans(c: CreateRequest)
    | AddSubject(c: CreateRequest, vlan: int)
    | ReadSubjectVlan(c: CreateRequest)
    | ReadVlanOwner(c: CreateRequest, vlan: int)
    | ReadIdentifiers(c: CreateRequest, vlan: int, owner: SubjectId)
    | AddVm(c: CreateRequest, identifier: int)
    | ReadVmSubject(vmId: VmId)
    | ReadOwnVlan(vmId: VmId, subject: SubjectId)
    | MarkConfigured(vmId: VmId, vlan: int)
    | DeleteReadSubject(vmId: VmId)
    | DeleteCount(vmId: VmId, subject: SubjectId)
    | DeleteVmRow(vmId: VmId, subject: SubjectId, isLast: bool)
    | DeleteSubjectRow(subject: SubjectId)
    | Finished

  function NewInstance(c: CreateRequest, identifier: int): Vm {
    Vm(None, false, false, Some(c.source), Some(c.subject), Some(identifier))
  }

  /** A create or delete request as it reaches the database. */
  predicate IsNew(r: Request) { r.SubjectExists? || r.DeleteReadSubject? }

  predicate InRetryLoop(r: Request) { r.AddSubject? || r.AddVm? || r.DeleteVmRow? || r.DeleteSubjectRow? }

  /** The VLANs come back as some list, which may have been cut short, and the first free one is picked
      from that list. */
  predicate PicksVlan(d: Db, c: CreateRequest, vlans: seq<int>, r': Request) {
    && ListsPart(vlans, Vlans(d))
    && r' == if |vlans| == MAX_VLANS then Finished else AddSubject(c, FirstFree((set v | v in vlans), FIRST_VLAN))
  }

  predicate PicksIdentifier(d: Db, c: CreateRequest, owner: SubjectId, ids: seq<int>, r': Request) {
    && ListsPart(ids, Identifiers(d, owner))
    && r' == if |ids| == MAX_VMS_PER_VLAN then Finished else AddVm(c, FirstFree((set v | v in ids), 1))
  }

  /** One statement that is carried out. */
  ghost predicate Executes(d: Db, r: Request, d': Db, r': Request) {
    match r
    case SubjectExists(c) => d' == d && r' == if c.subject in d.subjects then ReadSubjectVlan(c) else ReadAllVlans(c)
    case ReadAllVlans(c) =>
      d' == d && exists vlans :: PicksVlan(d, c, vlans, r')
    case AddSubject(c, vlan) =>
      CanInsertSubject(d, c.subject, vlan) && d' == InsertSubject(d, c.subject, vlan) && r' == ReadVlanOwner(c, vlan)
    case ReadSubjectVlan(c) =>
      c.subject in d.subjects && d' == d && r' == ReadVlanOwner(c, d.subjects[c.subject].vlan)
    case ReadVlanOwner(c, vlan) =>
      d' == d && exists owner ::
                   owner in d.subjects && d.subjects[owner].vlan == vlan && r' == ReadIdentifiers(c, vlan, owner)
    case ReadIdentifiers(c, vlan, owner) =>
      d' == d && exists ids :: PicksIdentifier(d, c, owner, ids, r')
    case AddVm(c, identifier) =>
      && CanInsertVm(d, c.vmId, NewInstance(c, identifier)) && d' == InsertVm(d, c.vmId, NewInstance(c, identifier))
      && r' == ReadVmSubject(c.vmId)
    case ReadVmSubject(id) =>
      id in d.vms && d.vms[id].subjectId.Some? && d' == d && r' == ReadOwnVlan(id, d.vms[id].subjectId.value)
    case ReadOwnVlan(id, subject) =>
      subject in d.subjects && d' == d && r' == MarkConfigured(id, d.subjects[subject].vlan)
    case MarkConfigured(id, vlan) =>
      d' == SetVlanAsConfigured(d, vlan) && (r' == Finished || r' == DeleteReadSubject(id))
    case DeleteReadSubject(id) =>
      id in d.vms && d.vms[id].subjectId.Some? && d' == d && r' == DeleteCount(id, d.vms[id].subjectId.value)
    case DeleteCount(id, subject) =>
      d' == d && r' == DeleteVmRow(id, subject, |set i | i in d.vms && d.vms[i].subjectId == Some(subject)| == 1)
    case DeleteVmRow(id, subject, isLast) =>
      d' == DeleteVm(d, id) && r' == if isLast then DeleteSubjectRow(subject) else Finished
    case DeleteSubjectRow(subject) =>
      CanDeleteSubject(d, subject) && d' == DeleteSubject(d, subject) && r' == Finished
    case Finished => false
  }

  /** A statement that fails, for whatever reason: no effect, and the request gives up, compensates
      for what it stored, or tries again. */
  predicate Fails(d: Db, r: Request, d': Db, r': Request) {
    && d' == d && !r.Finished?
    && if InRetryLoop(r) then r' == r
       else r' == Finished || (r.MarkConfigured? && r' == DeleteReadSubject(r.vmId))
  }

  datatype Service = Service(db: Db, requests: map<nat, Request>)

  predicate Arrives(s: Service, s': Service, k: nat, r: Request) {
    k !in s.requests && IsNew(r) && s' == Service(s.db, s.requests[k := r])
  }

  ghost predicate Moves(s: Service, s': Service, k: nat, r': Request) {
    && k in s.requests && s'.requests == s.requests[k := r']
    && (Executes(s.db, s.requests[k], s'.db, r') || Fails(s.db, s.requests[k], s'.db, r'))
  }

  ghost predicate Next(s: Service, s': Service) {
    || (exists k: nat, r :: Arrives(s, s', k, r))
    || (exists k: nat, r' :: Moves(s, s', k, r'))
  }

  ghost predicate IsRun(run: seq<Service>) {
    |run| > 0 && forall k | 0 <= k < |run| - 1 :: Next(run[k], run[k + 1])
  }

  // ----- The allocation invariant survives every interleaving

  /** What a request carries out of its snapshot stays in range, however stale it grows. */
  predicate LocalsInRange(r: Request) {
    && (r.AddSubject? ==> VlanInRange(r.vlan))
    && (r.AddVm? ==> IdentifierInRange(r.identifier))
  }

  predicate Inv(s: Service) { Allocated(s.db) && forall k | k in s.requests :: LocalsInRange(s.requests[k]) }

  /** A list read from an allocated database yields a number in range, however full the range is. */
  lemma ReadKeepsInv(d: Db, r: Request, d': Db, r': Request)
    requires Allocated(d) && Executes(d, r, d', r') && (r.ReadAllVlans? || r.ReadIdentifiers?)
    ensures Allocated(d') && LocalsInRange(r')
  {
    if r.ReadAllVlans? {
      var vlans :| PicksVlan(d, r.c, vlans, r');
      if |vlans| != MAX_VLANS {
        FirstFreeInRange(vlans, (set v | v in vlans), FIRST_VLAN, MAX_VLANS);
      }
    } else {
      var ids :| PicksIdentifier(d, r.c, r.owner, ids, r');
      if |ids| != MAX_VMS_PER_VLAN {
        FirstFreeInRange(ids, (set v | v in ids), 1, MAX_VMS_PER_VLAN);
      }
    }
  }

  lemma InsertKeepsInv(d: Db, r: Request, d': Db, r': Request)
    requires Allocated(d) && LocalsInRange(r) && Executes(d, r, d', r') && (r.AddSubject? || r.AddVm?)
    ensures Allocated(d') && LocalsInRange(r')
  {
    if r.AddSubject? {
      SubjectGuardIsExact(d, r.c.subject, r.vlan);
    } else {
      VmGuardIsExact(d, r.c.vmId, NewInstance(r.c, r.identifier));
    }
  }

  lemma DeletionKeepsInv(d: Db, r: Request, d': Db, r': Request)
    requires Allocated(d) && Executes(d, r, d', r') && (r.MarkConfigured? || r.DeleteVmRow? || r.DeleteSubjectRow?)
    ensures Allocated(d') && LocalsInRange(r')
  {
    match r
    case MarkConfigured(id, vlan) => FlagKeepsConstraints(d, vlan);
    case DeleteVmRow(id, subject, _) => VmDeletionKeepsConstraints(d, id);
    case DeleteSubjectRow(subject) => SubjectDeletionGuardIsExact(d, subject);
  }

  lemma ExecutesKeepsInv(d: Db, r: Request, d': Db, r': Request)
    requires Allocated(d) && LocalsInRange(r) && Executes(d, r, d', r')
    ensures Allocated(d') && LocalsInRange(r')
  {
    if r.ReadAllVlans? || r.ReadIdentifiers? {
      ReadKeepsInv(d, r, d', r');
    } else if r.AddSubject? || r.AddVm? {
      InsertKeepsInv(d, r, d', r');
    } else if r.MarkConfigured? || r.DeleteVmRow? || r.DeleteSubjectRow? {
      DeletionKeepsInv(d, r, d', r');
    }
  }

  lemma NextKeepsInv(s: Service, s': Service)
    requires Inv(s) && Next(s, s')
    ensures Inv(s')
  {
    if k: nat, r :| Arrives(s, s', k, r) {
    } else {
      var k: nat, r' :| Moves(s, s', k, r');
      if Executes(s.db, s.requests[k], s'.db, r') {
        ExecutesKeepsInv(s.db, s.requests[k], s'.db, r');
      }
    }
  }

  /** In every reachable state VLANs are distinct and in 100..354, and identifiers are distinct within
      their subject and in 1..253, for any number of requests in any interleaving. */
  lemma {:induction false} EveryInterleavingStaysAllocated(run: seq<Service>, k: nat)
    requires IsRun(run) && k < |run|
    requires Allocated(run[0].db) && run[0].requests == map[]
    ensures Inv(run[k]) && AllocatedInNumbers(run[k].db)
  {
    if k > 0 {
      EveryInterleavingStaysAllocated(run, k - 1);
      NextKeepsInv(run[k - 1], run[k]);
    }
    AllocatedMeans(run[k].db);
  }

  // ----- What interleaving does break

  ghost predicate CanExecute(d: Db, r: Request) { exists d', r' :: Executes(d, r, d', r') }

  /** Exactly when the next attempt of a retry loop that finds the database up succeeds. */
  lemma RetryLoopSucceedsIff(d: Db, r: Request)
    requires InRetryLoop(r)
    ensures CanExecute(d, r) <==>
              match r
              case AddSubject(c, vlan) => c.subject !in d.subjects && forall s | s in d.subjects ::
                                                                        d.subjects[s].vlan != vlan
              case AddVm(c, identifier) =>
                && c.vmId !in d.vms && c.subject in d.subjects
                && forall i | i in d.vms && d.vms[i].subjectId == Some(c.subject) ::
                     d.vms[i].vlanIdentifier != Some(identifier)
              case DeleteSubjectRow(subject) => forall i | i in d.vms :: d.vms[i].subjectId != Some(subject)
              case _ => true
  {
    match r
    case AddSubject(c, vlan) =>
      if CanInsertSubject(d, c.subject, vlan) {
        assert Executes(d, r, InsertSubject(d, c.subject, vlan), ReadVlanOwner(c, vlan));
      }
    case AddVm(c, identifier) =>
      if CanInsertVm(d, c.vmId, NewInstance(c, identifier)) {
        assert Executes(d, r, InsertVm(d, c.vmId, NewInstance(c, identifier)), ReadVmSubject(c.vmId));
      }
      InsertNeeds(d, c, identifier);
    case DeleteVmRow(id, subject, isLast) =>
      assert Executes(d, r, DeleteVm(d, id), if isLast then DeleteSubjectRow(subject) else Finished);
    case DeleteSubjectRow(subject) =>
      if CanDeleteSubject(d, subject) {
        assert Executes(d, r, DeleteSubject(d, subject), Finished);
      }
  }

  lemma InsertNeeds(d: Db, c: CreateRequest, identifier: int)
    ensures CanInsertVm(d, c.vmId, NewInstance(c, identifier)) <==>
              && c.vmId !in d.vms && c.subject in d.subjects
              && forall i | i in d.vms && d.vms[i].subjectId == Some(c.subject) ::
                   d.vms[i].vlanIdentifier != Some(identifier)
  {
    var row := NewInstance(c, identifier);
    if CanInsertVm(d, c.vmId, row) {
      forall i | i in d.vms && d.vms[i].subjectId == Some(c.subject)
        ensures d.vms[i].vlanIdentifier != Some(identifier)
      {
        assert !Collide(row, d.vms[i]);
      }
    }
  }

  function First(): CreateRequest { CreateRequest("a", "x", "t") }
  function Second(): CreateRequest { CreateRequest("b", "y", "t") }
  function Third(): CreateRequest { CreateRequest("a", "y", "t") }

  /** Reached from a database nobody is using. */
  ghost predicate Reachable(d: Db, s: Service) {
    exists run: seq<Service> :: IsRun(run) && run[0] == Service(d, map[]) && run[|run| - 1] == s
  }

  lemma ReachableNext(d: Db, s: Service, s': Service)
    requires Reachable(d, s) && Next(s, s')
    ensures Reachable(d, s')
  {
    var run: seq<Service> :| IsRun(run) && run[0] == Service(d, map[]) && run[|run| - 1] == s;
    var longer := run + [s'];
    forall k | 0 <= k < |longer| - 1 ensures Next(longer[k], longer[k + 1]) {
      if k < |run| - 1 {
        assert longer[k] == run[k] && longer[k + 1] == run[k + 1];
      }
    }
    assert IsRun(longer) && longer[0] == run[0] && longer[|longer| - 1] == s';
  }

  /** One request takes its next step. */
  lemma Go(d0: Db, s: Service, k: nat, d: Db, r: Request) returns (s': Service)
    requires Reachable(d0, s) && k in s.requests && Executes(s.db, s.requests[k], d, r)
    ensures s' == Service(d, s.requests[k := r]) && Reachable(d0, s')
  {
    s' := Service(d, s.requests[k := r]);
    assert Moves(s, s', k, r);
    ReachableNext(d0, s, s');
  }

  lemma TwoArrive(d: Db, r0: Request, r1: Request)
    requires IsNew(r0) && IsNew(r1)
    ensures Reachable(d, Service(d, map[0 := r0, 1 := r1]))
  {
    var s0, s1 := Service(d, map[]), Service(d, map[0 := r0]);
    var s2 := Service(d, map[0 := r0, 1 := r1]);
    assert IsRun([s0]) && [s0][0] == s0 && [s0][|[s0]| - 1] == s0;
    assert Reachable(d, s0);
    assert Arrives(s0, s1, 0, r0);
    ReachableNext(d, s0, s1);
    assert Arrives(s1, s2, 1, r1);
    ReachableNext(d, s1, s2);
  }

  lemma ReadsIdentifiers(d: Db, c: CreateRequest, vlan: int, owner: SubjectId)
    requires Identifiers(d, owner) == {}
    ensures Executes(d, ReadIdentifiers(c, vlan, owner), d, AddVm(c, 1))
  {
    var none: seq<int> := [];
    assert ListsPart(none, Identifiers(d, owner)) && |none| != MAX_VMS_PER_VLAN;
    assert (set v | v in none) == {};
    assert PicksIdentifier(d, c, owner, none, AddVm(c, 1));
  }

  lemma ReadsOneIdentifier(d: Db, c: CreateRequest, vlan: int, owner: SubjectId)
    requires Identifiers(d, owner) == {1}
    ensures Executes(d, ReadIdentifiers(c, vlan, owner), d, AddVm(c, 2))
  {
    var one := [1];
    assert ListsPart(one, Identifiers(d, owner)) && |one| != MAX_VMS_PER_VLAN;
    assert (set v | v in one) == {1};
    assert FirstFree({1}, 1) == 2;
    assert PicksIdentifier(d, c, owner, one, AddVm(c, 2));
  }

  /** A create request for an existing subject, up to its identifier. */
  lemma ReadsOwner(d: Db, c: CreateRequest, vlan: int)
    requires c.subject in d.subjects && d.subjects[c.subject].vlan == vlan
    ensures Executes(d, SubjectExists(c), d, ReadSubjectVlan(c))
    ensures Executes(d, ReadSubjectVlan(c), d, ReadVlanOwner(c, vlan))
    ensures Executes(d, ReadVlanOwner(c, vlan), d, ReadIdentifiers(c, vlan, c.subject))
  {
  }

  /** A create request for an existing subject runs alone up to its insert. */
  lemma RunsToInsert(d0: Db, s: Service, k: nat, c: CreateRequest, vlan: int, identifier: int) returns (s': Service)
    requires Reachable(d0, s) && k in s.requests && s.requests[k] == SubjectExists(c)
    requires c.subject in s.db.subjects && s.db.subjects[c.subject].vlan == vlan
    requires Executes(s.db, ReadIdentifiers(c, vlan, c.subject), s.db, AddVm(c, identifier))
    ensures s' == Service(s.db, s.requests[k := AddVm(c, identifier)]) && Reachable(d0, s')
  {
    ReadsOwner(s.db, c, vlan);
    s' := Go(d0, s, k, s.db, ReadSubjectVlan(c));
    s' := Go(d0, s', k, s.db, ReadVlanOwner(c, vlan));
    s' := Go(d0, s', k, s.db, ReadIdentifiers(c, vlan, c.subject));
    s' := Go(d0, s', k, s.db, AddVm(c, identifier));
  }

  /** A delete request runs alone up to the deletion of the row. */
  lemma RunsToRow(d0: Db, s: Service, k: nat, id: VmId, subject: SubjectId) returns (s': Service)
    requires Reachable(d0, s) && k in s.requests && s.requests[k] == DeleteReadSubject(id)
    requires id in s.db.vms && s.db.vms[id].subjectId == Some(subject)
    requires |set i | i in s.db.vms && s.db.vms[i].subjectId == Some(subject)| == 1
    ensures s' == Service(s.db, s.requests[k := DeleteVmRow(id, subject, true)]) && Reachable(d0, s')
  {
    s' := Go(d0, s, k, s.db, DeleteCount(id, subject));
    s' := Go(d0, s', k, s.db, DeleteVmRow(id, subject, true));
  }

  /** The claim that a retry loop only fails while the database is down does not survive
      interleaving. Two requests for new subjects can pick the same VLAN: the second insert then has
      no attempt that succeeds for as long as a row holds that VLAN. */
  lemma RetryLoopCanSpin(later: Db)
    ensures exists s: Service ::
              Reachable(Db(map[], map[]), s) && 1 in s.requests && s.requests[1] == AddSubject(Second(), 100)
              && !CanExecute(s.db, s.requests[1])
    ensures (exists s | s in later.subjects :: later.subjects[s].vlan == 100)
            ==> !CanExecute(later, AddSubject(Second(), 100))
  {
    var empty := Db(map[], map[]);
    TwoArrive(empty, SubjectExists(First()), SubjectExists(Second()));
    var s := Service(empty, map[0 := SubjectExists(First()), 1 := SubjectExists(Second())]);
    EmptyListPicks(empty, First());
    EmptyListPicks(empty, Second());
    s := Go(empty, s, 0, empty, ReadAllVlans(First()));
    s := Go(empty, s, 1, empty, ReadAllVlans(Second()));
    s := Go(empty, s, 0, empty, AddSubject(First(), 100));
    s := Go(empty, s, 1, empty, AddSubject(Second(), 100));
    s := Go(empty, s, 0, InsertSubject(empty, "a", 100), ReadVlanOwner(First(), 100));
    assert s.db.subjects["a"].vlan == 100;
    RetryLoopSucceedsIff(s.db, s.requests[1]);
    RetryLoopSucceedsIff(later, AddSubject(Second(), 100));
  }

  function OneSubject(): Db { Db(map["a" := Subject(100, false)], map[]) }

  /** One request alone is enough if its read of the VLANs is cut short: it picks a VLAN that is taken,
      and no attempt of its insert succeeds while the row stands. */
  lemma CutReadCanSpin(later: Db)
    ensures exists s: Service ::
              Reachable(OneSubject(), s) && s == Service(OneSubject(), map[0 := AddSubject(Second(), 100)])
              && !CanExecute(s.db, s.requests[0])
    ensures (exists s | s in later.subjects :: later.subjects[s].vlan == 100)
            ==> !CanExecute(later, AddSubject(Second(), 100))
  {
    var d := OneSubject();
    var s := OneArrives(d, SubjectExists(Second()));
    assert "b" !in d.subjects;
    EmptyListPicks(d, Second());
    s := Go(d, s, 0, d, ReadAllVlans(Second()));
    s := Go(d, s, 0, d, AddSubject(Second(), 100));
    assert d.subjects["a"].vlan == 100;
    RetryLoopSucceedsIff(d, AddSubject(Second(), 100));
    RetryLoopSucceedsIff(later, AddSubject(Second(), 100));
  }

  lemma EmptyListPicks(d: Db, c: CreateRequest)
    ensures Executes(d, ReadAllVlans(c), d, AddSubject(c, 100))
  {
    var none: seq<int> := [];
    assert ListsPart(none, Vlans(d)) && |none| != MAX_VLANS;
    assert (set v | v in none) == {};
    assert PicksVlan(d, c, none, AddSubject(c, 100));
  }

  lemma OneArrives(d: Db, r: Request) returns (s: Service)
    requires IsNew(r)
    ensures s == Service(d, map[0 := r]) && Reachable(d, s)
  {
    var s0 := Service(d, map[]);
    s := Service(d, map[0 := r]);
    assert IsRun([s0]) && [s0][0] == s0 && [s0][|[s0]| - 1] == s0;
    assert Reachable(d, s0);
    assert Arrives(s0, s, 0, r);
    ReachableNext(d, s0, s);
  }

  /** Two requests for VMs of one subject can pick the same identifier: the second insert spins while
      the first one's row stands. */
  lemma VmInsertCanSpin(later: Db)
    ensures exists s: Service :: Reachable(OneSubject(), s) && 1 in s.requests && s.requests[1] == AddVm(Third(), 1)
              && !CanExecute(s.db, s.requests[1])
    ensures "x" in later.vms && later.vms["x"] == NewInstance(First(), 1) ==> !CanExecute(later, AddVm(Third(), 1))
  {
    var d := OneSubject();
    assert Identifiers(d, "a") == {};
    ReadsIdentifiers(d, First(), 100, "a");
    ReadsIdentifiers(d, Third(), 100, "a");
    TwoArrive(d, SubjectExists(First()), SubjectExists(Third()));
    var s := Service(d, map[0 := SubjectExists(First()), 1 := SubjectExists(Third())]);
    s := RunsToInsert(d, s, 0, First(), 100, 1);
    s := RunsToInsert(d, s, 1, Third(), 100, 1);
    InsertNeeds(d, First(), 1);
    s := Go(d, s, 0, InsertVm(d, "x", NewInstance(First(), 1)), ReadVmSubject("x"));
    assert s.db.vms["x"] == NewInstance(First(), 1);
    RetryLoopSucceedsIff(s.db, s.requests[1]);
    RetryLoopSucceedsIff(later, AddVm(Third(), 1));
  }

  function OneVm(): Db { Db(map["a" := Subject(100, false)], map["x" := NewInstance(First(), 1)]) }

  /** Deleting a subject's last VM and creating another one can cross: the subject's deletion then
      spins while the new VM stands. */
  lemma SubjectDeletionCanSpin(later: Db)
    ensures exists s: Service :: Reachable(OneVm(), s) && 0 in s.requests && s.requests[0] == DeleteSubjectRow("a")
              && !CanExecute(s.db, s.requests[0])
    ensures (exists i | i in later.vms :: later.vms[i].subjectId == Some("a"))
            ==> !CanExecute(later, DeleteSubjectRow("a"))
  {
    var d := OneVm();
    CountsOne(d);
    ReadsOneIdentifier(d, Third(), 100, "a");
    TwoArrive(d, DeleteReadSubject("x"), SubjectExists(Third()));
    var s := Service(d, map[0 := DeleteReadSubject("x"), 1 := SubjectExists(Third())]);
    s := RunsToRow(d, s, 0, "x", "a");
    s := RunsToInsert(d, s, 1, Third(), 100, 2);
    s := Go(d, s, 0, DeleteVm(d, "x"), DeleteSubjectRow("a"));
    assert s.requests[1] == AddVm(Third(), 2);
    InsertNeeds(s.db, Third(), 2);
    s := Go(d, s, 1, InsertVm(s.db, "y", NewInstance(Third(), 2)), ReadVmSubject("y"));
    assert s.db.vms["y"].subjectId == Some("a");
    RetryLoopSucceedsIff(s.db, s.requests[0]);
    RetryLoopSucceedsIff(later, DeleteSubjectRow("a"));
  }

  lemma CountsOne(d: Db)
    requires d == OneVm()
    ensures |set i | i in d.vms && d.vms[i].subjectId == Some("a")| == 1
    ensures Identifiers(d, "a") == {1}
  {
    assert (set i | i in d.vms && d.vms[i].subjectId == Some("a")) == {"x"};
    assert forall v | v in Identifiers(d, "a") :: v == 1;
    assert d.vms["x"].vlanIdentifier.value in Identifiers(d, "a");
  }
}
