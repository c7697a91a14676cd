/** The database client of vms-manager. A read fails when its row is missing, and any statement may
    fail when the database is not up; a failed statement has no effect. */
module Postgres {
  import opened Wrappers
  import opened Schema

  /** The VM rows of a subject. */
  function VmsOf(d: Db, subject: SubjectId): set<VmId> {
    set i | i in d.vms && d.vms[i].subjectId == Some(subject)
  }

  function Owners(d: Db, vlan: int): set<SubjectId> {
    set s | s in d.subjects && d.subjects[s].vlan == vlan
  }

  lemma VlanHasOwner(d: Db, vlan: int)
    requires vlan in Vlans(d)
    ensures Owners(d, vlan) != {}
  {
    var s :| s in d.subjects && d.subjects[s].vlan == vlan;
    assert s in Owners(d, vlan);
  }

  /** Base images whose description is not among the names still on disk. */
  function DroppedBases(d: Db, names: seq<string>): set<VmId> {
    set i | i in d.vms && d.vms[i].isBase && d.vms[i].description.Some? && d.vms[i].description.value !in names
  }

  class PostgresDatabase {
    var tables: Db
    /** No statement of the current request fails for lack of a connection. */
    var up: bool

    constructor (tables: Db, up: bool)
      ensures this.tables == tables && this.up == up
    {
      this.tables := tables;
      this.up := up;
    }

    /** Whether the next statement finds the connection gone. */
    method ConnectionLost() returns (lost: bool)
      ensures up ==> !lost
    {
      lost := *;
      if up {
        lost := false;
      }
    }

    method VmExistsById(id: VmId) returns (err: bool, exists_: bool)
      ensures up ==> !err
      ensures !err ==> (exists_ <==> id in tables.vms)
    {
      err := ConnectionLost();
      exists_ := id in tables.vms;
    }

    method VmExistsByDescription(description: string) returns (err: bool, exists_: bool)
      ensures up ==> !err
      ensures !err ==> (exists_ <==> exists i :: i in tables.vms && tables.vms[i].description == Some(description))
    {
      err := ConnectionLost();
      exists_ := exists i :: i in tables.vms && tables.vms[i].description == Some(description);
    }

    method VmHasInstancesThatDependOnIt(id: VmId) returns (err: bool, has: bool)
      ensures up ==> !err
      ensures !err ==> (has <==> exists i :: i in tables.vms && tables.vms[i].dependsOn == Some(id))
    {
      err := ConnectionLost();
      has := exists i :: i in tables.vms && tables.vms[i].dependsOn == Some(id);
    }

    method VmIsTemplate(id: VmId) returns (err: bool, yes: bool)
      ensures up && id in tables.vms ==> !err
      ensures !err ==> id in tables.vms && yes == tables.vms[id].isTemplate
    {
      err := ConnectionLost();
      if id !in tables.vms { return true, false; }
      yes := tables.vms[id].isTemplate;
    }

    method VmIsBase(id: VmId) returns (err: bool, yes: bool)
      ensures up && id in tables.vms ==> !err
      ensures !err ==> id in tables.vms && yes == tables.vms[id].isBase
    {
      err := ConnectionLost();
      if id !in tables.vms { return true, false; }
      yes := tables.vms[id].isBase;
    }

    method GetDescriptionById(id: VmId) returns (err: bool, description: string)
      ensures up && id in tables.vms && tables.vms[id].description.Some? ==> !err
      ensures !err ==> id in tables.vms && tables.vms[id].description == Some(description)
    {
      err := ConnectionLost();
      if id !in tables.vms || tables.vms[id].description.None? { return true, ""; }
      description := tables.vms[id].description.value;
    }

    method SubjectExistsById(id: SubjectId) returns (err: bool, exists_: bool)
      ensures up ==> !err
      ensures !err ==> (exists_ <==> id in tables.subjects)
    {
      err := ConnectionLost();
      exists_ := id in tables.subjects;
    }

    method GetSubjectVlan(id: SubjectId) returns (err: bool, vlan: int)
      ensures up && id in tables.subjects ==> !err
      ensures !err ==> id in tables.subjects && vlan == tables.subjects[id].vlan
    {
      err := ConnectionLost();
      if id !in tables.subjects { return true, 0; }
      vlan := tables.subjects[id].vlan;
    }

    /** Every subject's VLAN, row by row in whatever order the rows come. When the connection is lost
        on the way the rows just end, without an error. */
    method GetAllVlans() returns (err: bool, vlans: seq<int>)
      requires Constraints(tables)
      ensures up ==> !err && Lists(vlans, Vlans(tables))
      ensures !err ==> ListsPart(vlans, Vlans(tables))
    {
      err := ConnectionLost();
      vlans := [];
      var cut := false;
      var rows := tables.subjects.Keys;
      while rows != {} && !cut
        invariant rows <= tables.subjects.Keys && (up ==> !cut)
        invariant NoDuplicates(vlans)
        invariant forall v ::
                    v in vlans <==> exists s :: s in tables.subjects && s !in rows && tables.subjects[s].vlan == v
        decreases |rows|
      {
        var s :| s in rows;
        rows := rows - {s};
        assert tables.subjects[s].vlan !in vlans;
        vlans := vlans + [tables.subjects[s].vlan];
        cut := ConnectionLost();
      }
    }

    /** The subject that owns a VLAN; under the constraints there is at most one. */
    method SubjectOfVlan(vlan: int) returns (err: bool, subject: SubjectId)
      ensures up && vlan in Vlans(tables) ==> !err
      ensures !err ==> subject in tables.subjects && tables.subjects[subject].vlan == vlan
    {
      err := ConnectionLost();
      var owners := Owners(tables, vlan);
      if vlan in Vlans(tables) {
        VlanHasOwner(tables, vlan);
      }
      if owners == {} { return true, ""; }
      subject :| subject in owners;
    }

    /** The identifiers in use in a VLAN, read through the VLAN's subject; the rows may end early. */
    method GetVmsVlanIdentifiers(vlan: int) returns (err: bool, identifiers: seq<int>, ghost subject: SubjectId)
      requires Constraints(tables)
      ensures up && vlan in Vlans(tables) ==> !err && Lists(identifiers, Identifiers(tables, subject))
      ensures !err ==> subject in tables.subjects && tables.subjects[subject].vlan == vlan
      ensures !err ==> ListsPart(identifiers, Identifiers(tables, subject))
    {
      var owner: SubjectId;
      err, owner := SubjectOfVlan(vlan);
      subject := owner;
      identifiers := [];
      if err { return; }
      err := ConnectionLost();
      identifiers := ReadIdentifiers(owner);
    }

    method ReadIdentifiers(owner: SubjectId) returns (identifiers: seq<int>)
      requires Constraints(tables)
      ensures ListsPart(identifiers, Identifiers(tables, owner))
      ensures up ==> Lists(identifiers, Identifiers(tables, owner))
    {
      identifiers := [];
      var cut := false;
      var rows := VmsOf(tables, owner);
      while rows != {} && !cut
        invariant rows <= VmsOf(tables, owner) && (up ==> !cut)
        invariant ReadSoFar(tables, owner, identifiers, rows)
        decreases |rows|
      {
        var i :| i in rows;
        OneMoreRow(tables, owner, identifiers, rows, i);
        rows := rows - {i};
        identifiers := identifiers + [tables.vms[i].vlanIdentifier.value];
        cut := ConnectionLost();
      }
    }

    method GetSubjectIdByVmId(id: VmId) returns (err: bool, subject: SubjectId)
      ensures up && id in tables.vms && tables.vms[id].subjectId.Some? ==> !err
      ensures !err ==> id in tables.vms && tables.vms[id].subjectId == Some(subject)
    {
      err := ConnectionLost();
      if id !in tables.vms || tables.vms[id].subjectId.None? { return true, ""; }
      subject := tables.vms[id].subjectId.value;
    }

    method GetVlanByVmId(id: VmId) returns (err: bool, vlan: int)
      requires Constraints(tables)
      ensures up && id in tables.vms && tables.vms[id].subjectId.Some? ==> !err
      ensures !err ==> id in tables.vms && tables.vms[id].subjectId.Some?
                       && tables.subjects[tables.vms[id].subjectId.value].vlan == vlan
    {
      var subject: SubjectId;
      vlan := 0;
      err, subject := GetSubjectIdByVmId(id);
      if err { return; }
      err, vlan := GetSubjectVlan(subject);
    }

    method GetVmVlanIdentifierByVmId(id: VmId) returns (err: bool, identifier: int)
      ensures up && id in tables.vms && tables.vms[id].vlanIdentifier.Some? ==> !err
      ensures !err ==> id in tables.vms && tables.vms[id].vlanIdentifier == Some(identifier)
    {
      err := ConnectionLost();
      if id !in tables.vms || tables.vms[id].vlanIdentifier.None? { return true, 0; }
      identifier := tables.vms[id].vlanIdentifier.value;
    }

    method VmIsLastInstanceInSubject(id: VmId) returns (err: bool, isLast: bool)
      ensures up && id in tables.vms && tables.vms[id].subjectId.Some? ==> !err
      ensures !err ==> id in tables.vms && tables.vms[id].subjectId.Some?
                       && (isLast <==> |VmsOf(tables, tables.vms[id].subjectId.value)| == 1)
    {
      var subject: SubjectId;
      isLast := false;
      err, subject := GetSubjectIdByVmId(id);
      if err { return; }
      err := ConnectionLost();
      isLast := |VmsOf(tables, subject)| == 1;
    }

    /** The ids of all VMs but base images; the rows may end early. */
    method GetAllVmIds() returns (err: bool, ids: seq<VmId>)
      ensures up ==> !err && forall i | i in tables.vms && !tables.vms[i].isBase :: i in ids
      ensures !err ==> forall i | i in ids :: i in tables.vms && !tables.vms[i].isBase
    {
      err := ConnectionLost();
      ids := [];
      var cut := false;
      var rows := set i | i in tables.vms && !tables.vms[i].isBase;
      while rows != {} && !cut
        invariant up ==> !cut
        invariant forall i :: i in ids || i in rows <==> i in tables.vms && !tables.vms[i].isBase
        decreases |rows|
      {
        var i :| i in rows;
        rows := rows - {i};
        ids := ids + [i];
        cut := ConnectionLost();
      }
    }

    method IsVlanConfigured(vlan: int) returns (err: bool, configured: bool)
      requires Constraints(tables)
      ensures up && vlan in Vlans(tables) ==> !err
      ensures !err ==> vlan in Vlans(tables)
      ensures !err
              ==> forall s | s in tables.subjects && tables.subjects[s].vlan == vlan ::
                    tables.subjects[s].configured == configured
    {
      var subject: SubjectId;
      err, subject := SubjectOfVlan(vlan);
      configured := !err && tables.subjects[subject].configured;
    }

    method SetVlanAsConfigured(vlan: int) returns (err: bool)
      modifies this`tables
      ensures old(up) ==> !err
      ensures tables == if err then old(tables) else Schema.SetVlanAsConfigured(old(tables), vlan)
    {
      err := ConnectionLost();
      if !err {
        tables := Schema.SetVlanAsConfigured(tables, vlan);
      }
    }

    // ----- The statements of the retry loops; `down` says whether this attempt finds the database down

    method AddVm(id: VmId, vm: Vm, down: bool) returns (err: bool)
      modifies this`tables
      ensures err <==> down || !CanInsertVm(old(tables), id, vm)
      ensures tables == if err then old(tables) else InsertVm(old(tables), id, vm)
    {
      err := down || !CanInsertVm(tables, id, vm);
      if !err {
        tables := InsertVm(tables, id, vm);
      }
    }

    method AddSubject(id: SubjectId, vlan: int, down: bool) returns (err: bool)
      modifies this`tables
      ensures err <==> down || !CanInsertSubject(old(tables), id, vlan)
      ensures tables == if err then old(tables) else InsertSubject(old(tables), id, vlan)
    {
      err := down || !CanInsertSubject(tables, id, vlan);
      if !err {
        tables := InsertSubject(tables, id, vlan);
      }
    }

    method DeleteVm(id: VmId, down: bool) returns (err: bool)
      modifies this`tables
      ensures err <==> down
      ensures tables == if err then old(tables) else Schema.DeleteVm(old(tables), id)
    {
      err := down;
      if !err {
        tables := Schema.DeleteVm(tables, id);
      }
    }

    method DeleteSubject(id: SubjectId, down: bool) returns (err: bool)
      modifies this`tables
      ensures err <==> down || !CanDeleteSubject(old(tables), id)
      ensures tables == if err then old(tables) else Schema.DeleteSubject(old(tables), id)
    {
      err := down || !CanDeleteSubject(tables, id);
      if !err {
        tables := Schema.DeleteSubject(tables, id);
      }
    }

    /** Every base image not in the list is deleted, one statement for each description read; a
        statement that fails ends the scan with an error, rows that end early end it without one. */
    method DeleteBaseImagesNotInList(names: seq<string>) returns (err: bool)
      modifies this`tables
      ensures DropsOnly(old(tables), tables, DroppedBases(old(tables), names))
      ensures old(up) ==> !err && tables.vms.Keys !! DroppedBases(old(tables), names)
    {
      ghost var before, gone := tables, DroppedBases(tables, names);
      err := ConnectionLost();
      if err { return; }
      var descriptions := set i | i in tables.vms && tables.vms[i].isBase && tables.vms[i].description.Some?
                          :: tables.vms[i].description.value;
      var cut := false;
      while descriptions != {} && !cut
        invariant up == old(up) && (up ==> !cut)
        invariant DropsOnly(before, tables, gone)
        invariant forall i | i in gone && i in tables.vms :: tables.vms[i].description.value in descriptions
        decreases |descriptions|
      {
        var description :| description in descriptions;
        descriptions := descriptions - {description};
        if description !in names {
          err := ConnectionLost();
          if err { return; }
          tables := tables.(vms := tables.vms - (set i | i in tables.vms && tables.vms[i].isBase
                                                         && tables.vms[i].description == Some(description)));
        }
        cut := ConnectionLost();
      }
    }
  }

  /** The identifiers of all rows of the subject but those to come, once each. */
  predicate ReadSoFar(d: Db, owner: SubjectId, identifiers: seq<int>, rows: set<VmId>) {
    && NoDuplicates(identifiers)
    && (forall v | v in identifiers ::
          exists i :: i in VmsOf(d, owner) && i !in rows && d.vms[i].vlanIdentifier == Some(v))
    && forall i | i in VmsOf(d, owner) && i !in rows ::
         d.vms[i].vlanIdentifier.Some? && d.vms[i].vlanIdentifier.value in identifiers
  }

  lemma OneMoreRow(d: Db, owner: SubjectId, identifiers: seq<int>, rows: set<VmId>, i: VmId)
    requires Constraints(d) && rows <= VmsOf(d, owner) && i in rows && ReadSoFar(d, owner, identifiers, rows)
    ensures d.vms[i].vlanIdentifier.Some?
    ensures ReadSoFar(d, owner, identifiers + [d.vms[i].vlanIdentifier.value], rows - {i})
  {
    assert RowChecks(d.vms[i]);
    var v := d.vms[i].vlanIdentifier.value;
    if v in identifiers {
      var j :| j in VmsOf(d, owner) && j !in rows && d.vms[j].vlanIdentifier == Some(v);
      assert Collide(d.vms[i], d.vms[j]);
    }
    var more := identifiers + [v];
    forall w | w in more
      ensures exists j :: j in VmsOf(d, owner) && j !in rows - {i} && d.vms[j].vlanIdentifier == Some(w)
    {
      if w in identifiers {
        var j :| j in VmsOf(d, owner) && j !in rows && d.vms[j].vlanIdentifier == Some(w);
        assert j !in rows - {i};
      } else {
        assert w == v && i !in rows - {i};
      }
    }
    assert v in more && forall w | w in identifiers :: w in more;
  }

  /** `d'` is `d` without some rows of `gone`. */
  predicate DropsOnly(d: Db, d': Db, gone: set<VmId>) {
    && d'.subjects == d.subjects && d'.vms.Keys <= d.vms.Keys
    && (forall i | i in d'.vms :: d'.vms[i] == d.vms[i])
    && (forall i | i in d.vms && i !in d'.vms :: i in gone)
  }
}
