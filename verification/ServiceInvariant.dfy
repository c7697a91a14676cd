/** What vms-manager keeps true of its stores from one request to the next, and why each statement
    it issues keeps it. */
module ServiceInvariant {
  import opened Wrappers
  import opened Addressing
  import opened Schema
  import opened Postgres
  import opened RouterTables
  import opened VlanPlan

  predicate IsInstance(r: Vm) { !r.isBase && !r.isTemplate }

  predicate IsSource(r: Vm) { r.isBase || r.isTemplate }

  /** Every row is exactly one of base, template and instance, only base images have a description,
      and every instance depends on a row that exists and is a template or base image. */
  predicate SourcesExist(d: Db) {
    && (forall i | i in d.vms :: !(d.vms[i].isBase && d.vms[i].isTemplate))
    && (forall i | i in d.vms :: d.vms[i].isBase <==> d.vms[i].description.Some?)
    && (forall i | i in d.vms && IsInstance(d.vms[i]) ::
          d.vms[i].dependsOn.Some? && d.vms[i].dependsOn.value in d.vms && IsSource(d.vms[d.vms[i].dependsOn.value]))
  }

  /** A subject flagged configured has all fifteen router entries of its VLAN. */
  predicate ConfiguredArePresent(d: Db, t: Tables, cfg: RouterConfig) {
    forall s | s in d.subjects && d.subjects[s].configured :: Present(t, d.subjects[s].vlan, cfg)
  }

  predicate InventoryGood(d: Db) { Allocated(d) && SourcesExist(d) }

  // ----- Rows

  function TemplateRow(): Vm { Vm(None, false, true, None, None, None) }

  function BaseRow(description: string): Vm { Vm(Some(description), true, false, None, None, None) }

  function InstanceRow(source: VmId, subject: SubjectId, identifier: int): Vm {
    Vm(None, false, false, Some(source), Some(subject), Some(identifier))
  }

  lemma IdentifierInUse(d: Db, i: VmId, subject: SubjectId, identifier: int)
    requires i in d.vms && d.vms[i].subjectId == Some(subject) && d.vms[i].vlanIdentifier == Some(identifier)
    ensures identifier in Identifiers(d, subject)
  {
  }

  /** The insert of a new instance meets every constraint if and only if its identifier is free. */
  lemma InstanceInsertAllowedIff(d: Db, id: VmId, source: VmId, subject: SubjectId, identifier: int)
    requires Allocated(d) && id !in d.vms && subject in d.subjects
    ensures CanInsertVm(d, id, InstanceRow(source, subject, identifier)) <==> identifier !in Identifiers(d, subject)
  {
    var r := InstanceRow(source, subject, identifier);
    if identifier !in Identifiers(d, subject) {
      forall i | i in d.vms ensures !Collide(r, d.vms[i]) {
        if d.vms[i].subjectId == Some(subject) && d.vms[i].vlanIdentifier == Some(identifier) {
          IdentifierInUse(d, i, subject, identifier);
        }
      }
    } else {
      var i :| i in d.vms && d.vms[i].subjectId == Some(subject) && d.vms[i].vlanIdentifier == Some(identifier);
      assert Collide(r, d.vms[i]);
    }
  }

  lemma InstanceInsertKeeps(d: Db, id: VmId, source: VmId, subject: SubjectId, identifier: int)
    requires InventoryGood(d) && CanInsertVm(d, id, InstanceRow(source, subject, identifier))
             && IdentifierInRange(identifier)
    requires source in d.vms && IsSource(d.vms[source])
    ensures InventoryGood(InsertVm(d, id, InstanceRow(source, subject, identifier)))
  {
    VmGuardIsExact(d, id, InstanceRow(source, subject, identifier));
  }

  lemma SourceInsertKeeps(d: Db, id: VmId, r: Vm)
    requires InventoryGood(d) && CanInsertVm(d, id, r) && IsSource(r) && (r.isBase <==> r.description.Some?)
    ensures InventoryGood(InsertVm(d, id, r))
  {
    VmGuardIsExact(d, id, r);
  }

  /** Deleting an instance, or a template nothing depends on, keeps every source in place. */
  lemma VmDeleteKeeps(d: Db, id: VmId)
    requires InventoryGood(d) && id in d.vms
    requires IsInstance(d.vms[id]) || !exists i :: i in d.vms && d.vms[i].dependsOn == Some(id)
    ensures InventoryGood(DeleteVm(d, id))
  {
    VmDeletionKeepsConstraints(d, id);
  }

  lemma SubjectInsertKeeps(d: Db, id: SubjectId, vlan: int)
    requires InventoryGood(d) && CanInsertSubject(d, id, vlan) && VlanInRange(vlan)
    ensures InventoryGood(InsertSubject(d, id, vlan))
  {
    SubjectGuardIsExact(d, id, vlan);
  }

  lemma SubjectDeleteKeeps(d: Db, id: SubjectId)
    requires InventoryGood(d) && CanDeleteSubject(d, id)
    ensures InventoryGood(DeleteSubject(d, id))
  {
  }

  lemma FlagKeeps(d: Db, vlan: int)
    requires InventoryGood(d)
    ensures InventoryGood(SetVlanAsConfigured(d, vlan))
  {
    FlagKeepsConstraints(d, vlan);
  }

  /** Once the only VM of a subject is gone, the subject's row may go. */
  lemma LastVmFreesSubject(d: Db, id: VmId, subject: SubjectId)
    requires id in d.vms && d.vms[id].subjectId == Some(subject) && |VmsOf(d, subject)| == 1
    ensures CanDeleteSubject(DeleteVm(d, id), subject)
  {
    assert id in VmsOf(d, subject);
    SubsetSize({id}, VmsOf(d, subject));
    assert VmsOf(d, subject) == {id};
    forall i | i in DeleteVm(d, id).vms ensures DeleteVm(d, id).vms[i].subjectId != Some(subject) {
      assert i !in VmsOf(d, subject);
    }
  }

  /** The row count behind "is it the last" says exactly that no other VM has the subject. */
  lemma LastMeansNoOther(d: Db, id: VmId, subject: SubjectId)
    requires id in d.vms && d.vms[id].subjectId == Some(subject)
    ensures |VmsOf(d, subject)| == 1 <==> !exists i :: i in d.vms && i != id && d.vms[i].subjectId == Some(subject)
  {
    assert id in VmsOf(d, subject);
    SubsetSize({id}, VmsOf(d, subject));
    if i :| i in d.vms && i != id && d.vms[i].subjectId == Some(subject) {
      assert {id, i} <= VmsOf(d, subject);
      SubsetSize({id, i}, VmsOf(d, subject));
    } else {
      assert VmsOf(d, subject) == {id};
    }
  }

  // ----- Router changes and the configured flags

  /** Whatever is done to one VLAN's configuration, the other configured subjects keep theirs. */
  predicate ConfiguredButPresent(d: Db, t: Tables, cfg: RouterConfig, vlan: int) {
    forall s | s in d.subjects && d.subjects[s].configured && d.subjects[s].vlan != vlan ::
      Present(t, d.subjects[s].vlan, cfg)
  }

  lemma RemoveKeepsOthers(d: Db, t: Tables, cfg: RouterConfig, vlan: int, ok: nat -> bool)
    requires ConfiguredButPresent(d, t, cfg, vlan)
    ensures ConfiguredButPresent(d, RemoveAll(t, VlanFilters(vlan, cfg), ok), cfg, vlan)
  {
    forall s | s in d.subjects && d.subjects[s].configured && d.subjects[s].vlan != vlan
      ensures Present(RemoveAll(t, VlanFilters(vlan, cfg), ok), d.subjects[s].vlan, cfg)
    {
      VlansAreIsolated(t, vlan, d.subjects[s].vlan, cfg, 0, ok);
      PresentIsKept(t, RemoveAll(t, VlanFilters(vlan, cfg), ok), d.subjects[s].vlan, cfg);
    }
  }

  lemma ApplyKeepsOthers(d: Db, t: Tables, cfg: RouterConfig, vlan: int, k: nat)
    requires ConfiguredButPresent(d, t, cfg, vlan) && k <= PLAN_SIZE
    ensures ConfiguredButPresent(d, AddAll(t, VlanEntries(vlan, cfg)[..k]), cfg, vlan)
  {
    var t' := AddAll(t, VlanEntries(vlan, cfg)[..k]);
    forall s | s in d.subjects && d.subjects[s].configured && d.subjects[s].vlan != vlan
      ensures Present(t', d.subjects[s].vlan, cfg)
    {
      VlansAreIsolated(t, vlan, d.subjects[s].vlan, cfg, k, _ => true);
      PresentIsKept(t, t', d.subjects[s].vlan, cfg);
    }
  }

  /** Peers live in a table of their own, which holds none of the fifteen. */
  lemma PeerChangeKeepsConfigured(d: Db, t: Tables, t': Tables, cfg: RouterConfig)
    requires ConfiguredArePresent(d, t, cfg) && forall p: Path :: p.WireguardPeers? || t'[p] == t[p]
    ensures ConfiguredArePresent(d, t', cfg)
  {
    forall s | s in d.subjects && d.subjects[s].configured ensures Present(t', d.subjects[s].vlan, cfg) {
      forall i | 0 <= i < PLAN_SIZE
        ensures VlanEntry(i, d.subjects[s].vlan, cfg).attrs in t'[VlanEntry(i, d.subjects[s].vlan, cfg).path]
      {
        PlanPaths(i, d.subjects[s].vlan, cfg);
      }
    }
  }

  lemma PeerAddKeepsPresent(t: Tables, peer: Entry, vlan: int, cfg: RouterConfig)
    requires Present(t, vlan, cfg) && peer.path.WireguardPeers?
    ensures Present(Add(t, peer), vlan, cfg)
  {
    forall i | 0 <= i < PLAN_SIZE ensures VlanEntry(i, vlan, cfg).attrs in Add(t, peer)[VlanEntry(i, vlan, cfg).path] {
      PlanPaths(i, vlan, cfg);
    }
  }

  // ----- Start-up

  /** Dropping the base images that are no longer on disk keeps every instance's source in place if
      and only if no instance depends on a dropped one; nothing in the start-up checks that. */
  lemma DroppingBasesIsSafeIff(d: Db, names: seq<string>)
    requires InventoryGood(d)
    ensures SourcesExist(d.(vms := d.vms - DroppedBases(d, names)))
       <==> forall i | i in d.vms && IsInstance(d.vms[i]) :: d.vms[i].dependsOn.value !in DroppedBases(d, names)
  {
    var d', gone := d.(vms := d.vms - DroppedBases(d, names)), DroppedBases(d, names);
    if SourcesExist(d') {
      forall i | i in d.vms && IsInstance(d.vms[i]) ensures d.vms[i].dependsOn.value !in gone {
        assert i in d'.vms && d'.vms[i] == d.vms[i];
      }
    }
    if forall i | i in d.vms && IsInstance(d.vms[i]) :: d.vms[i].dependsOn.value !in gone {
      forall i | i in d'.vms && IsInstance(d'.vms[i])
        ensures d'.vms[i].dependsOn.Some? && d'.vms[i].dependsOn.value in d'.vms
                && IsSource(d'.vms[d'.vms[i].dependsOn.value])
      {
        assert d'.vms[i] == d.vms[i];
      }
    }
  }

  /** A database from an earlier run where it goes wrong: the image of an instance was renamed. */
  lemma StartUpCanOrphan()
    ensures exists d, names: seq<string> ::
              InventoryGood(d) && !SourcesExist(d.(vms := d.vms - DroppedBases(d, names)))
  {
    var base, inst := BaseRow("debian"), InstanceRow("b", "s", 1);
    var d := Db(map["s" := Subject(100, false)], map["b" := base, "i" := inst]);
    assert "b" != "i";
    assert InventoryGood(d);
    var names: seq<string> := [];
    assert "b" in DroppedBases(d, names);
    DroppingBasesIsSafeIff(d, names);
    assert d.vms["i"].dependsOn.value in DroppedBases(d, names);
  }
}
