/** The two Postgres tables of vms-manager as values: their constraints, their statements as guarded
    updates, and the first-free search the allocators run over a snapshot. */
module Schema {
  import opened Wrappers
  import opened Addressing

  type SubjectId = string
  type VmId = string

  datatype Subject = Subject(vlan: int, configured: bool)

  datatype Vm = Vm(
    description: Option<string>,
    isBase: bool,
    isTemplate: bool,
    dependsOn: Option<VmId>,
    subjectId: Option<SubjectId>,
    vlanIdentifier: Option<int>)

  /** Primary keys are the keys of the maps. */
  datatype Db = Db(subjects: map<SubjectId, Subject>, vms: map<VmId, Vm>)

  // ----- Constraints

  /** The four CHECK constraints of a row of `vms`. */
  predicate RowChecks(r: Vm) {
    && !(r.isBase && r.isTemplate)
    && !(r.isBase && r.dependsOn.Some?) && !(r.isTemplate && r.dependsOn.Some?)
    && !(r.isBase && r.subjectId.Some?) && !(r.isTemplate && r.subjectId.Some?)
    && !(!r.isBase && !r.isTemplate && r.subjectId.None?)
    && (r.subjectId.None? <==> r.vlanIdentifier.None?)
  }

  /** Two rows that no UNIQUE constraint allows side by side; NULLs never collide. */
  predicate Collide(r: Vm, q: Vm) {
    || (r.description.Some? && r.description == q.description)
    || (r.subjectId.Some? && r.vlanIdentifier.Some?
        && r.subjectId == q.subjectId && r.vlanIdentifier == q.vlanIdentifier)
  }

  predicate Constraints(d: Db) {
    && (forall s, t | s in d.subjects && t in d.subjects && s != t :: d.subjects[s].vlan != d.subjects[t].vlan)
    && (forall i | i in d.vms :: RowChecks(d.vms[i]))
    && (forall i | i in d.vms && d.vms[i].subjectId.Some? :: d.vms[i].subjectId.value in d.subjects)
    && (forall i, j | i in d.vms && j in d.vms && i != j :: !Collide(d.vms[i], d.vms[j]))
  }

  // ----- Statements

  predicate CanInsertSubject(d: Db, id: SubjectId, vlan: int) {
    id !in d.subjects && forall s | s in d.subjects :: d.subjects[s].vlan != vlan
  }

  function InsertSubject(d: Db, id: SubjectId, vlan: int): Db {
    d.(subjects := d.subjects[id := Subject(vlan, false)])
  }

  predicate CanInsertVm(d: Db, id: VmId, r: Vm) {
    && id !in d.vms && RowChecks(r)
    && (r.subjectId.Some? ==> r.subjectId.value in d.subjects)
    && forall i | i in d.vms :: !Collide(r, d.vms[i])
  }

  function InsertVm(d: Db, id: VmId, r: Vm): Db { d.(vms := d.vms[id := r]) }

  function DeleteVm(d: Db, id: VmId): Db { d.(vms := d.vms - {id}) }

  /** ON DELETE RESTRICT. */
  predicate CanDeleteSubject(d: Db, id: SubjectId) {
    forall i | i in d.vms :: d.vms[i].subjectId != Some(id)
  }

  function DeleteSubject(d: Db, id: SubjectId): Db { d.(subjects := d.subjects - {id}) }

  function SetVlanAsConfigured(d: Db, vlan: int): Db {
    d.(subjects := map s | s in d.subjects ::
         if d.subjects[s].vlan == vlan then d.subjects[s].(configured := true) else d.subjects[s])
  }

  lemma CollideSymmetric(r: Vm, q: Vm)
    ensures Collide(r, q) <==> Collide(q, r)
  {
  }

  /** The guards are exactly what the constraints demand of the table after the statement. */
  lemma SubjectGuardIsExact(d: Db, id: SubjectId, vlan: int)
    requires Constraints(d)
    ensures CanInsertSubject(d, id, vlan) <==> id !in d.subjects && Constraints(InsertSubject(d, id, vlan))
  {
    var d' := InsertSubject(d, id, vlan);
    assert d'.vms == d.vms && forall s | s in d.subjects :: s in d'.subjects;
    if id !in d.subjects && Constraints(d') {
      forall s | s in d.subjects ensures d.subjects[s].vlan != vlan {
        assert d'.subjects[s] == d.subjects[s] && d'.subjects[id].vlan == vlan;
      }
    }
  }

  lemma VmGuardIsExact(d: Db, id: VmId, r: Vm)
    requires Constraints(d)
    ensures CanInsertVm(d, id, r) <==> id !in d.vms && Constraints(InsertVm(d, id, r))
  {
    var d' := InsertVm(d, id, r);
    if id !in d.vms && Constraints(d') {
      assert d'.vms[id] == r;
      forall i | i in d.vms ensures !Collide(r, d.vms[i]) {
        assert d'.vms[i] == d.vms[i];
      }
    }
    if CanInsertVm(d, id, r) {
      forall i, j | i in d'.vms && j in d'.vms && i != j ensures !Collide(d'.vms[i], d'.vms[j]) {
        CollideSymmetric(d'.vms[i], d'.vms[j]);
      }
    }
  }

  lemma VmDeletionKeepsConstraints(d: Db, id: VmId)
    requires Constraints(d)
    ensures Constraints(DeleteVm(d, id))
  {
    var d' := DeleteVm(d, id);
    assert forall i | i in d'.vms :: i in d.vms && d'.vms[i] == d.vms[i];
  }

  lemma SubjectDeletionGuardIsExact(d: Db, id: SubjectId)
    requires Constraints(d)
    ensures id in d.subjects ==> (CanDeleteSubject(d, id) <==> Constraints(DeleteSubject(d, id)))
  {
    if i :| i in d.vms && d.vms[i].subjectId == Some(id) {
      assert d.vms[i].subjectId.value !in DeleteSubject(d, id).subjects;
    }
  }

  lemma FlagKeepsConstraints(d: Db, vlan: int)
    requires Constraints(d)
    ensures Constraints(SetVlanAsConfigured(d, vlan))
  {
  }

  // ----- What the allocators read

  function Vlans(d: Db): set<int> { set s | s in d.subjects :: d.subjects[s].vlan }

  function Identifiers(d: Db, subject: SubjectId): set<int> {
    set i | i in d.vms && d.vms[i].subjectId == Some(subject) && d.vms[i].vlanIdentifier.Some? ::
      d.vms[i].vlanIdentifier.value
  }

  predicate NoDuplicates(xs: seq<int>) { forall i, j | 0 <= i < j < |xs| :: xs[i] != xs[j] }

  /** `xs` is what a one-column query returns: the values of the column, one per row. Under the
      table's UNIQUE constraint, that is each value of the set once, in any order. */
  predicate Lists(xs: seq<int>, values: set<int>) {
    NoDuplicates(xs) && (forall x | x in xs :: x in values) && forall v | v in values :: v in xs
  }

  /** What such a query returns when the connection is lost on the way and nobody asks the rows for
      their error: some of the values. */
  predicate ListsPart(xs: seq<int>, values: set<int>) {
    NoDuplicates(xs) && forall x | x in xs :: x in values
  }

  lemma ListedSet(xs: seq<int>, values: set<int>)
    requires Lists(xs, values)
    ensures (set v | v in xs) == values
  {
    var listed := set v | v in xs;
    assert listed <= values by {
      forall v | v in listed ensures v in values { assert v in xs; }
    }
    assert values <= listed by {
      forall v | v in values ensures v in listed { assert v in xs; }
    }
  }

  // ----- First free

  lemma NoneBelow(taken: set<int>, first: int, r: int)
    requires first in taken && forall x | first + 1 <= x < r :: x in taken - {first}
    ensures forall x | first <= x < r :: x in taken
  {
    forall x | first <= x < r ensures x in taken {
      if x != first {
        assert x in taken - {first};
      }
    }
  }

  /** The smallest number from `first` on outside the set, which is at most the set's size away. */
  function FirstFree(taken: set<int>, first: int): (r: int)
    ensures r !in taken
    ensures forall x | first <= x < r :: x in taken
    ensures first <= r <= first + |taken|
    decreases |taken|
  {
    if first !in taken then first
    else
      var r := FirstFree(taken - {first}, first + 1);
      NoneBelow(taken, first, r);
      r
  }

  ghost function Interval(lo: int, n: nat): (s: set<int>)
    ensures forall x :: x in s <==> lo <= x < lo + n
    ensures |s| == n
  {
    if n == 0 then {} else Interval(lo, n - 1) + {lo + n - 1}
  }

  lemma {:induction false} SubsetSize<T>(a: set<T>, b: set<T>)
    requires a <= b
    ensures |a| <= |b|
    ensures |a| == |b| ==> a == b
  {
    if a != {} {
      var x :| x in a;
      SubsetSize(a - {x}, b - {x});
    }
  }

  lemma {:induction false} ListSize(xs: seq<int>, values: set<int>)
    requires Lists(xs, values)
    ensures |xs| == |values|
  {
    if xs == [] {
      assert forall v :: v !in values;
      assert values == {};
    } else {
      assert xs[0] in xs;
      forall v | v in values - {xs[0]} ensures v in xs[1..] {
        assert v in xs;
      }
      assert forall x | x in xs[1..] :: exists k | 1 <= k < |xs| :: xs[k] == x;
      ListSize(xs[1..], values - {xs[0]});
    }
  }

  /** Pigeonhole: if every taken number lies among `n` from `first` on and the list of them does not
      have length `n`, the first free number lies among them too. */
  lemma FirstFreeInRange(xs: seq<int>, values: set<int>, first: int, n: nat)
    requires Lists(xs, values) && |xs| != n
    requires forall v | v in values :: first <= v < first + n
    ensures first <= FirstFree(values, first) < first + n
  {
    ListSize(xs, values);
    SubsetSize(values, Interval(first, n));
  }

  /** Searching only a part of the taken numbers finds the first free one if and only if what it finds
      is free; otherwise it stops short of it, at a taken one. */
  lemma CutReadFindsFreeIff(part: set<int>, all: set<int>, first: int)
    requires part <= all
    ensures FirstFree(part, first) == FirstFree(all, first) <==> FirstFree(part, first) !in all
    ensures FirstFree(part, first) <= FirstFree(all, first)
  {
    var p, a := FirstFree(part, first), FirstFree(all, first);
    assert forall x | first <= x < p :: x in part;
    assert first <= a && a !in part && first <= p;
  }

  /** The search loop of both allocators. */
  method FirstFreeFrom(xs: seq<int>, first: int) returns (r: int)
    ensures r !in xs && forall x | first <= x < r :: x in xs
    ensures first <= r <= first + |xs|
    ensures r == FirstFree((set x | x in xs), first)
  {
    ghost var all := set x | x in xs;
    ghost var left := all;
    r := first;
    while r in xs
      invariant first <= r && FirstFree(left, r) == FirstFree(all, first)
      invariant forall x :: x in left <==> x in all && !(first <= x < r)
      decreases |left|
    {
      left := left - {r};
      r := r + 1;
    }
    forall x | first <= x < r ensures x in xs {
      assert x !in left && x in all;
    }
    SetOfSeq(xs);
  }

  lemma {:induction false} SetOfSeq(xs: seq<int>)
    ensures |(set x | x in xs)| <= |xs|
  {
    if xs != [] {
      SetOfSeq(xs[1..]);
      assert (set x | x in xs) == {xs[0]} + (set x | x in xs[1..]);
    }
  }

  // ----- The allocation invariant

  predicate InRange(d: Db) {
    && (forall s | s in d.subjects :: VlanInRange(d.subjects[s].vlan))
    && (forall i | i in d.vms && d.vms[i].vlanIdentifier.Some? :: IdentifierInRange(d.vms[i].vlanIdentifier.value))
  }

  /** Constraints and ranges, as the allocation states them: VLANs distinct and in 100..354,
      identifiers distinct within a subject and in 1..253. */
  predicate Allocated(d: Db) { Constraints(d) && InRange(d) }

  /** The same in plain numbers. */
  predicate AllocatedInNumbers(d: Db) {
    && (forall s, t | s in d.subjects && t in d.subjects && s != t :: d.subjects[s].vlan != d.subjects[t].vlan)
    && (forall s | s in d.subjects :: 100 <= d.subjects[s].vlan <= 354)
    && (forall i, j | i in d.vms && j in d.vms && i != j
                      && d.vms[i].subjectId.Some? && d.vms[i].subjectId == d.vms[j].subjectId ::
          d.vms[i].vlanIdentifier != d.vms[j].vlanIdentifier)
    && (forall i | i in d.vms && d.vms[i].subjectId.Some? ::
          d.vms[i].vlanIdentifier.Some? && 1 <= d.vms[i].vlanIdentifier.value <= 253)
  }

  lemma AllocatedMeans(d: Db)
    requires Allocated(d)
    ensures AllocatedInNumbers(d)
  {
    forall i | i in d.vms ensures RowChecks(d.vms[i]) {}
  }

  lemma VlansFit(d: Db)
    requires Allocated(d)
    ensures |Vlans(d)| <= MAX_VLANS
  {
    SubsetSize(Vlans(d), Interval(FIRST_VLAN, MAX_VLANS));
  }

  /** Both allocators stay in range on any snapshot of an allocated database, read to the end or not. */
  lemma AllocationsInRange(d: Db, vlans: seq<int>, subject: SubjectId, identifiers: seq<int>)
    requires Allocated(d) && ListsPart(vlans, Vlans(d)) && ListsPart(identifiers, Identifiers(d, subject))
    ensures |vlans| != MAX_VLANS ==> VlanInRange(FirstFree((set v | v in vlans), FIRST_VLAN))
    ensures |identifiers| != MAX_VMS_PER_VLAN ==> IdentifierInRange(FirstFree((set v | v in identifiers), 1))
    ensures |vlans| <= MAX_VLANS && |identifiers| <= MAX_VMS_PER_VLAN
  {
    var vs, ids := set v | v in vlans, set v | v in identifiers;
    if |vlans| != MAX_VLANS {
      FirstFreeInRange(vlans, vs, FIRST_VLAN, MAX_VLANS);
    }
    if |identifiers| != MAX_VMS_PER_VLAN {
      FirstFreeInRange(identifiers, ids, 1, MAX_VMS_PER_VLAN);
    }
    ListSize(vlans, vs);
    ListSize(identifiers, ids);
    SubsetSize(vs, Interval(FIRST_VLAN, MAX_VLANS));
    SubsetSize(ids, Interval(1, MAX_VMS_PER_VLAN));
  }
}
