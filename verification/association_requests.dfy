/** Association requests as they write storage, with rollback, and the association
    updates of a data write (internal/backend/path_associations.go, path_data.go). */
module AssociationRequests {
  import opened Naming
  import opened Records
  import opened OutboxStorage
  import opened AssociationStorage
  import opened Reservations
  import opened WriteEffects

  datatype RequestResult = Accepted | NameTaken | NotEnqueued | StorageError

  // ------------------------------------------------------- create, update, enable

  /** rollbackAssociationPersistence */
  function RollbackWrites(s: Store, a: Association, previous: Option<Association>): seq<Write> {
    match previous
    case Some(p) => PutAssociationWrites(s, p)
    case None => DeleteAssociationWrites(a)
  }

  function StoreWrites(s: Store, a: Association, previous: Option<Association>, enqueued: bool): Outcome {
    var puts := PutAssociationWrites(s, a);
    Then(Outcome(puts, true),
      if enqueued then Outcome([], true) else Outcome(RollbackWrites(Apply(s, puts), a, previous), true))
  }

  /** putAssociation, then the rollback if the operations could not be queued. The
      enqueue itself only touches the outbox and its intents. */
  method StoreOrRollBack(st: Storage, a: Association, previous: Option<Association>, enqueued: bool) returns (ok: bool)
    modifies st
    ensures Ran(old(st.data), old(st.budget), StoreWrites(old(st.data), a, previous, enqueued), st.data, st.budget, ok)
  {
    ghost var s, b := st.data, st.budget;
    ok := PutAssociationRecord(st, a);
    ghost var s1, b1, ok1 := st.data, st.budget, ok;
    ghost var rest := if enqueued then Outcome([], true)
      else Outcome(RollbackWrites(Apply(s, PutAssociationWrites(s, a)), a, previous), true);
    if ok && !enqueued {
      match previous {
        case Some(p) => ok := PutAssociationRecord(st, p);
        case None => ok := DeleteAssociationRecord(st, a);
      }
    }
    RanThen(s, b, Outcome(PutAssociationWrites(s, a), true), s1, b1, ok1, rest, st.data, st.budget, ok);
  }

  /** associationWritePlan for a record that passed the other checks. */
  method WritePlan(
    st: Storage, record: Association, objectIds: seq<string>, enqueued: bool) returns (result: RequestResult)
    requires AssociationsIndexed(st.data) && UniqueIds(st.data.associations)
    modifies st
    ensures result == NameTaken <==> !(WithConcreteNames(record, objectIds).Ok? &&
                                      Free(old(st.data).associations, WithConcreteNames(record, objectIds).value))
    ensures result == NameTaken ==> st.data == old(st.data)
    ensures result != NameTaken ==>
      var a := WithConcreteNames(record, objectIds).value;
      var key := (a.path, a.id);
      var previous := if key in old(st.data).associations then Some(old(st.data).associations[key]) else None;
      Ran(old(st.data), old(st.budget), StoreWrites(old(st.data), a, previous, enqueued), st.data, st.budget,
        result != StorageError)
    ensures result == Accepted ==> enqueued
  {
    var named := WithConcreteNames(record, objectIds);
    if named.Err? {
      return NameTaken;
    }
    var a := named.value;
    var free := ValidateReservations(st, a);
    if !free {
      return NameTaken;
    }
    var previous := if (a.path, a.id) in st.data.associations then Some(st.data.associations[(a.path, a.id)]) else None;
    var ok := StoreOrRollBack(st, a, previous, enqueued);
    result := if !ok then StorageError else if enqueued then Accepted else NotEnqueued;
  }

  lemma {:induction false} IndexWritesKeepAssociations(s: Store, ws: seq<Write>)
    requires forall w :: w in ws ==> w.PutIndex? || w.DeleteIndex?
    ensures Apply(s, ws).associations == s.associations
    decreases |ws|
  {
    if ws != [] {
      assert ws[0] in ws && Step(s, ws[0]).associations == s.associations;
      IndexWritesKeepAssociations(Step(s, ws[0]), ws[1..]);
    }
  }

  /** A complete putAssociation. */
  lemma PutLeads(s: Store, a: Association) returns (z: Store)
    requires AssociationsIndexed(s) && UniqueIds(s.associations) && OwnsId(s, a) && a.path != ""
    ensures z == Apply(s, PutAssociationWrites(s, a)) && AssociationsIndexed(z) && UniqueIds(z.associations)
    ensures z == s.(associations := s.associations[(a.path, a.id) := a], index := z.index)
  {
    var puts := PutAssociationWrites(s, a);
    PutAssociationEffect(s, a);
    HarmlessPrefix(s, puts, |puts|);
    assert puts[..|puts|] == puts;
    z := Apply(s, puts);
  }

  /** A complete deleteAssociation. */
  lemma DeleteLeads(s: Store, a: Association) returns (z: Store)
    requires AssociationsIndexed(s) && UniqueIds(s.associations) && (a.path, a.id) in s.associations
    ensures z == Apply(s, DeleteAssociationWrites(a)) && AssociationsIndexed(z)
    ensures z == s.(associations := s.associations - {(a.path, a.id)}, index := z.index)
  {
    var deletes := DeleteAssociationWrites(a);
    DeleteAssociationEffect(s, a);
    HarmlessPrefix(s, deletes, |deletes|);
    assert deletes[..|deletes|] == deletes;
    z := Apply(s, deletes);
  }

  /** Whatever happens after the record is stored, a failed request that could run its
      rollback leaves the associations exactly as they were. */
  lemma RollbackRestores(s: Store, a: Association, previous: Option<Association>) returns (z: Store)
    requires AssociationsIndexed(s) && UniqueIds(s.associations) && OwnsId(s, a) && a.path != ""
    requires previous == if (a.path, a.id) in s.associations then Some(s.associations[(a.path, a.id)]) else None
    ensures z == Apply(s, StoreWrites(s, a, previous, false).writes)
    ensures z.associations == s.associations && AssociationsIndexed(z)
  {
    var mid := PutLeads(s, a);
    if previous.Some? {
      PreviousIsStored(s, a, mid);
      z := PutLeads(mid, previous.value);
    } else {
      z := DeleteLeads(mid, a);
    }
    ApplyConcat(s, PutAssociationWrites(s, a), RollbackWrites(mid, a, previous));
  }

  lemma PreviousIsStored(s: Store, a: Association, mid: Store)
    requires AssociationsIndexed(s) && (a.path, a.id) in s.associations && UniqueIds(mid.associations)
    requires mid.associations == s.associations[(a.path, a.id) := a]
    ensures var p := s.associations[(a.path, a.id)];
      p.path == a.path && p.id == a.id && a.path != "" && OwnsId(mid, p) &&
      mid.associations[(p.path, p.id) := p] == s.associations
  {
    assert AssociationIndexed(s, (a.path, a.id));
  }

  // --------------------------------------------------------- updates of a data write

  function UpdateWrites(s: Store, updates: seq<Association>): seq<Write>
    decreases |updates|
  {
    if updates == [] then []
    else
      var done := UpdateWrites(s, updates[..|updates| - 1]);
      done + PutAssociationWrites(Apply(s, done), updates[|updates| - 1])
  }

  lemma {:induction false} UpdateWritesPrefixOf(s: Store, updates: seq<Association>, i: nat)
    requires i <= |updates|
    ensures UpdateWrites(s, updates[..i]) <= UpdateWrites(s, updates)
    decreases |updates|
  {
    if i == |updates| {
      assert updates[..i] == updates;
    } else {
      UpdateWritesPrefixOf(s, updates[..|updates| - 1], i);
      assert updates[..|updates| - 1][..i] == updates[..i];
    }
  }

  lemma StoredOneMore(
    s: Store, b: nat, updates: seq<Association>, i: nat, mid: Store, midBudget: nat, after: Store, left: nat, ok: bool)
    requires i < |updates|
    requires Ran(s, b, Outcome(UpdateWrites(s, updates[..i]), true), mid, midBudget, true)
    requires Ran(mid, midBudget, Outcome(PutAssociationWrites(mid, updates[i]), true), after, left, ok)
    ensures Ran(s, b, Outcome(UpdateWrites(s, if ok then updates[..i + 1] else updates), true), after, left, ok)
  {
    var done := UpdateWrites(s, updates[..i]);
    assert updates[..i + 1][..i] == updates[..i];
    RanThen(s, b, Outcome(done, true), mid, midBudget, true,
      Outcome(PutAssociationWrites(mid, updates[i]), true), after, left, ok);
    if !ok {
      UpdateWritesPrefixOf(s, updates, i + 1);
      RanBegins(s, b, Outcome(UpdateWrites(s, updates[..i + 1]), true), Outcome(UpdateWrites(s, updates), true),
        after, left);
    }
  }

  /** The loop over associationReservationUpdates in commitDataWritePlan. */
  method StoreUpdates(st: Storage, updates: seq<Association>) returns (ok: bool)
    modifies st
    ensures Ran(old(st.data), old(st.budget), Outcome(UpdateWrites(old(st.data), updates), true), st.data, st.budget, ok)
  {
    ghost var s, b := st.data, st.budget;
    for i := 0 to |updates|
      invariant Ran(s, b, Outcome(UpdateWrites(s, updates[..i]), true), st.data, st.budget, true)
    {
      ghost var mid, midBudget := st.data, st.budget;
      ok := PutAssociationRecord(st, updates[i]);
      StoredOneMore(s, b, updates, i, mid, midBudget, st.data, st.budget, ok);
      if !ok {
        return;
      }
    }
    assert updates[..|updates|] == updates;
    ok := true;
  }

  /** Inside one putAssociation the record is either the old or the new one. */
  lemma PutAssociationPrefix(s: Store, a: Association, k: nat)
    requires k <= |PutAssociationWrites(s, a)|
    ensures var after := Apply(s, PutAssociationWrites(s, a)[..k]).associations;
      after == s.associations || after == s.associations[(a.path, a.id) := a]
  {
    var puts, put := PutPaths(AssociationKeys(a), a.path), PutAssociation(a);
    var stale := PutAssociationWrites(s, a)[|puts| + 1..];
    assert PutAssociationWrites(s, a) == puts + ([put] + stale);
    ApplyPart(s, puts, [put] + stale, k);
    if k <= |puts| {
      IndexWritesKeepAssociations(s, puts[..k]);
    } else {
      IndexWritesKeepAssociations(s, puts);
      var mid := Apply(s, puts);
      ApplyPart(mid, [put], stale, k - |puts|);
      ApplyOne(mid, put);
      if k - |puts| <= 1 {
        assert [put][..1] == [put];
      } else {
        IndexWritesKeepAssociations(Step(mid, put), stale[..k - |puts| - 1]);
      }
    }
  }

  /** The cut in the last update, or in those before it. */
  lemma SplitAtLast(s: Store, updates: seq<Association>, k: nat)
    requires updates != [] && k <= |UpdateWrites(s, updates)|
    ensures var done := UpdateWrites(s, updates[..|updates| - 1]);
      var last := PutAssociationWrites(Apply(s, done), updates[|updates| - 1]);
      |UpdateWrites(s, updates)| == |done| + |last| &&
      Apply(s, UpdateWrites(s, updates)[..k]) ==
        if k <= |done| then Apply(s, done[..k]) else Apply(Apply(s, done), last[..k - |done|])
  {
    var done := UpdateWrites(s, updates[..|updates| - 1]);
    ApplyPart(s, done, PutAssociationWrites(Apply(s, done), updates[|updates| - 1]), k);
  }

  /** Every update replaces a stored association. */
  ghost predicate AllStored(s: Store, updates: seq<Association>) {
    forall i :: 0 <= i < |updates| ==> (updates[i].path, updates[i].id) in s.associations
  }

  lemma {:induction false} UpdateCut(s: Store, updates: seq<Association>, k: nat) returns (n: nat, z: Store)
    requires AssociationsIndexed(s) && UniqueIds(s.associations) && AllStored(s, updates)
    requires k <= |UpdateWrites(s, updates)|
    ensures z == Apply(s, UpdateWrites(s, updates)[..k]) && AssociationsIndexed(z)
    ensures n <= |updates| && z.associations == PutFirst(s.associations, updates, n) &&
      z.associations.Keys == s.associations.Keys
    ensures k == |UpdateWrites(s, updates)| ==> n == |updates|
    decreases |updates|
  {
    if updates == [] {
      n, z := 0, s;
    } else {
      var front := updates[..|updates| - 1];
      var done := |UpdateWrites(s, front)|;
      if k <= done && k < |UpdateWrites(s, updates)| {
        n, z := UpdateCut(s, front, k);
        CutInFront(s, updates, k);
      } else {
        DoneFits(s, updates);
        n, z := UpdateCut(s, front, done);
        PutFirstOfFront(s.associations, updates, n);
        n, z := CutInLast(s, updates, z, k);
        return;
      }
      PutFirstOfFront(s.associations, updates, n);
    }
  }

  lemma DoneFits(s: Store, updates: seq<Association>)
    requires updates != []
    ensures |UpdateWrites(s, updates[..|updates| - 1])| <= |UpdateWrites(s, updates)|
  {
  }

  lemma CutInFront(s: Store, updates: seq<Association>, k: nat)
    requires updates != [] && k <= |UpdateWrites(s, updates[..|updates| - 1])| && k <= |UpdateWrites(s, updates)|
    ensures Apply(s, UpdateWrites(s, updates)[..k]) == Apply(s, UpdateWrites(s, updates[..|updates| - 1])[..k])
  {
    SplitAtLast(s, updates, k);
  }

  lemma CutInLast(s: Store, updates: seq<Association>, mid: Store, k: nat) returns (n: nat, z: Store)
    requires AssociationsIndexed(s) && UniqueIds(s.associations) && updates != [] && AllStored(s, updates)
    requires AssociationsIndexed(mid) && mid.associations.Keys == s.associations.Keys
    requires var done := UpdateWrites(s, updates[..|updates| - 1]);
      mid == Apply(s, done[..|done|]) && |done| <= k <= |UpdateWrites(s, updates)|
    requires mid.associations == PutFirst(s.associations, updates, |updates| - 1)
    ensures z == Apply(s, UpdateWrites(s, updates)[..k]) && AssociationsIndexed(z)
    ensures n <= |updates| && z.associations == PutFirst(s.associations, updates, n) &&
      z.associations.Keys == s.associations.Keys
    ensures k == |UpdateWrites(s, updates)| ==> n == |updates|
  {
    var last := updates[|updates| - 1];
    OwnsIdOfStored(s, mid, last);
    var j := CutPosition(s, updates, mid, k);
    n, z := PutCut(mid, last, j);
    KeysStay(mid.associations, last);
    n := |updates| - 1 + n;
  }

  /** Where in the last putAssociation a cut lies. */
  lemma CutPosition(s: Store, updates: seq<Association>, mid: Store, k: nat) returns (j: nat)
    requires updates != []
    requires var done := UpdateWrites(s, updates[..|updates| - 1]);
      mid == Apply(s, done[..|done|]) && |done| <= k <= |UpdateWrites(s, updates)|
    ensures j <= |PutAssociationWrites(mid, updates[|updates| - 1])|
    ensures Apply(s, UpdateWrites(s, updates)[..k]) == Apply(mid, PutAssociationWrites(mid, updates[|updates| - 1])[..j])
    ensures k == |UpdateWrites(s, updates)| ==> j == |PutAssociationWrites(mid, updates[|updates| - 1])|
  {
    var last, done := updates[|updates| - 1], UpdateWrites(s, updates[..|updates| - 1]);
    assert done[..|done|] == done;
    SplitAtLast(s, updates, k);
    j := k - |done|;
    assert j == 0 ==> PutAssociationWrites(mid, last)[..j] == [];
  }

  lemma KeysStay(associations: Associations, a: Association)
    requires (a.path, a.id) in associations
    ensures associations[(a.path, a.id) := a].Keys == associations.Keys
  {
  }

  lemma OwnsIdOfStored(s: Store, mid: Store, a: Association)
    requires AssociationsIndexed(s) && UniqueIds(s.associations) && (a.path, a.id) in s.associations
    requires mid.associations.Keys == s.associations.Keys
    ensures UniqueIds(mid.associations) && OwnsId(mid, a) && a.path != "" && (a.path, a.id) in mid.associations
  {
    assert AssociationIndexed(s, (a.path, a.id));
    assert forall key :: key in mid.associations <==> key in s.associations.Keys;
  }

  /** After any single storage write of a data write's association updates, a whole
      number of them has been stored, so names are still unique, and the indexes are
      complete. */
  lemma UpdateWritesPrefix(s: Store, updates: seq<Association>, k: nat) returns (n: nat, z: Store)
    requires AssociationsIndexed(s) && UniqueIds(s.associations) && Unique(s.associations) &&
      Compatible(s.associations, updates)
    requires k <= |UpdateWrites(s, updates)|
    ensures z == Apply(s, UpdateWrites(s, updates)[..k]) && AssociationsIndexed(z)
    ensures n <= |updates| && z.associations == PutFirst(s.associations, updates, n) && Unique(z.associations)
    ensures k == |UpdateWrites(s, updates)| ==> n == |updates|
  {
    n, z := UpdateCut(s, updates, k);
    UpdatesKeepUnique(s.associations, updates, n);
  }

  /** One putAssociation cut off: the record is the old or the new one. */
  lemma PutCut(s: Store, a: Association, k: nat) returns (n: nat, z: Store)
    requires AssociationsIndexed(s) && UniqueIds(s.associations) && OwnsId(s, a) && a.path != ""
    requires k <= |PutAssociationWrites(s, a)|
    ensures z == Apply(s, PutAssociationWrites(s, a)[..k]) && AssociationsIndexed(z)
    ensures n <= 1 && z.associations == if n == 0 then s.associations else s.associations[(a.path, a.id) := a]
    ensures k == |PutAssociationWrites(s, a)| ==> n == 1
  {
    var ws := PutAssociationWrites(s, a);
    PutAssociationEffect(s, a);
    HarmlessPrefix(s, ws, k);
    PutAssociationPrefix(s, a, k);
    assert ws[..|ws|] == ws;
    z := Apply(s, ws[..k]);
    n := if k < |ws| && z.associations == s.associations then 0 else 1;
  }

  lemma {:induction false} PutFirstOfFront(associations: Associations, updates: seq<Association>, n: nat)
    requires updates != [] && n < |updates|
    ensures PutFirst(associations, updates[..|updates| - 1], n) == PutFirst(associations, updates, n)
    decreases n
  {
    if n > 0 {
      PutFirstOfFront(associations, updates, n - 1);
    }
  }
}
