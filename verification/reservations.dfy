/** No two associations of a destination reserve the same name
    (internal/backend/path_associations.go, path_data.go). */
module Reservations {
  import opened Naming
  import opened Records
  import opened OutboxStorage
  import opened AssociationStorage
  import opened Text

  type Associations = map<(string, string), Association>

  predicate Collide(a: Association, b: Association) {
    a.destinationRef == b.destinationRef && exists name :: name in ReservationNames(a) && name in ReservationNames(b)
  }

  ghost predicate Unique(associations: Associations) {
    forall p, q :: p in associations && q in associations && p != q ==> !Collide(associations[p], associations[q])
  }

  /** No other association of the destination reserves one of these names. */
  ghost predicate Free(associations: Associations, a: Association) {
    forall key :: key in associations && key.1 != a.id ==> !Collide(associations[key], a)
  }

  // ------------------------------------------------------------ concrete names

  function ConcreteNames(a: Association, objectIds: seq<string>): Result<seq<string>> {
    if objectIds == [] then Ok([])
    else
      match ConcreteNames(a, objectIds[..|objectIds| - 1])
      case Err(message) => Err(message)
      case Ok(front) =>
        match ResolvedNameForObject(a.granularity, a.resolvedName, a.nameTemplate, TargetOf(a), objectIds[|objectIds| - 1])
        case Err(message) => Err(message)
        case Ok(name) => Ok(front + [name])
  }

  /** associationWithConcreteReservationNames for the sorted keys of a payload. */
  function WithConcreteNames(a: Association, objectIds: seq<string>): Result<Association> {
    if a.granularity == SecretPath then Ok(a.(concreteNames := []))
    else if objectIds == [] then Err("secret-key granularity requires at least one source key")
    else
      match ConcreteNames(a, objectIds)
      case Err(message) => Err(message)
      case Ok(names) => Ok(a.(concreteNames := UniqueSorted(names)))
  }

  // ------------------------------------------------------------------- checks

  /** validateAssociationNameReservations */
  method ValidateReservations(st: Storage, a: Association) returns (ok: bool)
    requires AssociationsIndexed(st.data) && UniqueIds(st.data.associations)
    ensures ok <==> Free(st.data.associations, a)
  {
    var names := ReservationNames(a);
    for i := 0 to |names|
      invariant forall j :: 0 <= j < i ==> ReservingIds(st.data, a.destinationRef, names[j]) <= {a.id}
    {
      var ids := ListReservingIds(st, a.destinationRef, names[i]);
      if !(|ids| == 0 || (|ids| == 1 && ids[0] == a.id)) {
        OtherReserves(st.data, a, names[i], ids);
        return false;
      }
      assert forall id :: id in ids ==> id == ids[0];
    }
    ok := true;
    forall key | key in st.data.associations && key.1 != a.id
      ensures !Collide(st.data.associations[key], a)
    {
      forall j | 0 <= j < |names|
        ensures !(st.data.associations[key].destinationRef == a.destinationRef &&
                  names[j] in ReservationNames(st.data.associations[key]))
      {
        assert key.1 !in ReservingIds(st.data, a.destinationRef, names[j]);
      }
    }
  }

  lemma OtherReserves(s: Store, a: Association, name: string, ids: seq<string>)
    requires name in ReservationNames(a) && Lists(ids, ReservingIds(s, a.destinationRef, name))
    requires !(|ids| == 0 || (|ids| == 1 && ids[0] == a.id))
    ensures !Free(s.associations, a)
  {
    var i := if ids[0] == a.id then 1 else 0;
    assert ids[i] != a.id && ids[i] in ids;
    var key :| key in s.associations && Reserves(s.associations[key], a.destinationRef, name) && key.1 == ids[i];
    assert Collide(s.associations[key], a);
  }

  /** The records a payload gives a list of associations. */
  function Updated(associations: seq<Association>, objectIds: seq<string>): Result<seq<Association>> {
    if associations == [] then Ok([])
    else
      match Updated(associations[..|associations| - 1], objectIds)
      case Err(message) => Err(message)
      case Ok(front) =>
        match WithConcreteNames(associations[|associations| - 1], objectIds)
        case Err(message) => Err(message)
        case Ok(a) => Ok(front + [a])
  }

  /** Those whose concrete names differ from what is stored. */
  function ChangedOnes(associations: seq<Association>, updated: seq<Association>): seq<Association>
    requires |associations| == |updated|
  {
    if updated == [] then []
    else
      var n := |updated| - 1;
      ChangedOnes(associations[..n], updated[..n]) +
      if associations[n].concreteNames == updated[n].concreteNames then [] else [updated[n]]
  }

  ghost predicate Separate(updated: seq<Association>) {
    forall i, j :: 0 <= i < j < |updated| && updated[i].id != updated[j].id ==> !Collide(updated[i], updated[j])
  }

  ghost predicate AllFree(associations: Associations, updated: seq<Association>) {
    forall i :: 0 <= i < |updated| ==> Free(associations, updated[i])
  }

  lemma {:induction false} UpdatedLength(associations: seq<Association>, objectIds: seq<string>)
    requires Updated(associations, objectIds).Ok?
    ensures |Updated(associations, objectIds).value| == |associations|
    decreases |associations|
  {
    if associations != [] {
      UpdatedLength(associations[..|associations| - 1], objectIds);
    }
  }

  lemma {:induction false} UpdatedPrefix(associations: seq<Association>, objectIds: seq<string>, n: nat)
    requires Updated(associations, objectIds).Ok? && n <= |associations|
    ensures |Updated(associations, objectIds).value| == |associations|
    ensures Updated(associations[..n], objectIds) == Ok(Updated(associations, objectIds).value[..n])
    decreases |associations|
  {
    UpdatedLength(associations, objectIds);
    if n == |associations| {
      assert associations[..n] == associations;
      assert Updated(associations, objectIds).value[..n] == Updated(associations, objectIds).value;
    } else {
      var front := associations[..|associations| - 1];
      UpdatedPrefix(front, objectIds, n);
      assert Updated(front, objectIds).value[..n] == Updated(associations, objectIds).value[..n];
      assert front[..n] == associations[..n];
    }
  }

  // ------------------------------------------------------ names seen in one payload

  type Seen = map<(string, string), string>

  /** The last association to reserve a name. */
  function LastOwner(updated: seq<Association>, key: (string, string)): Option<string> {
    if updated == [] then None
    else if Reserves(updated[|updated| - 1], key.0, key.1) then Some(updated[|updated| - 1].id)
    else LastOwner(updated[..|updated| - 1], key)
  }

  /** The `seen` map after these associations. */
  ghost predicate Sees(seen: Seen, updated: seq<Association>) {
    forall key :: if key in seen then LastOwner(updated, key) == Some(seen[key]) else LastOwner(updated, key) == None
  }

  /** The last owner of a name is the only one, if the associations are separate. */
  lemma {:induction false} OwnerTells(updated: seq<Association>, key: (string, string), i: nat)
    requires i < |updated| && Separate(updated) && Reserves(updated[i], key.0, key.1)
    ensures LastOwner(updated, key) == Some(updated[i].id)
    decreases |updated|
  {
    var last := updated[|updated| - 1];
    if Reserves(last, key.0, key.1) {
      assert Collide(updated[i], last);
    } else {
      var front := updated[..|updated| - 1];
      assert front[i] == updated[i];
      OwnerTells(front, key, i);
    }
  }

  lemma {:induction false} OwnerReserves(updated: seq<Association>, key: (string, string)) returns (i: nat)
    requires LastOwner(updated, key).Some?
    ensures i < |updated| && updated[i].id == LastOwner(updated, key).value && Reserves(updated[i], key.0, key.1)
    decreases |updated|
  {
    if Reserves(updated[|updated| - 1], key.0, key.1) {
      i := |updated| - 1;
    } else {
      i := OwnerReserves(updated[..|updated| - 1], key);
    }
  }

  /** The names of `a` do not clash with what has been seen. */
  predicate Agrees(seen: Seen, destinationRef: string, names: seq<string>, id: string) {
    forall n :: 0 <= n < |names| && (destinationRef, names[n]) in seen ==> seen[(destinationRef, names[n])] == id
  }

  /** No other association of the payload so far shares a name with `a`. */
  ghost predicate ApartFrom(updated: seq<Association>, a: Association) {
    forall i :: 0 <= i < |updated| && updated[i].id != a.id ==> !Collide(updated[i], a)
  }

  lemma AgreesIffApart(seen: Seen, updated: seq<Association>, a: Association)
    requires Sees(seen, updated) && Separate(updated)
    ensures Agrees(seen, a.destinationRef, ReservationNames(a), a.id) <==> ApartFrom(updated, a)
  {
    var names := ReservationNames(a);
    if Agrees(seen, a.destinationRef, names, a.id) {
      forall i | 0 <= i < |updated| && Collide(updated[i], a)
        ensures updated[i].id == a.id
      {
        var name :| name in ReservationNames(updated[i]) && name in names;
        var n :| 0 <= n < |names| && names[n] == name;
        OwnerTells(updated, (a.destinationRef, names[n]), i);
        assert (a.destinationRef, names[n]) in seen;
      }
    } else {
      var n :| 0 <= n < |names| && (a.destinationRef, names[n]) in seen && seen[(a.destinationRef, names[n])] != a.id;
      assert LastOwner(updated, (a.destinationRef, names[n])) == Some(seen[(a.destinationRef, names[n])]);
      var i := OwnerReserves(updated, (a.destinationRef, names[n]));
      assert names[n] in names && Collide(updated[i], a);
    }
  }

  /** The inner loop over the names of one association. */
  method NoteNames(seen: Seen, destinationRef: string, names: seq<string>, id: string) returns (noted: Seen, ok: bool)
    ensures ok <==> Agrees(seen, destinationRef, names, id)
    ensures ok ==> forall key :: key in noted <==> key in seen || (key.0 == destinationRef && key.1 in names)
    ensures ok ==> forall key :: key in noted ==>
      noted[key] == if key.0 == destinationRef && key.1 in names then id else seen[key]
  {
    noted := seen;
    for n := 0 to |names|
      invariant forall key :: key in noted <==> key in seen || (key.0 == destinationRef && key.1 in names[..n])
      invariant forall key :: key in noted ==>
        noted[key] == if key.0 == destinationRef && key.1 in names[..n] then id else seen[key]
      invariant Agrees(seen, destinationRef, names[..n], id)
    {
      assert names[..n + 1] == names[..n] + [names[n]];
      var key := (destinationRef, names[n]);
      if key in noted && noted[key] != id {
        assert key in seen && seen[key] != id;
        return seen, false;
      }
      noted := noted[key := id];
    }
    ok := true;
    assert names[..|names|] == names;
  }

  lemma NotedSees(seen: Seen, noted: Seen, updated: seq<Association>, a: Association)
    requires Sees(seen, updated)
    requires forall key :: key in noted <==> key in seen || (key.0 == a.destinationRef && key.1 in ReservationNames(a))
    requires forall key :: key in noted ==>
      noted[key] == if key.0 == a.destinationRef && key.1 in ReservationNames(a) then a.id else seen[key]
    ensures Sees(noted, updated + [a])
  {
    var all := updated + [a];
    assert all[..|all| - 1] == updated && all[|all| - 1] == a;
    forall key
      ensures if key in noted then LastOwner(all, key) == Some(noted[key]) else LastOwner(all, key) == None
    {
      assert if key in seen then LastOwner(updated, key) == Some(seen[key]) else LastOwner(updated, key) == None;
      assert Reserves(a, key.0, key.1) <==> key.0 == a.destinationRef && key.1 in ReservationNames(a);
    }
  }

  /** Both checks on one association of a payload. */
  method CheckNames(
    st: Storage, seen: Seen, ghost updated: seq<Association>, a: Association) returns (noted: Seen, ok: bool)
    requires AssociationsIndexed(st.data) && UniqueIds(st.data.associations)
    requires Sees(seen, updated) && Separate(updated)
    ensures ok <==> Free(st.data.associations, a) && ApartFrom(updated, a)
    ensures ok ==> Sees(noted, updated + [a])
  {
    AgreesIffApart(seen, updated, a);
    noted, ok := NoteNames(seen, a.destinationRef, ReservationNames(a), a.id);
    if ok {
      NotedSees(seen, noted, updated, a);
      ok := ValidateReservations(st, a);
    }
  }

  /** associationReservationUpdatesForPayload */
  method ReservationUpdates(st: Storage, associations: seq<Association>, objectIds: seq<string>)
    returns (result: Result<seq<Association>>)
    requires AssociationsIndexed(st.data) && UniqueIds(st.data.associations)
    ensures result.Ok? <==> Updated(associations, objectIds).Ok? && Separate(Updated(associations, objectIds).value) &&
                            AllFree(st.data.associations, Updated(associations, objectIds).value)
    ensures result.Ok? ==> |Updated(associations, objectIds).value| == |associations| &&
                           result.value == ChangedOnes(associations, Updated(associations, objectIds).value)
  {
    var seen: Seen := map[];
    var updates := [];
    ghost var updated: seq<Association> := [];
    for i := 0 to |associations|
      invariant Updated(associations[..i], objectIds) == Ok(updated) && |updated| == i
      invariant Sees(seen, updated) && Separate(updated) && AllFree(st.data.associations, updated)
      invariant updates == ChangedOnes(associations[..i], updated)
    {
      assert associations[..i + 1][..i] == associations[..i];
      var one := WithConcreteNames(associations[i], objectIds);
      if one.Err? {
        PrefixFails(associations, objectIds, i + 1);
        return Err("payload does not fit the association");
      }
      ghost var all := updated + [one.value];
      assert all[..i] == updated && Updated(associations[..i + 1], objectIds) == Ok(all);
      var noted, free := CheckNames(st, seen, updated, one.value);
      if !free {
        ClashFails(st.data.associations, associations, objectIds, i, updated, one.value);
        return Err("resolved_name is already reserved");
      }
      if associations[i].concreteNames != one.value.concreteNames {
        updates := updates + [one.value];
      }
      seen := noted;
      updated := all;
    }
    assert associations[..|associations|] == associations;
    result := Ok(updates);
  }

  lemma PrefixFails(associations: seq<Association>, objectIds: seq<string>, n: nat)
    requires n <= |associations| && Updated(associations[..n], objectIds).Err?
    ensures Updated(associations, objectIds).Err?
  {
    if Updated(associations, objectIds).Ok? {
      UpdatedPrefix(associations, objectIds, n);
    }
  }

  lemma ClashFails(
    stored: Associations, associations: seq<Association>, objectIds: seq<string>, n: nat,
    updated: seq<Association>, a: Association)
    requires n < |associations| && |updated| == n && Updated(associations[..n + 1], objectIds) == Ok(updated + [a])
    requires !ApartFrom(updated, a) || !Free(stored, a)
    ensures Updated(associations, objectIds).Ok? ==>
      !(Separate(Updated(associations, objectIds).value) && AllFree(stored, Updated(associations, objectIds).value))
  {
    if Updated(associations, objectIds).Ok? {
      UpdatedPrefix(associations, objectIds, n + 1);
      var all := Updated(associations, objectIds).value;
      assert all[..n + 1] == updated + [a];
      assert all[n] == all[..n + 1][n] == a;
      assert forall i :: 0 <= i < n ==> all[i] == all[..n + 1][i] == updated[i];
    }
  }

  // ------------------------------------------------------------------ the invariant

  lemma PutKeepsUnique(associations: Associations, a: Association)
    requires Unique(associations) && UniqueIds(associations) && Free(associations, a)
    requires forall key :: key in associations && key.1 == a.id ==> key == (a.path, a.id)
    ensures Unique(associations[(a.path, a.id) := a]) && UniqueIds(associations[(a.path, a.id) := a])
  {
    var after := associations[(a.path, a.id) := a];
    forall p, q | p in after && q in after && p != q
      ensures !Collide(after[p], after[q])
    {
      if p == (a.path, a.id) {
        assert !Collide(associations[q], a);
      } else if q == (a.path, a.id) {
        assert !Collide(associations[p], a);
      }
    }
  }

  /** Storing the first `n` updates of a data write. */
  function PutFirst(associations: Associations, updates: seq<Association>, n: nat): Associations
    requires n <= |updates|
  {
    if n == 0 then associations
    else PutFirst(associations, updates, n - 1)[(updates[n - 1].path, updates[n - 1].id) := updates[n - 1]]
  }

  /** Updates of stored associations that neither clash with what is stored under other
      ids nor with each other. */
  ghost predicate Compatible(associations: Associations, updates: seq<Association>) {
    Separate(updates) && AllFree(associations, updates) &&
    (forall i :: 0 <= i < |updates| ==> (updates[i].path, updates[i].id) in associations) &&
    forall i, j :: 0 <= i < j < |updates| ==> updates[i].id != updates[j].id
  }

  lemma {:induction false} UpdatesKeepUnique(associations: Associations, updates: seq<Association>, n: nat)
    requires Unique(associations) && UniqueIds(associations) && Compatible(associations, updates) && n <= |updates|
    ensures Unique(PutFirst(associations, updates, n)) && UniqueIds(PutFirst(associations, updates, n))
    ensures PutFirst(associations, updates, n).Keys == associations.Keys
    ensures forall key :: key in PutFirst(associations, updates, n) ==>
      PutFirst(associations, updates, n)[key] == associations[key] ||
      exists i ::
        0 <= i < n && key == (updates[i].path, updates[i].id) && PutFirst(associations, updates, n)[key] == updates[i]
    decreases n
  {
    if n > 0 {
      UpdatesKeepUnique(associations, updates, n - 1);
      var before, a := PutFirst(associations, updates, n - 1), updates[n - 1];
      forall key | key in before && key.1 != a.id
        ensures !Collide(before[key], a)
      {
        if before[key] == associations[key] {
          assert !Collide(associations[key], a);
        } else {
          var i :| 0 <= i < n - 1 && key == (updates[i].path, updates[i].id) && before[key] == updates[i];
          assert !Collide(updates[i], updates[n - 1]);
        }
      }
      PutKeepsUnique(before, a);
    }
  }

  /** `updates` picks some of `updated`, in order. */
  lemma {:induction false} ChangedOnesArePicked(associations: seq<Association>, updated: seq<Association>)
    requires |associations| == |updated| && forall i, j :: 0 <= i < j < |updated| ==> updated[i].id != updated[j].id
    ensures var updates := ChangedOnes(associations, updated);
      (forall u :: u in updates ==> u in updated) &&
      forall i, j :: 0 <= i < j < |updates| ==> updates[i].id != updates[j].id
    decreases |updated|
  {
    if updated != [] {
      var n := |updated| - 1;
      ChangedOnesArePicked(associations[..n], updated[..n]);
      var front := ChangedOnes(associations[..n], updated[..n]);
      forall i | 0 <= i < |front|
        ensures front[i].id != updated[n].id
      {
        assert front[i] in updated[..n];
      }
    }
  }

  /** The stored associations a data write looks at. */
  ghost predicate Listed(associations: Associations, list: seq<Association>) {
    (forall i :: 0 <= i < |list| ==>
      (list[i].path, list[i].id) in associations && associations[(list[i].path, list[i].id)] == list[i]) &&
    forall i, j :: 0 <= i < j < |list| ==> list[i].id != list[j].id
  }

  lemma {:induction false} UpdatedIdentities(list: seq<Association>, objectIds: seq<string>)
    requires Updated(list, objectIds).Ok?
    ensures var updated := Updated(list, objectIds).value;
      |updated| == |list| && forall i :: 0 <= i < |list| ==> updated[i] == list[i].(concreteNames := updated[i].concreteNames)
    decreases |list|
  {
    if list != [] {
      UpdatedIdentities(list[..|list| - 1], objectIds);
    }
  }

  lemma UpdatesAreCompatible(associations: Associations, list: seq<Association>, objectIds: seq<string>)
    requires Listed(associations, list) && Updated(list, objectIds).Ok?
    requires Separate(Updated(list, objectIds).value) && AllFree(associations, Updated(list, objectIds).value)
    ensures |Updated(list, objectIds).value| == |list|
    ensures Compatible(associations, ChangedOnes(list, Updated(list, objectIds).value))
  {
    UpdatedIdentities(list, objectIds);
    var updated := Updated(list, objectIds).value;
    assert forall i :: 0 <= i < |list| ==> updated[i].id == list[i].id && updated[i].path == list[i].path;
    ChangedOnesArePicked(list, updated);
    var updates := ChangedOnes(list, updated);
    forall i | 0 <= i < |updates|
      ensures (updates[i].path, updates[i].id) in associations && Free(associations, updates[i])
    {
      assert updates[i] in updated;
    }
    forall i, j | 0 <= i < j < |updates|
      ensures !Collide(updates[i], updates[j])
    {
      assert updates[i] in updated && updates[j] in updated;
      var a :| 0 <= a < |updated| && updated[a] == updates[i];
      var b :| 0 <= b < |updated| && updated[b] == updates[j];
      CollideIsSymmetric(updated[a], updated[b]);
    }
  }

  lemma CollideIsSymmetric(a: Association, b: Association)
    ensures Collide(a, b) <==> Collide(b, a)
  {
  }

  // ----------------------------------------------------------------------- runs

  /** `enqueued` says whether the operations that follow the stored record could be
      queued; if not, the handler restores what it kept as the previous record. A data
      write may be cut off after any number of its association updates. */
  datatype Request =
    | WriteAssociation(association: Association, enqueued: bool)
    | EnableAssociation(key: (string, string), objectIds: seq<string>, now: Time, enqueued: bool)
    | DisableAssociation(key: (string, string), now: Time)
    | RemoveAssociation(key: (string, string))
    | WriteData(list: seq<Association>, objectIds: seq<string>, cut: nat)

  function Stored(associations: Associations, a: Association): Associations { associations[(a.path, a.id) := a] }

  /** rollbackAssociationPersistence */
  function RolledBack(associations: Associations, a: Association, previous: Option<Association>): Associations {
    match previous
    case Some(p) => Stored(associations, p)
    case None => associations - {(a.path, a.id)}
  }

  ghost predicate Keyed(associations: Associations) {
    forall key :: key in associations ==> key == (associations[key].path, associations[key].id)
  }

  ghost predicate Next(before: Associations, r: Request, after: Associations) {
    match r
    case WriteAssociation(a, enqueued) =>
      (forall key :: key in before && key.1 == a.id ==> key == (a.path, a.id)) && Free(before, a) &&
      var previous := if (a.path, a.id) in before then Some(before[(a.path, a.id)]) else None;
      after == if enqueued then Stored(before, a) else RolledBack(Stored(before, a), a, previous)
    case EnableAssociation(key, objectIds, now, enqueued) =>
      key in before && WithConcreteNames(before[key], objectIds).Ok? &&
      var previous := WithConcreteNames(before[key], objectIds).value;
      var activated := previous.(enabled := true, updatedTime := now);
      Free(before, previous) &&
      after == if enqueued then Stored(before, activated) else RolledBack(Stored(before, activated), activated, Some(previous))
    case DisableAssociation(key, now) =>
      key in before && after == before[key := before[key].(enabled := false, updatedTime := now)]
    case RemoveAssociation(key) => after == before - {key}
    case WriteData(list, objectIds, cut) =>
      Listed(before, list) && Updated(list, objectIds).Ok? &&
      var updated := Updated(list, objectIds).value;
      |updated| == |list| && Separate(updated) && AllFree(before, updated) &&
      cut <= |ChangedOnes(list, updated)| && after == PutFirst(before, ChangedOnes(list, updated), cut)
  }

  ghost predicate Sound(associations: Associations) { Keyed(associations) && UniqueIds(associations) && Unique(associations) }

  lemma SameNames(a: Association, enabled: bool, now: Time)
    ensures ReservationNames(a.(enabled := enabled, updatedTime := now)) == ReservationNames(a)
  {
  }

  lemma WriteKeepsSound(before: Associations, r: Request, after: Associations)
    requires Sound(before) && r.WriteAssociation? && Next(before, r, after)
    ensures Sound(after) && (!r.enqueued ==> after == before)
  {
    var a := r.association;
    if r.enqueued {
      PutKeepsUnique(before, a);
    } else if (a.path, a.id) in before {
      assert after == before;
    } else {
      assert after == before;
    }
  }

  lemma EnableKeepsSound(before: Associations, r: Request, after: Associations)
    requires Sound(before) && r.EnableAssociation? && Next(before, r, after)
    ensures Sound(after)
  {
    var previous := WithConcreteNames(before[r.key], r.objectIds).value;
    var activated := previous.(enabled := true, updatedTime := r.now);
    assert previous.id == r.key.1 && previous.path == r.key.0;
    SameNames(previous, true, r.now);
    if r.enqueued {
      assert Free(before, activated);
      PutKeepsUnique(before, activated);
    } else {
      PutKeepsUnique(before, previous);
      assert after == Stored(before, previous);
    }
  }

  lemma OthersKeepSound(before: Associations, r: Request, after: Associations)
    requires Sound(before) && (r.DisableAssociation? || r.RemoveAssociation?) && Next(before, r, after)
    ensures Sound(after)
  {
    if r.DisableAssociation? {
      SameNames(before[r.key], false, r.now);
      forall p, q | p in after && q in after && p != q
        ensures !Collide(after[p], after[q])
      {
        assert !Collide(before[p], before[q]);
      }
    } else {
      forall p, q | p in after && q in after && p != q
        ensures !Collide(after[p], after[q])
      {
        assert !Collide(before[p], before[q]);
      }
    }
  }

  lemma DataWriteKeepsSound(before: Associations, r: Request, after: Associations)
    requires Sound(before) && r.WriteData? && Next(before, r, after)
    ensures Sound(after)
  {
    UpdatesAreCompatible(before, r.list, r.objectIds);
    UpdatesKeepUnique(before, ChangedOnes(r.list, Updated(r.list, r.objectIds).value), r.cut);
  }

  ghost predicate ReservationRun(states: seq<Associations>, requests: seq<Request>) {
    |states| == |requests| + 1 && forall i :: 0 <= i < |requests| ==> Next(states[i], requests[i], states[i + 1])
  }

  /** At every point of every run no two associations of a destination reserve one name. */
  lemma {:induction false} RunsStaySound(states: seq<Associations>, requests: seq<Request>, i: nat)
    requires ReservationRun(states, requests) && Sound(states[0]) && i <= |requests|
    ensures Sound(states[i])
  {
    if i > 0 {
      RunsStaySound(states, requests, i - 1);
      match requests[i - 1]
      case WriteAssociation(_, _) => WriteKeepsSound(states[i - 1], requests[i - 1], states[i]);
      case EnableAssociation(_, _, _, _) => EnableKeepsSound(states[i - 1], requests[i - 1], states[i]);
      case WriteData(_, _, _) => DataWriteKeepsSound(states[i - 1], requests[i - 1], states[i]);
      case _ => OthersKeepSound(states[i - 1], requests[i - 1], states[i]);
    }
  }
}
