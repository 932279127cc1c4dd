/** Association records, their destination and name-reservation indexes, and the checks
    that keep two associations of a destination from reserving one name
    (internal/backend/storage_association.go, storage_records.go, path_associations.go). */
module AssociationStorage {
  import opened Naming
  import opened Records
  import opened OutboxStorage
  import opened Text

  // --------------------------------------------------------- reservation names

  function TargetOf(a: Association): Target { Target(a.path, a.destinationType, a.destinationName) }

  function ReservationKey(providerIdentity: string, name: string): string {
    if providerIdentity == "" then name else providerIdentity + "\0" + name
  }

  function RawReservationName(a: Association): string {
    match a.granularity
    case SecretPath => a.resolvedName
    case SecretKey =>
      match RenderObjectName(a.nameTemplate, TargetOf(a), RESERVATION_KEY)
      case Ok(name) => name
      case Err(_) => a.nameTemplate
  }

  function ReservationKeys(a: Association): seq<string> {
    [ReservationKey(a.providerIdentity, RawReservationName(a))] +
    seq(|a.concreteNames|, i requires 0 <= i < |a.concreteNames| => ReservationKey(a.providerIdentity, a.concreteNames[i]))
  }

  /** reservationNames */
  function ReservationNames(a: Association): seq<string> { UniqueSorted(ReservationKeys(a)) }

  predicate Reserves(a: Association, destinationRef: string, name: string) {
    a.destinationRef == destinationRef && name in ReservationNames(a)
  }

  // -------------------------------------------------------------------- indexes

  function NameKeys(a: Association): seq<IndexKey> {
    var names := ReservationNames(a);
    seq(|names|, i requires 0 <= i < |names| => ByName(a.destinationRef, names[i], a.id))
  }

  function AssociationKeys(a: Association): seq<IndexKey> {
    [ByDestination(a.destinationType, a.destinationName, a.id)] + NameKeys(a)
  }

  lemma KeysOf(a: Association)
    ensures forall k :: k in AssociationKeys(a) ==> k.id == a.id && (k.ByDestination? || k.ByName?)
    ensures forall name :: name in ReservationNames(a) <==> ByName(a.destinationRef, name, a.id) in AssociationKeys(a)
  {
    forall name | name in ReservationNames(a)
      ensures ByName(a.destinationRef, name, a.id) in AssociationKeys(a)
    {
      var i :| 0 <= i < |ReservationNames(a)| && ReservationNames(a)[i] == name;
      assert NameKeys(a)[i] == ByName(a.destinationRef, name, a.id);
      assert AssociationKeys(a)[i + 1] == NameKeys(a)[i];
    }
  }

  function PutPaths(keys: seq<IndexKey>, path: string): seq<Write> {
    seq(|keys|, i requires 0 <= i < |keys| => PutIndex(keys[i], path))
  }

  /** putAssociation: index entries, the record, then the entries it no longer has. */
  function PutAssociationWrites(s: Store, a: Association): seq<Write> {
    PutPaths(AssociationKeys(a), a.path) + [PutAssociation(a)] +
    if (a.path, a.id) in s.associations
    then DeleteKeys(Without(AssociationKeys(s.associations[(a.path, a.id)]), AssociationKeys(a))) else []
  }

  /** deleteAssociation */
  function DeleteAssociationWrites(a: Association): seq<Write> {
    [DeleteAssociation(a.path, a.id)] + DeleteKeys(AssociationKeys(a))
  }

  ghost predicate AssociationIndexed(s: Store, key: (string, string))
    requires key in s.associations
  {
    var a := s.associations[key];
    key == (a.path, a.id) && a.path != "" && forall k :: k in AssociationKeys(a) ==>
      k in s.index && s.index[k] == a.path
  }

  /** Every stored association has all its index entries; stale entries are allowed. */
  ghost predicate AssociationsIndexed(s: Store) {
    forall key :: key in s.associations ==> AssociationIndexed(s, key)
  }

  /** Association ids are taken to identify the association. They are hashes of path,
      destination, name and granularity joined by ':', so this is an assumption about the
      hash and, as AssociationTextsCollide shows, about the names. */
  ghost predicate UniqueIds(associations: map<(string, string), Association>) {
    forall p, q :: p in associations && q in associations && p.1 == q.1 ==> p == q
  }

  /** newAssociationID hashes this text. */
  function AssociationText(path: string, kind: string, destination: string, name: string, granularity: string): string {
    path + ":" + kind + ":" + destination + ":" + name + ":" + granularity
  }

  lemma AssociationTextsCollide(granularity: string)
    ensures AssociationText("a:kubernetes:n", "kubernetes", "n", "z", granularity) ==
      AssociationText("a", "kubernetes", "n", "kubernetes:n:z", granularity)
  {
    assert "a:kubernetes:n" + ":" + "kubernetes" + ":" + "n" + ":" + "z" == "a:kubernetes:n:kubernetes:n:z";
    assert "a" + ":" + "kubernetes" + ":" + "n" + ":" + "kubernetes:n:z" == "a:kubernetes:n:kubernetes:n:z";
  }

  ghost predicate OwnsId(s: Store, a: Association) {
    forall key :: key in s.associations && key.1 == a.id ==> key.0 == a.path
  }

  // ------------------------------------------------- index completeness, write by write

  ghost predicate Uses(s: Store, k: IndexKey, path: string) {
    exists key :: key in s.associations && key.1 == k.id &&
      k in AssociationKeys(s.associations[key]) && s.associations[key].path == path
  }

  /** A write that cannot take an index entry away from a stored association. */
  ghost predicate Harmless(s: Store, w: Write) {
    match w
    case PutAssociation(a) => a.path != "" && forall k :: k in AssociationKeys(a) ==> k in s.index && s.index[k] == a.path
    case PutIndex(k, value) => forall path :: Uses(s, k, path) ==> value == path
    case DeleteIndex(k) => forall path :: !Uses(s, k, path)
    case _ => true
  }

  ghost predicate AllHarmless(s: Store, ws: seq<Write>)
    decreases |ws|
  {
    ws != [] ==> Harmless(s, ws[0]) && AllHarmless(Step(s, ws[0]), ws[1..])
  }

  lemma HarmlessKeepsIndexes(s: Store, w: Write)
    requires AssociationsIndexed(s) && Harmless(s, w)
    ensures AssociationsIndexed(Step(s, w))
  {
    var s' := Step(s, w);
    forall key | key in s'.associations
      ensures AssociationIndexed(s', key)
    {
      if !(w.PutAssociation? && key == (w.association.path, w.association.id)) {
        var a := s.associations[key];
        assert s'.associations[key] == a && AssociationIndexed(s, key);
        KeysOf(a);
        forall k | k in AssociationKeys(a)
          ensures k in s'.index && s'.index[k] == a.path
        {
          assert Uses(s, k, a.path);
        }
      }
    }
  }

  lemma {:induction false} HarmlessPrefix(s: Store, ws: seq<Write>, k: nat)
    requires AssociationsIndexed(s) && AllHarmless(s, ws) && k <= |ws|
    ensures AssociationsIndexed(Apply(s, ws[..k]))
    decreases k
  {
    if k > 0 {
      HarmlessKeepsIndexes(s, ws[0]);
      HarmlessPrefix(Step(s, ws[0]), ws[1..], k - 1);
      assert ws[..k][1..] == ws[1..][..k - 1];
    }
  }

  lemma {:induction false} AllHarmlessConcat(s: Store, a: seq<Write>, b: seq<Write>)
    requires AllHarmless(s, a) && AllHarmless(Apply(s, a), b)
    ensures AllHarmless(s, a + b)
    decreases |a|
  {
    if a == [] {
      assert a + b == b;
    } else {
      assert (a + b)[1..] == a[1..] + b;
      AllHarmlessConcat(Step(s, a[0]), a[1..], b);
    }
  }

  lemma {:induction false} PathPuts(s: Store, keys: seq<IndexKey>, path: string)
    requires forall k, p :: k in keys && Uses(s, k, p) ==> p == path
    ensures AllHarmless(s, PutPaths(keys, path))
    ensures var s' := Apply(s, PutPaths(keys, path));
      s' == s.(index := s'.index) && forall k :: k in keys ==> k in s'.index && s'.index[k] == path
    ensures forall k :: k !in keys ==> (k in s.index <==> k in Apply(s, PutPaths(keys, path)).index)
    ensures forall k :: k !in keys && k in s.index ==> Apply(s, PutPaths(keys, path)).index[k] == s.index[k]
    decreases |keys|
  {
    if keys != [] {
      var next := Step(s, PutIndex(keys[0], path));
      assert PutPaths(keys, path)[1..] == PutPaths(keys[1..], path);
      forall k, p | k in keys[1..] && Uses(next, k, p)
        ensures p == path
      {
        assert Uses(s, k, p);
      }
      PathPuts(next, keys[1..], path);
    }
  }

  lemma {:induction false} UnusedDeletes(s: Store, keys: seq<IndexKey>)
    requires forall k, p :: k in keys ==> !Uses(s, k, p)
    ensures AllHarmless(s, DeleteKeys(keys))
    ensures Apply(s, DeleteKeys(keys)) == s.(index := Apply(s, DeleteKeys(keys)).index)
    decreases |keys|
  {
    if keys != [] {
      var next := Step(s, DeleteIndex(keys[0]));
      assert DeleteKeys(keys)[1..] == DeleteKeys(keys[1..]);
      forall k, p | k in keys[1..]
        ensures !Uses(next, k, p)
      {
        assert !Uses(s, k, p);
      }
      UnusedDeletes(next, keys[1..]);
    }
  }

  /** The first half of putAssociation: index entries, then the record. */
  lemma PutRecordEffect(s: Store, a: Association) returns (after: Store)
    requires AssociationsIndexed(s) && UniqueIds(s.associations) && OwnsId(s, a) && a.path != ""
    ensures var ws := PutPaths(AssociationKeys(a), a.path) + [PutAssociation(a)];
      AllHarmless(s, ws) && Apply(s, ws) == after
    ensures after == s.(associations := s.associations[(a.path, a.id) := a], index := after.index)
    ensures UniqueIds(after.associations)
  {
    var keys, puts, put := AssociationKeys(a), PutPaths(AssociationKeys(a), a.path), PutAssociation(a);
    KeysOf(a);
    forall k, p | k in keys && Uses(s, k, p)
      ensures p == a.path
    {
      var key :| key in s.associations && key.1 == k.id &&
        k in AssociationKeys(s.associations[key]) && s.associations[key].path == p;
      assert AssociationIndexed(s, key);
    }
    PathPuts(s, keys, a.path);
    var mid := Apply(s, puts);
    assert [put][1..] == [];
    AllHarmlessConcat(s, puts, [put]);
    ApplyConcat(s, puts, [put]);
    after := Step(mid, put);
  }

  /** putAssociation replaces one record, and no stored association ever lacks an entry. */
  lemma PutAssociationEffect(s: Store, a: Association)
    requires AssociationsIndexed(s) && UniqueIds(s.associations) && OwnsId(s, a) && a.path != ""
    ensures AllHarmless(s, PutAssociationWrites(s, a))
    ensures var s' := Apply(s, PutAssociationWrites(s, a));
      s' == s.(associations := s.associations[(a.path, a.id) := a], index := s'.index) && UniqueIds(s'.associations)
  {
    var first := PutPaths(AssociationKeys(a), a.path) + [PutAssociation(a)];
    var after := PutRecordEffect(s, a);
    var stale := if (a.path, a.id) in s.associations
      then Without(AssociationKeys(s.associations[(a.path, a.id)]), AssociationKeys(a)) else [];
    StaleIsUnused(s, a, after, stale);
    UnusedDeletes(after, stale);
    AllHarmlessConcat(s, first, DeleteKeys(stale));
    ApplyConcat(s, first, DeleteKeys(stale));
    assert DeleteKeys([]) == [];
  }

  lemma StaleIsUnused(s: Store, a: Association, after: Store, stale: seq<IndexKey>)
    requires AssociationsIndexed(s) && UniqueIds(after.associations)
    requires after.associations == s.associations[(a.path, a.id) := a]
    requires stale == if (a.path, a.id) in s.associations
      then Without(AssociationKeys(s.associations[(a.path, a.id)]), AssociationKeys(a)) else []
    ensures forall k, p :: k in stale ==> !Uses(after, k, p)
  {
    if (a.path, a.id) in s.associations {
      KeysOf(s.associations[(a.path, a.id)]);
      assert AssociationIndexed(s, (a.path, a.id));
      forall k, p | k in stale
        ensures !Uses(after, k, p)
      {
        assert k.id == a.id && k !in AssociationKeys(a);
        assert forall key :: key in after.associations && key.1 == a.id ==> key == (a.path, a.id);
      }
    }
  }

  /** deleteAssociation, given the stored record. */
  lemma DeleteAssociationEffect(s: Store, a: Association)
    requires UniqueIds(s.associations) && (a.path, a.id) in s.associations
    ensures AllHarmless(s, DeleteAssociationWrites(a))
    ensures var s' := Apply(s, DeleteAssociationWrites(a));
      s' == s.(associations := s.associations - {(a.path, a.id)}, index := s'.index)
  {
    var first := DeleteAssociation(a.path, a.id);
    var mid := Step(s, first);
    KeysOf(a);
    forall k, p | k in AssociationKeys(a)
      ensures !Uses(mid, k, p)
    {
    }
    UnusedDeletes(mid, AssociationKeys(a));
    assert [first][1..] == [];
    AllHarmlessConcat(s, [first], DeleteKeys(AssociationKeys(a)));
    ApplyConcat(s, [first], DeleteKeys(AssociationKeys(a)));
  }

  // ------------------------------------------------------------ storage methods

  method PutAssociationRecord(st: Storage, a: Association) returns (ok: bool)
    modifies st
    ensures Ran(old(st.data), old(st.budget), Outcome(PutAssociationWrites(old(st.data), a), true), st.data, st.budget, ok)
  {
    ghost var s, b := st.data, st.budget;
    var key := (a.path, a.id);
    var stale := if key in st.data.associations
      then DeleteKeys(Without(AssociationKeys(st.data.associations[key]), AssociationKeys(a))) else [];
    var puts := PutPaths(AssociationKeys(a), a.path);
    ok := st.WriteAll(puts);
    ghost var s1, b1, ok1 := st.data, st.budget, ok;
    if ok {
      ok := st.Write(PutAssociation(a));
    }
    RanThen(s, b, Outcome(puts, true), s1, b1, ok1, Outcome([PutAssociation(a)], true), st.data, st.budget, ok);
    ghost var s2, b2, ok2 := st.data, st.budget, ok;
    if ok {
      ok := st.WriteAll(stale);
    }
    RanThen(s, b, Outcome(puts + [PutAssociation(a)], true), s2, b2, ok2, Outcome(stale, true), st.data, st.budget, ok);
  }

  method DeleteAssociationRecord(st: Storage, a: Association) returns (ok: bool)
    modifies st
    ensures Ran(old(st.data), old(st.budget), Outcome(DeleteAssociationWrites(a), true), st.data, st.budget, ok)
  {
    ghost var s, b := st.data, st.budget;
    ok := st.Write(DeleteAssociation(a.path, a.id));
    ghost var s1, b1, ok1 := st.data, st.budget, ok;
    if ok {
      ok := st.WriteAll(DeleteKeys(AssociationKeys(a)));
    }
    RanThen(s, b, Outcome([DeleteAssociation(a.path, a.id)], true), s1, b1, ok1,
      Outcome(DeleteKeys(AssociationKeys(a)), true), st.data, st.budget, ok);
  }

  ghost function ReservingIds(s: Store, destinationRef: string, name: string): set<string> {
    set key | key in s.associations && Reserves(s.associations[key], destinationRef, name) :: key.1
  }

  /** listAssociationNameReservationIDs equals a scan of all associations. */
  method ListReservingIds(st: Storage, destinationRef: string, name: string) returns (ids: seq<string>)
    requires AssociationsIndexed(st.data) && UniqueIds(st.data.associations)
    ensures Lists(ids, ReservingIds(st.data, destinationRef, name))
  {
    var listed := ListChildren(
      set k | k in st.data.index && k.ByName? && k.destinationRef == destinationRef && k.name == name :: k.id);
    ids := [];
    for i := 0 to |listed|
      invariant NoDuplicates(ids)
      invariant forall id :: id in ids <==> id in listed[..i] && id in ReservingIds(st.data, destinationRef, name)
    {
      assert listed[..i + 1] == listed[..i] + [listed[i]] && listed[i] in listed && listed[i] !in listed[..i];
      var key := ByName(destinationRef, name, listed[i]);
      var path := st.data.index[key];
      if path != "" && (path, listed[i]) in st.data.associations {
        if Reserves(st.data.associations[(path, listed[i])], destinationRef, name) {
          ids := ids + [listed[i]];
        }
      }
      ReservedIsIndexed(st.data, destinationRef, name, listed[i]);
    }
    forall id | id in ReservingIds(st.data, destinationRef, name)
      ensures id in listed
    {
      ReservedIsIndexed(st.data, destinationRef, name, id);
    }
    assert listed[..|listed|] == listed;
  }

  lemma ReservedIsIndexed(s: Store, destinationRef: string, name: string, id: string)
    requires AssociationsIndexed(s) && UniqueIds(s.associations)
    ensures id in ReservingIds(s, destinationRef, name) ==>
      var k := ByName(destinationRef, name, id);
      k in s.index && (s.index[k], id) in s.associations &&
      Reserves(s.associations[(s.index[k], id)], destinationRef, name)
  {
    if id in ReservingIds(s, destinationRef, name) {
      var key :| key in s.associations && Reserves(s.associations[key], destinationRef, name) && key.1 == id;
      assert AssociationIndexed(s, key);
      KeysOf(s.associations[key]);
    }
  }

  /** listAssociationIDsForDestination equals a scan of all associations. */
  method ListIdsForDestination(st: Storage, destinationType: string, destinationName: string) returns (ids: seq<string>)
    requires AssociationsIndexed(st.data) && UniqueIds(st.data.associations)
    ensures Lists(ids, set key | key in st.data.associations &&
      AtDestination(st.data.associations[key], destinationType, destinationName) :: key.1)
  {
    var listed := ListChildren(set k | k in st.data.index && k.ByDestination? && k.destinationType == destinationType &&
      k.destinationName == destinationName :: k.id);
    ids := [];
    ghost var live := set key | key in st.data.associations &&
      AtDestination(st.data.associations[key], destinationType, destinationName) :: key.1;
    for i := 0 to |listed|
      invariant NoDuplicates(ids)
      invariant forall id :: id in ids <==> id in listed[..i] && id in live
    {
      assert listed[..i + 1] == listed[..i] + [listed[i]] && listed[i] in listed && listed[i] !in listed[..i];
      var path := st.data.index[ByDestination(destinationType, destinationName, listed[i])];
      if path != "" && (path, listed[i]) in st.data.associations {
        if AtDestination(st.data.associations[(path, listed[i])], destinationType, destinationName) {
          ids := ids + [listed[i]];
        }
      }
      if listed[i] in live {
        DestinationIsIndexed(st.data, destinationType, destinationName, listed[i]);
      }
    }
    forall id | id in live
      ensures id in listed
    {
      DestinationIsIndexed(st.data, destinationType, destinationName, id);
    }
    assert listed[..|listed|] == listed;
  }

  predicate AtDestination(a: Association, destinationType: string, destinationName: string) {
    a.destinationType == destinationType && a.destinationName == destinationName
  }

  lemma DestinationIsIndexed(s: Store, destinationType: string, destinationName: string, id: string)
    requires AssociationsIndexed(s) && UniqueIds(s.associations)
    requires exists key ::
      key in s.associations && AtDestination(s.associations[key], destinationType, destinationName) && key.1 == id
    ensures var k := ByDestination(destinationType, destinationName, id);
      k in s.index && s.index[k] != "" && (s.index[k], id) in s.associations &&
      AtDestination(s.associations[(s.index[k], id)], destinationType, destinationName)
  {
    var key :| key in s.associations && AtDestination(s.associations[key], destinationType, destinationName) && key.1 == id;
    assert AssociationIndexed(s, key);
    assert AssociationKeys(s.associations[key])[0] == ByDestination(destinationType, destinationName, id);
  }

  // ---------------------------------------------------------- index completeness

  /** After every single write of a put or a delete each stored association still has
      all its index entries. */
  lemma AssociationWritesKeepIndexes(s: Store, a: Association, k: nat)
    requires AssociationsIndexed(s) && UniqueIds(s.associations) && OwnsId(s, a) && a.path != ""
    ensures k <= |PutAssociationWrites(s, a)| ==> AssociationsIndexed(Apply(s, PutAssociationWrites(s, a)[..k]))
    ensures (a.path, a.id) in s.associations && k <= |DeleteAssociationWrites(a)| ==>
      AssociationsIndexed(Apply(s, DeleteAssociationWrites(a)[..k]))
  {
    PutAssociationEffect(s, a);
    if k <= |PutAssociationWrites(s, a)| {
      HarmlessPrefix(s, PutAssociationWrites(s, a), k);
    }
    if (a.path, a.id) in s.associations && k <= |DeleteAssociationWrites(a)| {
      DeleteAssociationEffect(s, a);
      HarmlessPrefix(s, DeleteAssociationWrites(a), k);
    }
  }
}
