/** Pruning of finished operations: one bounded pass, and what repeated passes leave
    (internal/backend/storage_outbox.go). */
module TerminalPruning {
  import opened Sets
  import opened Records
  import opened OutboxQueries
  import opened OutboxStorage

  const TERMINAL_RETENTION: nat := 7 * 24 * 3600

  /** Zero stands for "no limit" in the two deletion limits. */
  datatype Limits = Limits(maxRecords: nat, expired: nat, excess: nat)

  /** terminalOutboxRetentionTime: zero stands for a time that does not parse. */
  function RetentionTime(r: OutboxRecord): Time {
    if r.updatedTime != 0 then r.updatedTime else r.createdTime
  }

  predicate Expired(r: OutboxRecord, now: Time) {
    RetentionTime(r) != 0 && RetentionTime(r) + TERMINAL_RETENTION <= now
  }

  function RetentionKey(r: OutboxRecord): DueKey { DueKey(RetentionTime(r), r.id) }

  predicate Older(a: OutboxRecord, b: OutboxRecord) { DueLess(RetentionKey(a), RetentionKey(b)) }

  predicate OldestFirst(records: seq<OutboxRecord>) {
    forall i, j :: 0 <= i < j < |records| ==> Older(records[i], records[j])
  }

  function Ids(records: seq<OutboxRecord>): set<string> { set r | r in records :: r.id }

  /** sort.Slice by retention time, then id, over records with different ids. */
  method SortByRetention(records: seq<OutboxRecord>) returns (sorted: seq<OutboxRecord>)
    requires forall i, j :: 0 <= i < j < |records| ==> records[i].id != records[j].id
    ensures OldestFirst(sorted) && |sorted| == |records|
    ensures forall r :: r in sorted <==> r in records
  {
    sorted := [];
    for i := 0 to |records|
      invariant OldestFirst(sorted) && |sorted| == i
      invariant forall r :: r in sorted <==> r in records[..i]
    {
      var record, at := records[i], 0;
      while at < |sorted| && Older(sorted[at], record)
        invariant at <= |sorted|
        invariant forall j :: 0 <= j < at ==> Older(sorted[j], record)
      {
        at := at + 1;
      }
      forall j | at <= j < |sorted|
        ensures Older(record, sorted[j])
      {
        assert sorted[at] in sorted && sorted[at].id != record.id;
        OneIsOlder(record, sorted[at]);
        if at < j {
          DueLessTransitive(RetentionKey(record), RetentionKey(sorted[at]), RetentionKey(sorted[j]));
        }
      }
      assert records[..i + 1] == records[..i] + [record] && sorted == sorted[..at] + sorted[at..];
      sorted := sorted[..at] + [record] + sorted[at..];
    }
    assert records[..|records|] == records;
  }

  lemma OneIsOlder(a: OutboxRecord, b: OutboxRecord)
    ensures !(Older(a, b) && Older(b, a)) && !Older(a, a)
    ensures a.id != b.id ==> Older(a, b) || Older(b, a)
  {
    Text.LessTrichotomy(a.id, b.id);
  }

  // ----------------------------------------------------------------- selection

  function ExpiredOnly(records: seq<OutboxRecord>, now: Time): (expired: seq<OutboxRecord>)
    ensures forall r :: r in expired <==> r in records && Expired(r, now)
  {
    if records == [] then []
    else
      var front, last := records[..|records| - 1], records[|records| - 1];
      assert records == front + [last];
      ExpiredOnly(front, now) + if Expired(last, now) then [last] else []
  }

  function FirstOf(records: seq<OutboxRecord>, limit: nat): seq<OutboxRecord> {
    if limit == 0 || |records| <= limit then records else records[..limit]
  }

  lemma FirstOfNext(records: seq<OutboxRecord>, next: OutboxRecord, limit: nat)
    ensures FirstOf(records + [next], limit) ==
      FirstOf(records, limit) + if limit == 0 || |FirstOf(records, limit)| < limit then [next] else []
  {
  }

  function Excess(records: seq<OutboxRecord>, maxRecords: nat): (excess: nat)
    ensures excess <= |records|
  {
    if |records| > maxRecords then |records| - maxRecords else 0
  }

  /** The oldest records above the maximum, then expired ones among the rest, oldest
      first, each group up to its own limit. */
  function Selected(sorted: seq<OutboxRecord>, now: Time, limits: Limits): seq<OutboxRecord> {
    var excess := Excess(sorted, limits.maxRecords);
    Chosen(sorted[..excess], ExpiredOnly(sorted[excess..], now), limits)
  }

  function Chosen(surplus: seq<OutboxRecord>, stale: seq<OutboxRecord>, limits: Limits): seq<OutboxRecord> {
    FirstOf(surplus, limits.excess) + FirstOf(stale, limits.expired)
  }

  lemma ChosenSurplus(surplus: seq<OutboxRecord>, next: OutboxRecord, limits: Limits)
    ensures Chosen(surplus + [next], [], limits) == Chosen(surplus, [], limits) +
      if limits.excess == 0 || |FirstOf(surplus, limits.excess)| < limits.excess then [next] else []
    ensures |FirstOf(surplus + [next], limits.excess)| - |FirstOf(surplus, limits.excess)| ==
      if limits.excess == 0 || |FirstOf(surplus, limits.excess)| < limits.excess then 1 else 0
  {
    FirstOfNext(surplus, next, limits.excess);
  }

  lemma ChosenStale(surplus: seq<OutboxRecord>, stale: seq<OutboxRecord>, next: OutboxRecord, limits: Limits)
    ensures Chosen(surplus, stale + [next], limits) == Chosen(surplus, stale, limits) +
      if limits.expired == 0 || |FirstOf(stale, limits.expired)| < limits.expired then [next] else []
    ensures |FirstOf(stale + [next], limits.expired)| - |FirstOf(stale, limits.expired)| ==
      if limits.expired == 0 || |FirstOf(stale, limits.expired)| < limits.expired then 1 else 0
  {
    FirstOfNext(stale, next, limits.expired);
  }

  lemma ExpiredNext(others: seq<OutboxRecord>, next: OutboxRecord, now: Time)
    ensures ExpiredOnly(others + [next], now) == ExpiredOnly(others, now) + if Expired(next, now) then [next] else []
  {
    assert (others + [next])[..|others|] == others;
  }

  /** Where the loop below stands after `i` records. */
  ghost predicate Split(
    sorted: seq<OutboxRecord>, i: nat, excess: nat, surplus: seq<OutboxRecord>, others: seq<OutboxRecord>)
  {
    i <= |sorted| && sorted[..i] == surplus + others && |surplus| == if i <= excess then i else excess
  }

  lemma SplitNext(sorted: seq<OutboxRecord>, i: nat, excess: nat, surplus: seq<OutboxRecord>, others: seq<OutboxRecord>)
    requires Split(sorted, i, excess, surplus, others) && i < |sorted|
    ensures i < excess ==> others == [] && Split(sorted, i + 1, excess, surplus + [sorted[i]], others)
    ensures i >= excess ==> Split(sorted, i + 1, excess, surplus, others + [sorted[i]])
  {
    assert sorted[..i + 1] == sorted[..i] + [sorted[i]];
  }

  lemma SplitEnd(
    sorted: seq<OutboxRecord>, surplus: seq<OutboxRecord>, others: seq<OutboxRecord>, now: Time, limits: Limits)
    requires Split(sorted, |sorted|, Excess(sorted, limits.maxRecords), surplus, others)
    ensures Selected(sorted, now, limits) == Chosen(surplus, ExpiredOnly(others, now), limits)
  {
    var excess := Excess(sorted, limits.maxRecords);
    assert sorted[..|sorted|] == sorted && surplus == sorted[..excess] && others == sorted[excess..];
  }

  /** The selection loop of terminalOutboxPruneCandidates. */
  method Select(sorted: seq<OutboxRecord>, now: Time, limits: Limits) returns (candidates: seq<OutboxRecord>)
    ensures candidates == Selected(sorted, now, limits)
  {
    var excess := Excess(sorted, limits.maxRecords);
    var excessSelected, expiredSelected := 0, 0;
    candidates := [];
    ghost var surplus, others: seq<OutboxRecord> := [], [];
    for i := 0 to |sorted|
      invariant Split(sorted, i, excess, surplus, others)
      invariant candidates == Chosen(surplus, ExpiredOnly(others, now), limits)
      invariant excessSelected == |FirstOf(surplus, limits.excess)|
      invariant expiredSelected == |FirstOf(ExpiredOnly(others, now), limits.expired)|
    {
      var record := sorted[i];
      var expired := Expired(record, now);
      SplitNext(sorted, i, excess, surplus, others);
      if i < excess {
        ChosenSurplus(surplus, record, limits);
        surplus := surplus + [record];
        if limits.excess == 0 || excessSelected < limits.excess {
          candidates, excessSelected := candidates + [record], excessSelected + 1;
        }
      } else {
        ChosenStale(surplus, ExpiredOnly(others, now), record, limits);
        ExpiredNext(others, record, now);
        others := others + [record];
        if expired && (limits.expired == 0 || expiredSelected < limits.expired) {
          candidates, expiredSelected := candidates + [record], expiredSelected + 1;
        }
      }
    }
    SplitEnd(sorted, surplus, others, now, limits);
  }

  /** terminalOutboxPruneCandidates */
  method PruneCandidates(records: seq<OutboxRecord>, now: Time, limits: Limits)
    returns (sorted: seq<OutboxRecord>, candidates: seq<OutboxRecord>)
    requires forall i, j :: 0 <= i < j < |records| ==> records[i].id != records[j].id
    ensures OldestFirst(sorted) && |sorted| == |records| && forall r :: r in sorted <==> r in records
    ensures candidates == Selected(sorted, now, limits)
  {
    sorted := SortByRetention(records);
    candidates := Select(sorted, now, limits);
  }

  predicate Settled(records: seq<OutboxRecord>, now: Time, limits: Limits) {
    |records| <= limits.maxRecords && forall r :: r in records ==> !Expired(r, now)
  }

  lemma ChosenFromBoth(surplus: seq<OutboxRecord>, others: seq<OutboxRecord>, now: Time, limits: Limits)
    ensures var chosen := Chosen(surplus, ExpiredOnly(others, now), limits);
      (limits.expired > 0 && limits.excess > 0 ==> |chosen| <= limits.expired + limits.excess) &&
      (chosen == [] <==> surplus == [] && forall r :: r in others ==> !Expired(r, now)) &&
      (forall r :: r in chosen ==> r in surplus + others && (r in FirstOf(surplus, limits.excess) || Expired(r, now)))
  {
    var expired := ExpiredOnly(others, now);
    assert FirstOf(expired, limits.expired) == [] ==> expired == [];
    assert expired != [] ==> expired[0] in expired;
  }

  /** A selection is bounded by its limits, is empty only when nothing is left to prune,
      and takes an unexpired record only if it is older than every record it leaves. */
  lemma SelectionIsBoundedAndOldest(sorted: seq<OutboxRecord>, now: Time, limits: Limits)
    requires OldestFirst(sorted)
    ensures var selected := Selected(sorted, now, limits);
      (limits.expired > 0 && limits.excess > 0 ==> |selected| <= limits.expired + limits.excess) &&
      (selected == [] <==> Settled(sorted, now, limits)) &&
      (forall r :: r in selected ==> r in sorted) &&
      forall gone, kept :: gone in selected && kept in sorted && kept !in selected ==>
        Expired(gone, now) || Older(gone, kept)
  {
    var excess := Excess(sorted, limits.maxRecords);
    ChosenFromBoth(sorted[..excess], sorted[excess..], now, limits);
    assert sorted == sorted[..excess] + sorted[excess..];
    assert excess == 0 ==> sorted[excess..] == sorted;
    var selected, first := Selected(sorted, now, limits), FirstOf(sorted[..excess], limits.excess);
    forall gone, kept | gone in selected && kept in sorted && kept !in selected
      ensures Expired(gone, now) || Older(gone, kept)
    {
      if gone in first {
        LeadingAreOlder(sorted, first, gone, kept);
      }
    }
  }

  lemma LeadingAreOlder(sorted: seq<OutboxRecord>, first: seq<OutboxRecord>, gone: OutboxRecord, kept: OutboxRecord)
    requires OldestFirst(sorted) && first <= sorted && gone in first && kept in sorted && kept !in first
    ensures Older(gone, kept)
  {
    var i :| 0 <= i < |first| && first[i] == gone;
    var j :| 0 <= j < |sorted| && sorted[j] == kept;
    assert first == sorted[..|first|];
  }

  // -------------------------------------------------------------------- a pass

  predicate Finished(outbox: map<string, OutboxRecord>, r: OutboxRecord) {
    r.id in outbox && outbox[r.id] == r && r.state == FailedTerminal
  }

  ghost function FinishedIds(outbox: map<string, OutboxRecord>): set<string> {
    set id | id in outbox && outbox[id].state == FailedTerminal
  }

  /** `sorted` holds every finished operation once, oldest first. */
  ghost predicate FinishedInOrder(outbox: map<string, OutboxRecord>, sorted: seq<OutboxRecord>) {
    OldestFirst(sorted) && forall r :: r in sorted <==> Finished(outbox, r)
  }

  function UnclaimedIds(records: seq<OutboxRecord>, clock: Time): set<string> {
    set r | r in records && !r.ClaimActive(clock) :: r.id
  }

  /** terminalOutboxRecords */
  method FinishedRecords(st: Storage) returns (records: seq<OutboxRecord>)
    requires IndexComplete(st.data)
    ensures forall i, j :: 0 <= i < j < |records| ==> records[i].id != records[j].id
    ensures forall r :: r in records <==> Finished(st.data.outbox, r)
  {
    var ids := ListIdsForState(st, FailedTerminal);
    records := [];
    for i := 0 to |ids|
      invariant |records| == i && forall j :: 0 <= j < i ==>
        Finished(st.data.outbox, records[j]) && records[j].id == ids[j]
    {
      assert ids[i] in ids && Indexed(st.data, ids[i]);
      records := records + [st.data.outbox[ids[i]]];
    }
    forall r | Finished(st.data.outbox, r)
      ensures r in records
    {
      assert r.id in ids;
      var i :| 0 <= i < |ids| && ids[i] == r.id;
      assert records[i].id == r.id;
    }
  }

  lemma {:induction false} DeletionsOnly(s: Store, ws: seq<Write>, id: string)
    requires forall w :: w in ws ==> w.DeleteIndex? || w == DeleteOutbox(id)
    ensures Apply(s, ws) == s.(outbox := Apply(s, ws).outbox, index := Apply(s, ws).index)
    ensures Apply(s, ws).outbox == s.outbox || Apply(s, ws).outbox == s.outbox - {id}
    decreases |ws|
  {
    if ws != [] {
      assert ws[0] in ws && forall w :: w in ws[1..] ==> w in ws;
      DeletionsOnly(Step(s, ws[0]), ws[1..], id);
      assert s.outbox - {id} - {id} == s.outbox - {id};
    }
  }

  /** pruneTerminalOutboxRecord: the record goes only if it is still the one that was
      listed and no claim on it is active. */
  method PruneOne(st: Storage, expected: OutboxRecord, clock: Time) returns (pruned: bool, ok: bool)
    requires IndexComplete(st.data)
    modifies st
    ensures IndexComplete(st.data)
    ensures st.data == old(st.data).(outbox := st.data.outbox, index := st.data.index)
    ensures ok ==> pruned == (Finished(old(st.data).outbox, expected) && !expected.ClaimActive(clock))
    ensures ok ==> st.data.outbox == if pruned then old(st.data).outbox - {expected.id} else old(st.data).outbox
    ensures !ok ==> !pruned && st.budget == 0
    ensures st.data.outbox == old(st.data).outbox ||
            (Finished(old(st.data).outbox, expected) && st.data.outbox == old(st.data).outbox - {expected.id})
  {
    pruned, ok := false, true;
    if expected.id in st.data.outbox {
      var current := st.data.outbox[expected.id];
      if current == expected && current.state == FailedTerminal && !current.ClaimActive(clock) {
        ghost var s, writes := st.data, DeleteWrites(st.data, current);
        ghost var done := if |writes| <= st.budget then |writes| else st.budget;
        ok := DeleteOutboxRecord(st, current);
        pruned := ok;
        assert writes[..|writes|] == writes;
        OutboxWritesKeepIndexes(s, current, done);
        DeletionsOnly(s, writes[..done], current.id);
        assert forall id :: id in s.outbox ==> Indexed(s, id);
        DeleteEffect(s, current);
      }
    }
  }

  /** What one completed pass leaves of the outbox. */
  ghost predicate Pass(
    before: map<string, OutboxRecord>, after: map<string, OutboxRecord>, now: Time, clock: Time, limits: Limits)
  {
    exists sorted ::
      FinishedInOrder(before, sorted) && after == before - UnclaimedIds(Selected(sorted, now, limits), clock)
  }

  /** The deletion loop of pruneTerminalOutboxRecordsLimit. */
  method DeleteCandidates(st: Storage, candidates: seq<OutboxRecord>, clock: Time) returns (deleted: nat, ok: bool)
    requires IndexComplete(st.data) && forall r :: r in candidates ==> Finished(st.data.outbox, r)
    modifies st
    ensures IndexComplete(st.data)
    ensures st.data == old(st.data).(outbox := st.data.outbox, index := st.data.index)
    ensures st.data.outbox.Items <= old(st.data).outbox.Items
    ensures old(st.data).outbox.Keys - st.data.outbox.Keys <= Ids(candidates)
    ensures deleted <= |candidates|
    ensures ok ==> st.data.outbox == old(st.data).outbox - UnclaimedIds(candidates, clock)
  {
    ghost var start := st.data;
    deleted, ok := 0, true;
    for i := 0 to |candidates|
      invariant IndexComplete(st.data) && st.data == start.(outbox := st.data.outbox, index := st.data.index)
      invariant st.data.outbox == start.outbox - UnclaimedIds(candidates[..i], clock)
      invariant deleted <= i
    {
      assert candidates[..i + 1] == candidates[..i] + [candidates[i]];
      RemovedNext(start.outbox, candidates[..i], candidates[i], clock);
      var pruned;
      pruned, ok := PruneOne(st, candidates[i], clock);
      if !ok {
        return;
      }
      if pruned {
        deleted := deleted + 1;
      }
    }
    assert candidates[..|candidates|] == candidates;
  }

  /** pruneTerminalOutboxRecordsLimit, complete or cut short by a storage failure. */
  method PruneTerminalRecords(st: Storage, now: Time, clock: Time, limits: Limits) returns (deleted: nat, ok: bool)
    requires IndexComplete(st.data)
    modifies st
    ensures IndexComplete(st.data)
    ensures st.data == old(st.data).(outbox := st.data.outbox, index := st.data.index)
    ensures st.data.outbox.Items <= old(st.data).outbox.Items
    ensures old(st.data).outbox.Keys - st.data.outbox.Keys <= FinishedIds(old(st.data).outbox)
    ensures limits.expired > 0 && limits.excess > 0 ==> deleted <= limits.expired + limits.excess
    ensures ok ==> Pass(old(st.data).outbox, st.data.outbox, now, clock, limits)
  {
    var records := FinishedRecords(st);
    var sorted, candidates := PruneCandidates(records, now, limits);
    SelectionIsBoundedAndOldest(sorted, now, limits);
    assert FinishedInOrder(st.data.outbox, sorted);
    deleted, ok := DeleteCandidates(st, candidates, clock);
  }

  lemma RemovedNext(outbox: map<string, OutboxRecord>, seen: seq<OutboxRecord>, next: OutboxRecord, clock: Time)
    requires forall r :: r in seen + [next] ==> Finished(outbox, r)
    ensures var left := outbox - UnclaimedIds(seen, clock);
            outbox - UnclaimedIds(seen + [next], clock) ==
              if Finished(left, next) && !next.ClaimActive(clock) then left - {next.id} else left
  {
    var left := outbox - UnclaimedIds(seen, clock);
    assert UnclaimedIds(seen + [next], clock) == UnclaimedIds(seen, clock) + if next.ClaimActive(clock) then {} else {next.id};
    assert (seen + [next])[|seen|] == next;
    if next.id !in left {
      assert Finished(outbox, next) && next.id in UnclaimedIds(seen, clock);
      var r :| r in seen && !r.ClaimActive(clock) && r.id == next.id;
      assert r in seen + [next];
    }
  }

  // ---------------------------------------------------------- repeated passes

  /** Finished operations carry no claim: failing an operation clears it. */
  ghost predicate FinishedUnclaimed(outbox: map<string, OutboxRecord>) {
    forall id :: id in outbox ==> outbox[id].id == id && (outbox[id].state == FailedTerminal ==> outbox[id].claimOwner == "")
  }

  ghost predicate NothingToPrune(outbox: map<string, OutboxRecord>, now: Time, limits: Limits) {
    |FinishedIds(outbox)| <= limits.maxRecords &&
    forall id :: id in FinishedIds(outbox) ==> !Expired(outbox[id], now)
  }

  lemma SortedHaveDistinctIds(outbox: map<string, OutboxRecord>, sorted: seq<OutboxRecord>)
    requires FinishedInOrder(outbox, sorted)
    ensures forall i, j :: 0 <= i < j < |sorted| ==> sorted[i].id != sorted[j].id
  {
    forall i, j | 0 <= i < j < |sorted|
      ensures sorted[i].id != sorted[j].id
    {
      assert sorted[i] in sorted && sorted[j] in sorted;
      OneIsOlder(sorted[i], sorted[j]);
      assert Older(sorted[i], sorted[j]);
    }
  }

  lemma FinishedAreSorted(outbox: map<string, OutboxRecord>, sorted: seq<OutboxRecord>, now: Time, limits: Limits)
    requires FinishedInOrder(outbox, sorted) && FinishedUnclaimed(outbox)
    ensures Settled(sorted, now, limits) <==> NothingToPrune(outbox, now, limits)
  {
    SortedHaveDistinctIds(outbox, sorted);
    var ids := seq(|sorted|, i requires 0 <= i < |sorted| => sorted[i].id);
    forall id | id in FinishedIds(outbox)
      ensures id in ids && outbox[id] in sorted
    {
      assert Finished(outbox, outbox[id]);
      var i :| 0 <= i < |sorted| && sorted[i] == outbox[id];
      assert ids[i] == id;
    }
    forall id | id in ids
      ensures id in FinishedIds(outbox)
    {
      var i :| 0 <= i < |ids| && ids[i] == id;
      assert sorted[i] in sorted;
    }
    ListedCount(ids, FinishedIds(outbox));
  }

  /** A pass removes some finished operation exactly when there is one to prune. */
  lemma PassShrinks(
    before: map<string, OutboxRecord>, after: map<string, OutboxRecord>, now: Time, clock: Time, limits: Limits)
    requires Pass(before, after, now, clock, limits) && FinishedUnclaimed(before)
    ensures FinishedUnclaimed(after)
    ensures if NothingToPrune(before, now, limits) then after == before else FinishedIds(after) < FinishedIds(before)
  {
    var sorted :| FinishedInOrder(before, sorted) && after == before - UnclaimedIds(Selected(sorted, now, limits), clock);
    SelectionIsBoundedAndOldest(sorted, now, limits);
    FinishedAreSorted(before, sorted, now, limits);
    var selected := Selected(sorted, now, limits);
    if selected != [] {
      var r := selected[0];
      assert r in selected && r in sorted && Finished(before, r) && !r.ClaimActive(clock);
      assert r.id in UnclaimedIds(selected, clock);
      assert r.id in FinishedIds(before) && r.id !in FinishedIds(after);
    }
  }

  /** As many passes as there are finished operations leave nothing to prune. */
  lemma {:induction false} PassesSettle(runs: seq<map<string, OutboxRecord>>, now: Time, clock: Time, limits: Limits)
    requires runs != [] && FinishedUnclaimed(runs[0])
    requires forall i :: 0 <= i < |runs| - 1 ==> Pass(runs[i], runs[i + 1], now, clock, limits)
    requires |runs| > |FinishedIds(runs[0])| || NothingToPrune(runs[0], now, limits)
    ensures NothingToPrune(runs[|runs| - 1], now, limits)
  {
    if |runs| > 1 {
      PassShrinks(runs[0], runs[1], now, clock, limits);
      if !NothingToPrune(runs[0], now, limits) {
        SmallerSet(FinishedIds(runs[1]), FinishedIds(runs[0]));
      }
      PassesSettle(runs[1..], now, clock, limits);
    } else {
      assert |FinishedIds(runs[0])| == 0 ==> FinishedIds(runs[0]) == {};
    }
  }
}
