/**
 Workspace integration bindings and the in-memory repository that stores them: on values, as an abstract index of
 active bindings, and as an object whose scans follow insertion order. Each repository method runs under its lock.
 Configuration, metadata and timestamps of a binding are not modelled.
 */
module WorkspaceBindings {
  import opened Outcomes
  import opened Integrations
  import Ordering

  datatype BindingStatus = Active | Disabled | Pending | Faulty

  datatype Binding = Binding(
    bindingId: string, workspaceId: string, userId: string, providerId: string,
    status: BindingStatus, credential: Option<Credential>, grantedScopes: seq<string>)

  datatype BindingError =
    | Duplicate | StorageFull | NotFound | AccessDenied | ProviderUnknown | ProviderBlocked | ScopesNotGranted
    | CredentialUnusable | CredentialForeign | OwnershipAbsent | NotUsable | CapabilityMissing | ScopesRepeated

  type Records = map<string, Binding>

  // ---------- the repository on values ----------

  predicate SameSlot(a: Binding, b: Binding) { a.workspaceId == b.workspaceId && a.providerId == b.providerId }

  // Some other record is active for the same workspace and provider.
  predicate SlotIsTaken(records: Records, b: Binding) {
    exists id :: id in records && id != b.bindingId && records[id].status.Active? && SameSlot(records[id], b)
  }

  function Created(records: Records, maxRecords: nat, b: Binding): Result<Records, BindingError> {
    if b.bindingId in records then Err(Duplicate)
    else if b.status.Active? && SlotIsTaken(records, b) then Err(Duplicate)
    else if |records| >= maxRecords then Err(StorageFull)
    else Ok(records[b.bindingId := b])
  }

  function Updated(records: Records, b: Binding): Result<Records, BindingError> {
    if b.bindingId !in records then Err(NotFound)
    else if b.status.Active? && SlotIsTaken(records, b) then Err(Duplicate)
    else Ok(records[b.bindingId := b])
  }

  predicate BothActive(a: Binding, b: Binding) { a.status.Active? && b.status.Active? && SameSlot(a, b) }

  // Records are filed under their own identifier, and no two are active for one workspace and provider.
  ghost predicate IsConsistent(records: Records) {
    && (forall id :: id in records ==> records[id].bindingId == id)
    && (forall i, j :: i in records && j in records && i != j ==> !BothActive(records[i], records[j]))
  }

  // No record but the binding's own is active for its workspace and provider, if the binding is active itself.
  predicate SlotIsFree(records: Records, b: Binding) {
    b.status == Active ==>
      forall id :: id in records && id != b.bindingId && records[id].status == Active ==>
        records[id].workspaceId != b.workspaceId || records[id].providerId != b.providerId
  }

  // When a binding can be created: under a new identifier, in a free slot, with room for it.
  lemma CreateSucceedsExactly(records: Records, maxRecords: nat, b: Binding)
    ensures Created(records, maxRecords, b) ==
            if b.bindingId in records || !SlotIsFree(records, b) then Err(Duplicate)
            else if |records| < maxRecords then Ok(records[b.bindingId := b])
            else Err(StorageFull)
  {
  }

  // When one can be updated: under an identifier in use, in a free slot.
  lemma UpdateSucceedsExactly(records: Records, b: Binding)
    ensures Updated(records, b) ==
            if b.bindingId !in records then Err(NotFound)
            else if SlotIsFree(records, b) then Ok(records[b.bindingId := b])
            else Err(Duplicate)
  {
  }

  lemma WriteKeepsConsistent(records: Records, b: Binding)
    requires IsConsistent(records) && (b.status.Active? ==> !SlotIsTaken(records, b))
    ensures IsConsistent(records[b.bindingId := b])
  {
    var records' := records[b.bindingId := b];
    forall i, j | i in records' && j in records' && i != j ensures !BothActive(records'[i], records'[j]) {
      if i != b.bindingId && j != b.bindingId {
        assert !BothActive(records[i], records[j]);
      }
    }
  }

  lemma CreateKeepsConsistent(records: Records, maxRecords: nat, b: Binding)
    requires IsConsistent(records) && |records| <= maxRecords && Created(records, maxRecords, b).Ok?
    ensures IsConsistent(Created(records, maxRecords, b).value) && |Created(records, maxRecords, b).value| <= maxRecords
  {
    WriteKeepsConsistent(records, b);
    assert records[b.bindingId := b].Keys == records.Keys + {b.bindingId};
    assert |records| == |records.Keys| && |records[b.bindingId := b]| == |records[b.bindingId := b].Keys|;
  }

  lemma UpdateKeepsConsistent(records: Records, b: Binding)
    requires IsConsistent(records) && Updated(records, b).Ok?
    ensures IsConsistent(Updated(records, b).value) && |Updated(records, b).value| == |records|
  {
    WriteKeepsConsistent(records, b);
    assert records[b.bindingId := b].Keys == records.Keys;
    assert |records| == |records.Keys| && |records[b.bindingId := b]| == |records[b.bindingId := b].Keys|;
  }

  lemma SmallerSet(a: set<string>, b: set<string>)
    requires a <= b
    ensures |a| <= |b|
  {
    assert b == a + (b - a);
  }

  lemma DeleteKeepsConsistent(records: Records, id: string)
    requires IsConsistent(records)
    ensures IsConsistent(records - {id}) && |records - {id}| <= |records|
  {
    assert (records - {id}).Keys <= records.Keys;
    SmallerSet((records - {id}).Keys, records.Keys);
    assert |records| == |records.Keys| && |records - {id}| == |(records - {id}).Keys|;
  }

  // ---------- the abstract index of active bindings ----------

  datatype Slot = Slot(workspaceId: string, providerId: string)

  function SlotOf(b: Binding): Slot { Slot(b.workspaceId, b.providerId) }

  ghost predicate IsActiveFor(records: Records, slot: Slot, id: string) {
    id in records && records[id].status.Active? && SlotOf(records[id]) == slot
  }

  function SlotsOf(records: Records): set<Slot> {
    set id | id in records && records[id].status.Active? :: SlotOf(records[id])
  }

  ghost function ActiveIdFor(records: Records, slot: Slot): (id: string)
    requires slot in SlotsOf(records)
    ensures IsActiveFor(records, slot, id)
  {
    var id :| id in records && records[id].status.Active? && SlotOf(records[id]) == slot;
    id
  }

  // Which binding is active for each workspace and provider.
  ghost function ActiveIndex(records: Records): (index: map<Slot, string>)
    requires IsConsistent(records)
    ensures forall slot :: slot in index <==> exists id :: IsActiveFor(records, slot, id)
    ensures forall slot, id :: IsActiveFor(records, slot, id) ==> slot in index && index[slot] == id
    ensures forall slot :: slot in index ==> IsActiveFor(records, slot, index[slot])
  {
    map slot | slot in SlotsOf(records) :: ActiveIdFor(records, slot)
  }

  // What writing a binding under its identifier does to the index: its old slot is given up, its new one taken.
  lemma IndexAfterWrite(records: Records, b: Binding)
    requires IsConsistent(records) && (b.status.Active? ==> !SlotIsTaken(records, b))
    ensures IsConsistent(records[b.bindingId := b])
    ensures var index, index' := ActiveIndex(records), ActiveIndex(records[b.bindingId := b]);
            forall slot ::
              slot in index' <==>
              (b.status.Active? && slot == SlotOf(b)) || (slot in index && index[slot] != b.bindingId)
    ensures var index, index' := ActiveIndex(records), ActiveIndex(records[b.bindingId := b]);
            forall slot :: slot in index' ==>
              index'[slot] == if b.status.Active? && slot == SlotOf(b) then b.bindingId else index[slot]
  {
    var records' := records[b.bindingId := b];
    var index, index' := ActiveIndex(records), ActiveIndex(records');
    forall slot
      ensures slot in index' <==>
              (b.status.Active? && slot == SlotOf(b)) || (slot in index && index[slot] != b.bindingId)
      ensures slot in index' ==>
              index'[slot] == if b.status.Active? && slot == SlotOf(b) then b.bindingId else index[slot]
    {
      if b.status.Active? && slot == SlotOf(b) {
        assert IsActiveFor(records', slot, b.bindingId);
      } else {
        if slot in index && index[slot] != b.bindingId {
          assert IsActiveFor(records', slot, index[slot]);
        }
        if slot in index' {
          assert IsActiveFor(records, slot, index'[slot]);
        }
      }
    }
  }

  lemma IndexAfterDelete(records: Records, id: string)
    requires IsConsistent(records)
    ensures IsConsistent(records - {id})
    ensures var index, index' := ActiveIndex(records), ActiveIndex(records - {id});
            forall slot :: (slot in index' <==> slot in index && index[slot] != id)
                           && (slot in index' ==> index'[slot] == index[slot])
  {
    var records' := records - {id};
    var index, index' := ActiveIndex(records), ActiveIndex(records');
    forall slot
      ensures (slot in index' <==> slot in index && index[slot] != id)
              && (slot in index' ==> index'[slot] == index[slot])
    {
      if slot in index && index[slot] != id {
        assert IsActiveFor(records', slot, index[slot]);
      }
      if slot in index' {
        assert IsActiveFor(records, slot, index'[slot]);
      }
    }
  }

  // ---------- the repository object ----------

  datatype Filter = Filter(
    workspaceId: Option<string>, userId: Option<string>, providerId: Option<string>,
    status: Option<BindingStatus>, limit: Option<nat>)

  predicate Matches(b: Binding, f: Filter) {
    && (f.workspaceId.Some? ==> b.workspaceId == f.workspaceId.value)
    && (f.userId.Some? ==> b.userId == f.userId.value)
    && (f.providerId.Some? ==> b.providerId == f.providerId.value)
    && (f.status.Some? ==> b.status == f.status.value)
  }

  function Without(order: seq<string>, id: string): seq<string> {
    if order == [] then []
    else Without(order[..|order| - 1], id) + (if order[|order| - 1] == id then [] else [order[|order| - 1]])
  }

  lemma {:induction false} WithoutKeeps(order: seq<string>, id: string)
    requires Distinct(order)
    ensures Distinct(Without(order, id))
    ensures forall x :: x in Without(order, id) <==> x in order && x != id
  {
    if order != [] {
      var front, last := order[..|order| - 1], order[|order| - 1];
      WithoutKeeps(front, id);
      assert order == front + [last] && last !in front;
      var rest := Without(front, id);
      forall i, j | 0 <= i < j < |rest + [last]| ensures (rest + [last])[i] != (rest + [last])[j] {
        assert rest[i] in rest;
      }
    }
  }

  // The records of these identifiers that match, in this order.
  function Matching(records: Records, ids: seq<string>, f: Filter): seq<Binding> {
    if ids == [] then []
    else
      var last := ids[|ids| - 1];
      Matching(records, ids[..|ids| - 1], f)
      + (if last in records && Matches(records[last], f) then [records[last]] else [])
  }

  lemma MatchingSnoc(records: Records, ids: seq<string>, i: nat, f: Filter)
    requires i < |ids|
    ensures ids[i] in ids
    ensures Matching(records, ids[..i + 1], f) ==
            Matching(records, ids[..i], f)
            + (if ids[i] in records && Matches(records[ids[i]], f) then [records[ids[i]]] else [])
  {
    assert ids[..i + 1][..i] == ids[..i];
  }

  function Listed(records: Records, order: seq<string>, f: Filter): seq<Binding> {
    var all := Matching(records, Ordering.Sort(Ordering.TextLeq, order), f);
    if f.limit.Some? && f.limit.value < |all| then all[..f.limit.value] else all
  }

  /** The in-memory repository. `order` is the insertion order of its dictionary, which the scans follow. */
  class InMemoryWorkspaceBindingRepository {
    const maxRecords: nat
    var records: Records
    var order: seq<string>

    ghost predicate Valid()
      reads this
    {
      && IsConsistent(records) && |records| <= maxRecords
      && Distinct(order) && (forall id :: id in order <==> id in records)
    }

    constructor (maxRecords: nat)
      ensures Valid() && records == map[] && this.maxRecords == maxRecords
    {
      this.maxRecords := maxRecords;
      records := map[];
      order := [];
    }

    // The scan the duplicate checks make.
    method HasActiveRival(b: Binding) returns (found: bool)
      requires Valid()
      ensures found == SlotIsTaken(records, b)
    {
      for i := 0 to |order|
        invariant forall k :: 0 <= k < i ==>
                    !(order[k] != b.bindingId && records[order[k]].status.Active? && SameSlot(records[order[k]], b))
      {
        var existing := records[order[i]];
        assert order[i] in order;
        if existing.bindingId != b.bindingId && SameSlot(existing, b) && existing.status.Active? {
          return true;
        }
      }
      forall id | id in records
        ensures !(id != b.bindingId && records[id].status.Active? && SameSlot(records[id], b))
      {
        assert id in order;
      }
      found := false;
    }

    method Create(b: Binding) returns (error: Option<BindingError>)
      requires Valid()
      modifies this
      ensures Valid()
      ensures match Created(old(records), maxRecords, b)
              case Ok(records') => error.None? && records == records' && order == old(order) + [b.bindingId]
              case Err(e) => error == Some(e) && records == old(records) && order == old(order)
    {
      if b.bindingId in records {
        return Some(Duplicate);
      }
      if b.status.Active? {
        var found := HasActiveRival(b);
        if found {
          return Some(Duplicate);
        }
      }
      if |records| >= maxRecords {
        return Some(StorageFull);
      }
      CreateKeepsConsistent(records, maxRecords, b);
      records := records[b.bindingId := b];
      order := order + [b.bindingId];
      error := None;
    }

    method Get(id: string) returns (b: Option<Binding>)
      ensures b == if id in records then Some(records[id]) else None
    {
      b := if id in records then Some(records[id]) else None;
    }

    // The linear scan returns what the abstract index says, whatever the insertion order.
    method GetByWorkspaceAndProvider(workspaceId: string, providerId: string) returns (b: Option<Binding>)
      requires Valid()
      ensures var index, slot := ActiveIndex(records), Slot(workspaceId, providerId);
              b == if slot in index then Some(records[index[slot]]) else None
    {
      ghost var slot := Slot(workspaceId, providerId);
      for i := 0 to |order|
        invariant forall k :: 0 <= k < i ==> !IsActiveFor(records, slot, order[k])
      {
        assert order[i] in order;
        var candidate := records[order[i]];
        if candidate.workspaceId == workspaceId && candidate.providerId == providerId && candidate.status.Active? {
          assert IsActiveFor(records, slot, order[i]);
          return Some(candidate);
        }
      }
      forall id ensures !IsActiveFor(records, slot, id) {
        if id in records {
          assert id in order;
        }
      }
      b := None;
    }

    method Update(b: Binding) returns (error: Option<BindingError>)
      requires Valid()
      modifies this`records
      ensures Valid()
      ensures match Updated(old(records), b)
              case Ok(records') => error.None? && records == records'
              case Err(e) => error == Some(e) && records == old(records)
    {
      if b.bindingId !in records {
        return Some(NotFound);
      }
      if b.status.Active? {
        var found := HasActiveRival(b);
        if found {
          return Some(Duplicate);
        }
      }
      UpdateKeepsConsistent(records, b);
      records := records[b.bindingId := b];
      error := None;
    }

    method Delete(id: string) returns (removed: bool)
      requires Valid()
      modifies this
      ensures Valid()
      ensures removed == (id in old(records)) && records == old(records) - {id}
      ensures order == Without(old(order), id)
    {
      removed := id in records;
      DeleteKeepsConsistent(records, id);
      WithoutKeeps(order, id);
      records := records - {id};
      order := Without(order, id);
    }

    method Count() returns (n: nat)
      ensures n == |records|
    {
      n := |records|;
    }

    method ListBindings(f: Filter) returns (found: seq<Binding>)
      requires Valid()
      ensures found == Listed(records, order, f)
    {
      var sorted := Ordering.Sort(Ordering.TextLeq, order);
      var results: seq<Binding> := [];
      for i := 0 to |sorted|
        invariant results == Matching(records, sorted[..i], f)
      {
        MatchingSnoc(records, sorted, i, f);
        Ordering.SortKeepsElements(Ordering.TextLeq, order);
        if Matches(records[sorted[i]], f) {
          results := results + [records[sorted[i]]];
        }
      }
      assert sorted[..|sorted|] == sorted;
      found := if f.limit.Some? && f.limit.value < |results| then results[..f.limit.value] else results;
    }
  }

  // What a filter without fields set lets through is everything; each field set must agree.
  predicate Agrees<T(==)>(field: Option<T>, value: T) { field == None || field == Some(value) }

  predicate IsSelected(b: Binding, f: Filter) {
    && Agrees(f.workspaceId, b.workspaceId) && Agrees(f.userId, b.userId)
    && Agrees(f.providerId, b.providerId) && Agrees(f.status, b.status)
  }

  ghost predicate StrictlyIncreasing(ids: seq<string>) {
    forall i, j :: 0 <= i < j < |ids| ==> Ordering.TextLeq(ids[i], ids[j]) && ids[i] != ids[j]
  }

  // The bindings listed come in the order of the identifiers.
  ghost predicate FollowIds(found: seq<Binding>, ids: seq<string>) {
    && (forall k :: 0 <= k < |found| ==> found[k].bindingId in ids)
    && forall k, m :: 0 <= k < m < |found| ==>
         && Ordering.TextLeq(found[k].bindingId, found[m].bindingId) && found[k].bindingId != found[m].bindingId
  }

  lemma FollowSnoc(found: seq<Binding>, ids: seq<string>, b: Binding)
    requires ids != [] && StrictlyIncreasing(ids) && FollowIds(found, ids[..|ids| - 1])
    ensures FollowIds(found, ids)
    ensures b.bindingId == ids[|ids| - 1] ==> FollowIds(found + [b], ids)
  {
    var front, last := ids[..|ids| - 1], ids[|ids| - 1];
    assert ids == front + [last];
    forall k | 0 <= k < |found| ensures Ordering.TextLeq(found[k].bindingId, last) && found[k].bindingId != last {
      var i :| 0 <= i < |front| && front[i] == found[k].bindingId;
      assert ids[i] == front[i] && ids[|ids| - 1] == last;
    }
  }

  lemma {:induction false} MatchingFollows(records: Records, ids: seq<string>, f: Filter)
    requires IsConsistent(records) && StrictlyIncreasing(ids) && forall id :: id in ids ==> id in records
    ensures FollowIds(Matching(records, ids, f), ids)
  {
    if ids != [] {
      var front, last := ids[..|ids| - 1], ids[|ids| - 1];
      MatchingFollows(records, front, f);
      FollowSnoc(Matching(records, front, f), ids, records[last]);
    }
  }

  lemma {:induction false} MatchingExactly(records: Records, ids: seq<string>, f: Filter)
    requires IsConsistent(records) && forall id :: id in ids ==> id in records
    ensures forall b ::
              b in Matching(records, ids, f) <==> b.bindingId in ids && records[b.bindingId] == b && IsSelected(b, f)
  {
    if ids != [] {
      var front, last := ids[..|ids| - 1], ids[|ids| - 1];
      MatchingExactly(records, front, f);
      assert ids == front + [last];
    }
  }

  // The limit plays no part in which bindings match.
  lemma {:induction false} SameMatches(records: Records, ids: seq<string>, f: Filter)
    ensures Matching(records, ids, f.(limit := None)) == Matching(records, ids, f)
  {
    if ids != [] {
      SameMatches(records, ids[..|ids| - 1], f);
    }
  }

  // Listing finds exactly the stored bindings the filter selects, once each and by identifier; a limit keeps the first
  // ones.
  lemma ListedExactly(records: Records, order: seq<string>, f: Filter)
    requires IsConsistent(records) && Distinct(order) && forall id :: id in order <==> id in records
    ensures var all := Listed(records, order, f.(limit := None));
            && (forall b :: b in all <==> b.bindingId in records && records[b.bindingId] == b && IsSelected(b, f))
            && FollowIds(all, order)
            && Listed(records, order, f) ==
               if f.limit == None || f.limit.value >= |all| then all else all[..f.limit.value]
  {
    var ids := Ordering.Sort(Ordering.TextLeq, order);
    Ordering.TextLeqIsTotalOrder();
    Ordering.SortPermutes(Ordering.TextLeq, order);
    Ordering.SortSorts(Ordering.TextLeq, order);
    Ordering.SortKeepsElements(Ordering.TextLeq, order);
    Ordering.SortKeepsDistinct(Ordering.TextLeq, order);
    MatchingExactly(records, ids, f.(limit := None));
    MatchingFollows(records, ids, f.(limit := None));
    SameMatches(records, ids, f);
  }

  // Listing does not depend on the order in which the bindings were stored.
  lemma ListingIgnoresInsertionOrder(records: Records, order1: seq<string>, order2: seq<string>, f: Filter)
    requires multiset(order1) == multiset(order2)
    ensures Listed(records, order1, f) == Listed(records, order2, f)
  {
    var s1, s2 := Ordering.Sort(Ordering.TextLeq, order1), Ordering.Sort(Ordering.TextLeq, order2);
    Ordering.TextLeqIsTotalOrder();
    Ordering.SortPermutes(Ordering.TextLeq, order1);
    Ordering.SortPermutes(Ordering.TextLeq, order2);
    Ordering.SortSorts(Ordering.TextLeq, order1);
    Ordering.SortSorts(Ordering.TextLeq, order2);
    forall i, j | 0 <= i < |s1| && 0 <= j < |s1| && Ordering.TextLeq(s1[i], s1[j]) && Ordering.TextLeq(s1[j], s1[i])
      ensures s1[i] == s1[j]
    {
      Ordering.TextLeqAntisymmetric(s1[i], s1[j]);
    }
    Ordering.SortedIsUnique(Ordering.TextLeq, s1, s2);
  }
}
