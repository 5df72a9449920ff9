/** The subscription table `mDataSubs` as a value: a sequence of slot
    records, first-match lookups over it, and the table transitions of
    subscribe, unsubscribe, the default branch of onSubscribeResult and
    unsubscribeAllStreams. The class App in module MyApp keeps the table
    in an array and is proved to perform exactly these transitions. */
module Subscriptions {
  import opened Platform
  import Codec

  /** Defined in myApp.h, which is not part of this model; any positive
      value gives the same proofs. */
  const MAX_DATASUB_COUNT: nat := 4

  /** The 507 (HTTP_CODE_INSUFFICIENT_STORAGE) payload of the capacity error. */
  const CAPACITY_ERROR: seq<byte> := [0x01, 0xFB]

  datatype DataSub = DataSub(clientReference: byte, resourceId: ResourceId, subStarted: bool, subCompleted: bool)

  /** A slot as startModule and every release leave it. */
  const FREE: DataSub := DataSub(0, InvalidResource, false, false)

  /** The three lookups: findDataSub, findDataSubByRef, getFreeDataSubSlot. */
  datatype Query = ResourceIs(resource: ResourceId) | ReferenceIs(reference: byte) | Unused

  predicate Matches(d: DataSub, q: Query) {
    match q
    case ResourceIs(id) => d.resourceId == id
    case ReferenceIs(r) => d.clientReference == r
    case Unused => d.clientReference == 0 && d.resourceId == InvalidResource
  }

  /** The first slot at or after `from` that matches `q`. */
  function FindFrom(s: seq<DataSub>, q: Query, from: nat): (r: Option<nat>)
    requires from <= |s|
    ensures r.Some? ==> from <= r.value < |s| && Matches(s[r.value], q)
    ensures r.Some? ==> forall j | from <= j < r.value :: !Matches(s[j], q)
    ensures r.None? ==> forall j | from <= j < |s| :: !Matches(s[j], q)
    decreases |s| - from
  {
    if from == |s| then None
    else if Matches(s[from], q) then Some(from)
    else FindFrom(s, q, from + 1)
  }

  /** The first slot that matches `q`, as the source's scans return it. */
  function Find(s: seq<DataSub>, q: Query): (r: Option<nat>)
    ensures r.Some? ==> r.value < |s| && Matches(s[r.value], q)
    ensures r.Some? ==> forall j | 0 <= j < r.value :: !Matches(s[j], q)
    ensures r.None? <==> forall j | 0 <= j < |s| :: !Matches(s[j], q)
  {
    FindFrom(s, q, 0)
  }

  /** Number of slots matching `q`. */
  function Count(s: seq<DataSub>, q: Query): nat {
    if s == [] then 0 else (if Matches(s[0], q) then 1 else 0) + Count(s[1..], q)
  }

  lemma {:induction false} CountZero(s: seq<DataSub>, q: Query)
    ensures Count(s, q) == 0 <==> forall j | 0 <= j < |s| :: !Matches(s[j], q)
  {
    if s != [] {
      CountZero(s[1..], q);
      assert forall j | 1 <= j < |s| :: s[j] == s[1..][j - 1];
    }
  }

  lemma {:induction false} CountUpdate(s: seq<DataSub>, i: nat, d: DataSub, q: Query)
    requires i < |s|
    ensures Count(s[i := d], q) == Count(s, q) - (if Matches(s[i], q) then 1 else 0) + (if Matches(d, q) then 1 else 0)
  {
    if i > 0 {
      assert s[i := d][1..] == s[1..][i - 1 := d];
      CountUpdate(s[1..], i - 1, d, q);
    } else {
      assert s[i := d][1..] == s[1..];
    }
  }

  /** A slot is either free or reserved: reserving sets subStarted and a
      non-zero reference together, and every release resets all four fields. */
  ghost predicate SlotOk(d: DataSub) {
    d == FREE || (d.subStarted && d.clientReference != 0)
  }

  ghost predicate TableOk(s: seq<DataSub>) {
    forall i | 0 <= i < |s| :: SlotOk(s[i])
  }

  /** In a consistent table getFreeDataSubSlot's test picks exactly the free slots. */
  lemma UnusedIsFree(s: seq<DataSub>, i: nat)
    requires TableOk(s) && i < |s|
    ensures Matches(s[i], Unused) <==> s[i] == FREE
  {
  }

  /** What getResource reports for the path: its result code, and the
      handle it leaves in the slot's resourceId. */
  datatype Lookup = Lookup(code: int, resource: ResourceId)

  datatype Subscription = Subscription(ok: bool, slots: seq<DataSub>, effects: seq<Effect>)

  /** myApp::subscribe on the table. `path` is the path buffer including
      its terminator; the source reads `path[pathlen-1]`, so it is non-empty. */
  function Subscribe(s: seq<DataSub>, path: seq<byte>, reference: byte, lookup: Lookup): (r: Subscription)
    requires |path| > 0
    ensures |r.slots| == |s|
    ensures TableOk(s) ==> TableOk(r.slots)
  {
    if reference == 0 || path[|path| - 1] != 0 then
      Subscription(false, s, [])
    else
      match Find(s, Unused)
      case None =>
        Subscription(false, s, [SendFrame(Codec.Frame(Codec.COMMAND_RESULT, reference, CAPACITY_ERROR))])
      case Some(i) =>
        var reserved := s[i := DataSub(reference, lookup.resource, true, false)];
        if lookup.code < 200 || lookup.code > 210 then Subscription(false, reserved, [])
        else Subscription(true, reserved, [AsyncSubscribe(lookup.resource)])
  }

  /** A zero reference or an unterminated path is refused without a trace. */
  lemma SubscribeRejectsBadRequest(s: seq<DataSub>, path: seq<byte>, reference: byte, lookup: Lookup)
    requires |path| > 0 && (reference == 0 || path[|path| - 1] != 0)
    ensures Subscribe(s, path, reference, lookup) == Subscription(false, s, [])
  {
  }

  /** With no free slot the client gets exactly one `[1, reference, 0x01, 0xFB]`
      frame and the table is untouched. */
  lemma SubscribeWhenFull(s: seq<DataSub>, path: seq<byte>, reference: byte, lookup: Lookup)
    requires |path| > 0 && reference != 0 && path[|path| - 1] == 0
    requires forall j | 0 <= j < |s| :: !Matches(s[j], Unused)
    ensures Subscribe(s, path, reference, lookup) == Subscription(false, s, [SendFrame([1, reference, 0x01, 0xFB])])
  {
    assert Find(s, Unused).None?;
    assert Codec.Frame(Codec.COMMAND_RESULT, reference, CAPACITY_ERROR) == [1, reference, 0x01, 0xFB];
  }

  /** Otherwise exactly the first free slot is reserved for `reference`,
      and it stays reserved even when getResource fails; the stream is
      requested only on a 2xx result between 200 and 210. Afterwards the
      reference lookup finds a slot (this one, or an earlier duplicate). */
  lemma SubscribeReservesFirstFreeSlot(s: seq<DataSub>, path: seq<byte>, reference: byte, lookup: Lookup, i: nat)
    requires |path| > 0 && reference != 0 && path[|path| - 1] == 0
    requires i < |s| && Matches(s[i], Unused) && forall j | 0 <= j < i :: !Matches(s[j], Unused)
    ensures var r := Subscribe(s, path, reference, lookup);
      && r.slots[i] == DataSub(reference, lookup.resource, true, false)
      && !Matches(r.slots[i], Unused)
      && (forall j | 0 <= j < |s| && j != i :: r.slots[j] == s[j])
      && r.ok == (200 <= lookup.code <= 210)
      && r.effects == (if r.ok then [AsyncSubscribe(lookup.resource)] else [])
      && Find(r.slots, ReferenceIs(reference)).Some?
      && Find(r.slots, ReferenceIs(reference)).value <= i
  {
    assert Find(s, Unused) == Some(i);
    var r := Subscribe(s, path, reference, lookup);
    assert Matches(r.slots[i], ReferenceIs(reference));
  }

  datatype Release = Release(slots: seq<DataSub>, effects: seq<Effect>)

  /** myApp::unsubscribe on the table. */
  function Unsubscribe(s: seq<DataSub>, reference: byte): (r: Release)
    ensures |r.slots| == |s|
    ensures TableOk(s) ==> TableOk(r.slots)
  {
    match Find(s, ReferenceIs(reference))
    case None => Release(s, [])
    case Some(i) => Release(s[i := FREE], [AsyncUnsubscribe(s[i].resourceId)])
  }

  /** unsubscribe frees the first slot holding `reference`, unsubscribes its
      stream and touches no other slot; an unknown reference is a no-op. */
  lemma UnsubscribeFreesFirstMatch(s: seq<DataSub>, reference: byte)
    ensures var r := Unsubscribe(s, reference);
      match Find(s, ReferenceIs(reference))
      case None => r == Release(s, [])
      case Some(i) =>
        && r.slots[i] == FREE
        && (forall j | 0 <= j < |s| && j != i :: r.slots[j] == s[j])
        && r.effects == [AsyncUnsubscribe(s[i].resourceId)]
  {
  }

  /** For a non-zero reference, unsubscribe removes exactly one holder of it
      when there is one. */
  lemma UnsubscribeDropsOneHolder(s: seq<DataSub>, reference: byte)
    requires reference != 0
    ensures Count(Unsubscribe(s, reference).slots, ReferenceIs(reference))
         == if Count(s, ReferenceIs(reference)) == 0 then 0 else Count(s, ReferenceIs(reference)) - 1
  {
    var q := ReferenceIs(reference);
    CountZero(s, q);
    match Find(s, q)
    case None =>
    case Some(i) =>
      CountUpdate(s, i, FREE, q);
  }

  /** The default branch of myApp::onSubscribeResult on the table. */
  function OnSubscribeResult(s: seq<DataSub>, resource: ResourceId, code: int): (r: seq<DataSub>)
    ensures |r| == |s|
    ensures TableOk(s) && resource != InvalidResource ==> TableOk(r)
  {
    match Find(s, ResourceIs(resource))
    case None => s
    case Some(i) =>
      if s[i].subCompleted then s
      else if code >= 400 then s[i := FREE]
      else s[i := s[i].(subCompleted := true)]
  }

  /** A late or duplicate acknowledgement changes nothing; a failure code
      frees the slot, any other code completes it and only that. */
  lemma OnSubscribeResultTransitions(s: seq<DataSub>, resource: ResourceId, code: int)
    ensures var r := OnSubscribeResult(s, resource, code);
      match Find(s, ResourceIs(resource))
      case None => r == s
      case Some(i) =>
        && (forall j | 0 <= j < |s| && j != i :: r[j] == s[j])
        && r[i] == (if s[i].subCompleted then s[i] else if code >= 400 then FREE else s[i].(subCompleted := true))
  {
  }

  /** In a consistent table the slot an acknowledgement is for has been
      started, which is the source's `ASSERT(ds->subStarted)`. */
  lemma AcknowledgedSlotStarted(s: seq<DataSub>, resource: ResourceId)
    requires TableOk(s) && resource != InvalidResource
    ensures Find(s, ResourceIs(resource)).Some? ==> s[Find(s, ResourceIs(resource)).value].subStarted
  {
  }

  /** myApp::unsubscribeAllStreams on the table, slot by slot in index order. */
  function ReleaseAll(s: seq<DataSub>): (r: Release)
    ensures |r.slots| == |s|
    decreases |s|
  {
    if s == [] then Release([], [])
    else
      var prefix := ReleaseAll(s[..|s| - 1]);
      var last := s[|s| - 1];
      if last.resourceId != InvalidResource then
        Release(prefix.slots + [FREE], prefix.effects + [AsyncUnsubscribe(last.resourceId)])
      else
        Release(prefix.slots + [last], prefix.effects)
  }

  /** Slots with a valid handle are freed; the others keep all their fields. */
  lemma {:induction false} ReleaseAllSlot(s: seq<DataSub>, i: nat)
    requires i < |s|
    ensures ReleaseAll(s).slots[i] == if s[i].resourceId != InvalidResource then FREE else s[i]
    decreases |s|
  {
    if i < |s| - 1 {
      ReleaseAllSlot(s[..|s| - 1], i);
    }
  }

  /** After unsubscribeAllStreams no slot holds a valid handle, so
      findDataSub of any handle finds nothing. */
  lemma ReleaseAllForgetsResources(s: seq<DataSub>, resource: ResourceId)
    requires resource != InvalidResource
    ensures Find(ReleaseAll(s).slots, ResourceIs(resource)).None?
    ensures Count(ReleaseAll(s).slots, ResourceIs(resource)) == 0
  {
    var r := ReleaseAll(s).slots;
    forall j | 0 <= j < |r| ensures !Matches(r[j], ResourceIs(resource)) {
      ReleaseAllSlot(s, j);
    }
    CountZero(r, ResourceIs(resource));
  }

  /** Exactly one asynchronous unsubscribe is issued per slot that held a handle. */
  lemma {:induction false} ReleaseAllEffectCount(s: seq<DataSub>)
    ensures |ReleaseAll(s).effects| == |s| - Count(s, ResourceIs(InvalidResource))
    ensures forall e | e in ReleaseAll(s).effects :: e.AsyncUnsubscribe? && e.resource != InvalidResource
    decreases |s|
  {
    if s != [] {
      var init := s[..|s| - 1];
      ReleaseAllEffectCount(init);
      CountSnoc(init, s[|s| - 1], ResourceIs(InvalidResource));
      assert init + [s[|s| - 1]] == s;
    }
  }

  /** The unsubscribes owed to a table: one per slot holding a valid
      handle, naming that handle, in slot order. */
  function Unsubscribes(s: seq<DataSub>): seq<Effect>
    decreases |s|
  {
    if s == [] then []
    else (if s[0].resourceId != InvalidResource then [AsyncUnsubscribe(s[0].resourceId)] else []) + Unsubscribes(s[1..])
  }

  lemma {:induction false} UnsubscribesSnoc(s: seq<DataSub>, d: DataSub)
    ensures Unsubscribes(s + [d]) == Unsubscribes(s) + (if d.resourceId != InvalidResource then [AsyncUnsubscribe(d.resourceId)] else [])
    decreases |s|
  {
    if s == [] {
      assert ([] + [d])[1..] == [];
    } else {
      assert (s + [d])[1..] == s[1..] + [d];
      UnsubscribesSnoc(s[1..], d);
    }
  }

  /** unsubscribeAllStreams issues exactly the unsubscribes the table owes:
      each freed slot's own handle, in slot order. */
  lemma {:induction false} ReleaseAllEffectsInOrder(s: seq<DataSub>)
    ensures ReleaseAll(s).effects == Unsubscribes(s)
    decreases |s|
  {
    if s != [] {
      var init := s[..|s| - 1];
      ReleaseAllEffectsInOrder(init);
      UnsubscribesSnoc(init, s[|s| - 1]);
      assert init + [s[|s| - 1]] == s;
    }
  }

  /** So every slot with a valid handle gets its own unsubscribe. */
  lemma ReleaseAllUnsubscribesEachHandle(s: seq<DataSub>)
    ensures forall j | 0 <= j < |s| && s[j].resourceId != InvalidResource ::
      AsyncUnsubscribe(s[j].resourceId) in ReleaseAll(s).effects
  {
    ReleaseAllEffectsInOrder(s);
    forall j | 0 <= j < |s| && s[j].resourceId != InvalidResource
      ensures AsyncUnsubscribe(s[j].resourceId) in Unsubscribes(s)
    {
      UnsubscribesHolds(s, j);
    }
  }

  lemma {:induction false} UnsubscribesHolds(s: seq<DataSub>, j: nat)
    requires j < |s| && s[j].resourceId != InvalidResource
    ensures AsyncUnsubscribe(s[j].resourceId) in Unsubscribes(s)
    decreases j
  {
    if j > 0 {
      assert s[1..][j - 1] == s[j];
      UnsubscribesHolds(s[1..], j - 1);
    }
  }

  lemma {:induction false} CountSnoc(s: seq<DataSub>, d: DataSub, q: Query)
    ensures Count(s + [d], q) == Count(s, q) + (if Matches(d, q) then 1 else 0)
  {
    if s == [] {
      assert ([] + [d])[1..] == [];
    } else {
      assert (s + [d])[1..] == s[1..] + [d];
      CountSnoc(s[1..], d, q);
    }
  }

  lemma ReleaseAllKeepsTableOk(s: seq<DataSub>)
    requires TableOk(s)
    ensures TableOk(ReleaseAll(s).slots)
  {
    forall i | 0 <= i < |s| ensures SlotOk(ReleaseAll(s).slots[i]) {
      ReleaseAllSlot(s, i);
    }
  }
}
