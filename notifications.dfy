/**
 * The notification side of `NotificationManager`: the pending-request table of
 * the system notification center, and the operations that cancel and
 * (re)schedule a plant's reminders and the two test reminders.
 *
 * The center's table is a map from request identifier to request. Adding a
 * request whose identifier is already pending replaces it; removing a list of
 * identifiers drops those that are pending and ignores the rest.
 */
module Notifications {
  import opened Text
  import opened Plants
  import opened Schedule

  type Pending = map<string, Request>

  /** `removePendingNotificationRequests(withIdentifiers:)` on a table. */
  function Removed(m: Pending, ids: seq<string>): (r: Pending)
    ensures forall id :: id in r <==> id in m && id !in ids
    ensures forall id :: id in r ==> r[id] == m[id]
  {
    map id | id in m && id !in ids :: m[id]
  }

  /** The table after adding the requests of `rs` one after the other. */
  function AddedAll(m: Pending, rs: seq<Request>): Pending
    decreases |rs|
  {
    if rs == [] then m
    else
      var last := rs[|rs| - 1];
      AddedAll(m, rs[..|rs| - 1])[last.id := last]
  }

  /** The table after `cancelNotifications(for:)`. */
  function Cancelled(m: Pending, plantId: Uuid): Pending {
    Removed(m, Identifiers(plantId))
  }

  /** Adding one more request of a list is one more insertion. */
  lemma AddedAllStep(m: Pending, rs: seq<Request>, i: nat)
    requires i < |rs|
    ensures AddedAll(m, rs[..i + 1]) == AddedAll(m, rs[..i])[rs[i].id := rs[i]]
  {
    assert rs[..i + 1][..i] == rs[..i];
  }

  /** The table after `scheduleNotifications(for:)`: cancel, then add the built requests. */
  function Scheduled(m: Pending, p: Plant): Pending {
    AddedAll(Cancelled(m, p.id), BuildRequests(p))
  }

  /** The request a plant is scheduled with. */
  function Planned(p: Plant): Request {
    BuildRequests(p)[0]
  }

  /** Scheduling is one cancellation followed by one insertion. */
  lemma ScheduledOneAdd(m: Pending, p: Plant)
    ensures Scheduled(m, p) == Cancelled(m, p.id)[Planned(p).id := Planned(p)]
  {
    AddedOne(Cancelled(m, p.id), BuildRequests(p));
  }

  lemma AddedOne(m: Pending, rs: seq<Request>)
    requires |rs| == 1
    ensures AddedAll(m, rs) == m[rs[0].id := rs[0]]
  {
    assert rs[..0] == [];
  }

  // ---------------------------------------------------------------------------
  // What scheduling and cancelling leave pending
  // ---------------------------------------------------------------------------

  /**
   * After scheduling a plant, its planned request is pending under its id, no
   * other identifier of its cancellation list is pending, and every other
   * identifier keeps what it had.
   */
  lemma ScheduledPending(m: Pending, p: Plant)
    ensures Planned(p).id in Scheduled(m, p) && Scheduled(m, p)[Planned(p).id] == Planned(p)
    ensures forall id :: id in Identifiers(p.id) && id != Planned(p).id ==> id !in Scheduled(m, p)
    ensures forall id :: id !in Identifiers(p.id) && id != Planned(p).id ==>
      (id in Scheduled(m, p) <==> id in m) && (id in m ==> Scheduled(m, p)[id] == m[id])
  {
    ScheduledOneAdd(m, p);
    RemoveAddPending(m, Identifiers(p.id), Planned(p));
  }

  lemma RemoveAddPending(m: Pending, ids: seq<string>, r: Request)
    ensures r.id in Removed(m, ids)[r.id := r] && Removed(m, ids)[r.id := r][r.id] == r
    ensures forall id :: id in ids && id != r.id ==> id !in Removed(m, ids)[r.id := r]
    ensures forall id :: id !in ids && id != r.id ==>
      (id in Removed(m, ids)[r.id := r] <==> id in m) && (id in m ==> Removed(m, ids)[r.id := r][id] == m[id])
  {
  }

  /** A planned id is a plant-scoped id, never one of the two test ids. */
  lemma PlannedNotTest(p: Plant)
    ensures Planned(p).id != RepeatingTestId && Planned(p).id != OneOffTestId
  {
    var rs := BuildRequests(p);
    PlantIdNotTest(rs[0].id, p.id);
  }

  lemma PlantIdNotTest(id: string, plantId: Uuid)
    requires HasPrefix(id, "plant." + plantId + ".")
    ensures id != RepeatingTestId && id != OneOffTestId
  {
    assert id[0] == 'p';
  }

  /** Scheduling any plant also removes both pending test reminders. */
  lemma ScheduleClearsTests(m: Pending, p: Plant)
    ensures RepeatingTestId !in Scheduled(m, p) && OneOffTestId !in Scheduled(m, p)
  {
    ScheduledOneAdd(m, p);
    PlannedNotTest(p);
    assert Identifiers(p.id)[10] == RepeatingTestId && Identifiers(p.id)[11] == OneOffTestId;
  }

  /** Cancelling twice is the same as cancelling once. */
  lemma CancelIdempotent(m: Pending, plantId: Uuid)
    ensures Cancelled(Cancelled(m, plantId), plantId) == Cancelled(m, plantId)
  {
  }

  /** Scheduling the same plant twice is the same as scheduling it once. */
  lemma ScheduleIdempotent(m: Pending, p: Plant)
    ensures Scheduled(Scheduled(m, p), p) == Scheduled(m, p)
  {
    ScheduledOneAdd(m, p);
    ScheduledOneAdd(Scheduled(m, p), p);
    RemoveAddIdempotent(m, Identifiers(p.id), Planned(p));
  }

  /** Removing a list and adding one request, done twice, is done once. */
  lemma RemoveAddIdempotent(m: Pending, ids: seq<string>, r: Request)
    ensures Removed(Removed(m, ids)[r.id := r], ids)[r.id := r] == Removed(m, ids)[r.id := r]
  {
    var once := Removed(m, ids)[r.id := r];
    var twice := Removed(once, ids)[r.id := r];
    assert forall id :: id in twice <==> id in once;
  }

  /**
   * Cancelling a scheduled plant removes its planned request exactly when the
   * planned id is on the cancellation list.
   */
  lemma CancelRemovesPlanIff(m: Pending, p: Plant)
    ensures Planned(p).id !in Cancelled(Scheduled(m, p), p.id) <==> Planned(p).id in Identifiers(p.id)
    ensures Planned(p).id in Identifiers(p.id) ==> Cancelled(Scheduled(m, p), p.id) == Cancelled(m, p.id)
  {
    ScheduledOneAdd(m, p);
    RemoveAddRemove(m, Identifiers(p.id), Planned(p));
  }

  lemma RemoveAddRemove(m: Pending, ids: seq<string>, r: Request)
    ensures r.id !in Removed(Removed(m, ids)[r.id := r], ids) <==> r.id in ids
    ensures r.id in ids ==> Removed(Removed(m, ids)[r.id := r], ids) == Removed(m, ids)
  {
  }

  /**
   * Rescheduling a plant whose planned id is cancellable leaves no trace of the
   * earlier schedule: the result is as if only the new one had been scheduled.
   */
  lemma RescheduleReplaces(m: Pending, p: Plant, q: Plant)
    requires q.id == p.id
    requires Planned(p).id in Identifiers(p.id)
    ensures Scheduled(Scheduled(m, p), q) == Scheduled(m, q)
  {
    ScheduledOneAdd(m, p);
    ScheduledOneAdd(m, q);
    ScheduledOneAdd(Scheduled(m, p), q);
    CancelRemovesPlanIff(m, p);
  }

  /**
   * Scheduling a plant touches no request of another plant: an identifier of
   * another plant, with any suffix free of '.', keeps whatever it had.
   */
  lemma ScheduleKeepsOtherPlants(m: Pending, p: Plant, other: Uuid, suffix: string)
    requires other != p.id && '.' !in suffix
    ensures Identifier(other, suffix) in Scheduled(m, p) <==> Identifier(other, suffix) in m
    ensures Identifier(other, suffix) in m ==> Scheduled(m, p)[Identifier(other, suffix)] == m[Identifier(other, suffix)]
  {
    ScheduledPending(m, p);
    OtherNotPlanned(p, other, suffix);
    OtherNotCancelled(p.id, other, suffix);
  }

  lemma OtherNotPlanned(p: Plant, other: Uuid, suffix: string)
    requires other != p.id && '.' !in suffix
    ensures Identifier(other, suffix) != Planned(p).id
  {
    var s := ParseSchedule(p.wateringDays);
    PlannedId(p.id, s, Title(p), Body(p));
    SuffixDotFree(s);
    if Identifier(other, suffix) == Identifier(p.id, SuffixOf(s)) {
      IdentifierDotFree(other, p.id, suffix, SuffixOf(s));
    }
  }

  lemma OtherNotCancelled(plantId: Uuid, other: Uuid, suffix: string)
    requires other != plantId && '.' !in suffix
    ensures Identifier(other, suffix) !in Identifiers(plantId)
  {
    var id, ids := Identifier(other, suffix), Identifiers(plantId);
    CancelledSuffixesDotFree();
    forall k | 0 <= k < 10 ensures ids[k] != id {
      if ids[k] == id {
        IdentifierDotFree(other, plantId, suffix, CancelledSuffixes[k]);
      }
    }
    assert id[0] == 'p' && ids[10][0] == 't' && ids[11][0] == 't';
  }

  lemma CancelledSuffixesDotFree()
    ensures forall k :: 0 <= k < |CancelledSuffixes| ==> '.' !in CancelledSuffixes[k]
  {
  }

  // ---------------------------------------------------------------------------
  // The test reminders
  // ---------------------------------------------------------------------------

  /** The request of `scheduleRepeatingTestNotificationEvery60Seconds()`. */
  const RepeatingTestRequest: Request :=
    MakeRequest(RepeatingTestId, "Test (60s)", "This repeats every 60 seconds.", Trigger(60, true))

  /** The request of `scheduleOneOffTestNotificationIn30Seconds()`. */
  const OneOffTestRequest: Request :=
    MakeRequest(OneOffTestId, "Test (30s)", "This fired 30 seconds after scheduling.", Trigger(30, false))

  /**
   * Removing an id before adding a request under it changes nothing: adding
   * already replaces, so the explicit removal in the test helpers is redundant.
   */
  lemma RemoveThenAdd(m: Pending, r: Request)
    ensures Removed(m, [r.id])[r.id := r] == m[r.id := r]
  {
  }

  /**
   * Scheduling either test reminder leaves every plant reminder as it was:
   * plant identifiers start with "plant.", the test ones with "test.".
   */
  lemma TestsKeepPlantReminders(m: Pending, plantId: Uuid, suffix: string)
    ensures var id := Identifier(plantId, suffix);
      var m' := m[RepeatingTestId := RepeatingTestRequest];
      (id in m' <==> id in m) && (id in m ==> m'[id] == m[id])
    ensures var id := Identifier(plantId, suffix);
      var m' := m[OneOffTestId := OneOffTestRequest];
      (id in m' <==> id in m) && (id in m ==> m'[id] == m[id])
  {
    var id := Identifier(plantId, suffix);
    assert id[0] == 'p' && RepeatingTestId[0] == 't' && OneOffTestId[0] == 't';
  }

  // ---------------------------------------------------------------------------
  // Reminders every N days, N outside {2, 3, 7, 10, 14}
  // ---------------------------------------------------------------------------

  /**
   * As written: a plant whose planned id is not on its cancellation list keeps
   * that request pending after `cancelNotifications(for:)`.
   */
  lemma StaleAfterCancel(m: Pending, p: Plant)
    requires Planned(p).id !in Identifiers(p.id)
    ensures Planned(p).id in Cancelled(Scheduled(m, p), p.id)
    ensures Cancelled(Scheduled(m, p), p.id)[Planned(p).id] == Planned(p)
  {
    ScheduledPending(m, p);
  }

  /**
   * As written: rescheduling such a plant with another schedule leaves both
   * the old and the new reminder pending.
   */
  lemma StaleAfterReschedule(m: Pending, p: Plant, q: Plant)
    requires q.id == p.id && Planned(p).id !in Identifiers(p.id) && Planned(q).id != Planned(p).id
    ensures Planned(p).id in Scheduled(Scheduled(m, p), q)
    ensures Scheduled(Scheduled(m, p), q)[Planned(p).id] == Planned(p)
    ensures Planned(q).id in Scheduled(Scheduled(m, p), q)
  {
    ScheduledPending(m, p);
    ScheduledPending(Scheduled(m, p), q);
  }

  /** "every 5 days" is such a schedule: its id `plant.<uuid>.every-5-days` is not on the list. */
  lemma EveryFiveDaysStale(p: Plant)
    requires p.wateringDays == EveryNDaysText(5, true)
    ensures ParseSchedule(p.wateringDays) == EveryNDays(5)
    ensures Planned(p).id !in Identifiers(p.id)
  {
    EveryNDaysParses(5, true);
    PlannedIdCancellable(p.id, EveryNDays(5), Title(p), Body(p));
  }

  /** An identifier in a plant's namespace `plant.<uuid>.`. */
  predicate InNamespace(id: string, plantId: Uuid) {
    HasPrefix(id, "plant." + plantId + ".")
  }

  /**
   * Corrected cancellation: removes every pending identifier in the plant's
   * namespace, whatever its suffix, and the two test identifiers.
   */
  function CancelledAll(m: Pending, plantId: Uuid): (r: Pending)
    ensures forall id :: id in r <==>
      id in m && !InNamespace(id, plantId) && id != RepeatingTestId && id != OneOffTestId
    ensures forall id :: id in r ==> r[id] == m[id]
  {
    map id | id in m && !InNamespace(id, plantId) && id != RepeatingTestId && id != OneOffTestId :: m[id]
  }

  /** Corrected scheduling: the corrected cancellation, then the built requests. */
  function ScheduledFixed(m: Pending, p: Plant): Pending {
    AddedAll(CancelledAll(m, p.id), BuildRequests(p))
  }

  /** The corrected cancellation removes at least every identifier on the fixed list. */
  lemma CancelledAllCovers(m: Pending, plantId: Uuid)
    ensures forall id :: id in Identifiers(plantId) ==> id !in CancelledAll(m, plantId)
  {
    var ids := Identifiers(plantId);
    forall k | 0 <= k < 10 ensures InNamespace(ids[k], plantId) {
    }
  }

  /** Corrected: cancelling a scheduled plant leaves no request of it, for every schedule. */
  lemma FixedCancelComplete(m: Pending, p: Plant)
    ensures CancelledAll(ScheduledFixed(m, p), p.id) == CancelledAll(m, p.id)
    ensures Planned(p).id !in CancelledAll(ScheduledFixed(m, p), p.id)
  {
    AddedOne(CancelledAll(m, p.id), BuildRequests(p));
    NamespaceRemoveAdd(m, p.id, Planned(p));
  }

  lemma NamespaceRemoveAdd(m: Pending, plantId: Uuid, r: Request)
    requires InNamespace(r.id, plantId)
    ensures CancelledAll(CancelledAll(m, plantId)[r.id := r], plantId) == CancelledAll(m, plantId)
    ensures r.id !in CancelledAll(CancelledAll(m, plantId)[r.id := r], plantId)
  {
  }

  /** Corrected: rescheduling a plant is the same as scheduling only the new schedule, for every schedule. */
  lemma FixedRescheduleReplaces(m: Pending, p: Plant, q: Plant)
    requires q.id == p.id
    ensures ScheduledFixed(ScheduledFixed(m, p), q) == ScheduledFixed(m, q)
  {
    AddedOne(CancelledAll(m, q.id), BuildRequests(q));
    AddedOne(CancelledAll(ScheduledFixed(m, p), q.id), BuildRequests(q));
    FixedCancelComplete(m, p);
  }

  // ---------------------------------------------------------------------------
  // The notification center and the manager's operations
  // ---------------------------------------------------------------------------

  /** The pending requests of `UNUserNotificationCenter.current()`. */
  class NotificationCenter {
    var pending: Pending

    constructor ()
      ensures pending == map[]
    {
      pending := map[];
    }

    /** `add(_:)`: the request replaces any pending one with the same identifier. */
    method Add(req: Request)
      modifies this
      ensures pending == old(pending)[req.id := req]
    {
      pending := pending[req.id := req];
    }

    /** `removePendingNotificationRequests(withIdentifiers:)`. */
    method RemovePending(ids: seq<string>)
      modifies this
      ensures pending == Removed(old(pending), ids)
    {
      pending := Removed(pending, ids);
    }
  }

  /** `cancelNotifications(for:)`. */
  method CancelNotifications(center: NotificationCenter, plantId: Uuid)
    modifies center
    ensures center.pending == Cancelled(old(center.pending), plantId)
  {
    center.RemovePending(Identifiers(plantId));
  }

  /** `scheduleNotifications(for:at:minute:)`: cancel, then add each built request in turn. */
  method ScheduleNotifications(center: NotificationCenter, p: Plant)
    modifies center
    ensures center.pending == Scheduled(old(center.pending), p)
  {
    CancelNotifications(center, p.id);
    ghost var start := center.pending;
    var requests := BuildRequests(p);
    for i := 0 to |requests|
      invariant center.pending == AddedAll(start, requests[..i])
    {
      AddedAllStep(start, requests, i);
      center.Add(requests[i]);
    }
    assert requests[..|requests|] == requests;
  }

  /** `scheduleRepeatingTestNotificationEvery60Seconds()`. */
  method ScheduleRepeatingTest(center: NotificationCenter)
    modifies center
    ensures center.pending == old(center.pending)[RepeatingTestId := RepeatingTestRequest]
  {
    center.RemovePending([RepeatingTestId]);
    center.Add(RepeatingTestRequest);
    RemoveThenAdd(old(center.pending), RepeatingTestRequest);
  }

  /** `scheduleOneOffTestNotificationIn30Seconds()`. */
  method ScheduleOneOffTest(center: NotificationCenter)
    modifies center
    ensures center.pending == old(center.pending)[OneOffTestId := OneOffTestRequest]
  {
    center.RemovePending([OneOffTestId]);
    center.Add(OneOffTestRequest);
    RemoveThenAdd(old(center.pending), OneOffTestRequest);
  }
}
