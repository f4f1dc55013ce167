/**
 * The plant collection: the `Plant` record and the `PlantStore` object that the
 * views observe (`plants`, `progress`, `add`, `toggleWatered`,
 * `resetTodayWatering`).
 */
module Plants {
  import opened Wrappers

  /** A `UUID`, identified by its `uuidString`; where it comes from is not modelled. */
  type Uuid = string

  datatype Plant = Plant(
    id: Uuid,
    name: string,
    room: string,
    light: string,
    wateringDays: string,   // the schedule as display text, e.g. "Every 2 days"
    waterAmount: string,    // e.g. "20–50 ml"
    isWateredToday: bool)

  // ---------------------------------------------------------------------------
  // Progress
  // ---------------------------------------------------------------------------

  predicate AllWatered(ps: seq<Plant>) {
    forall i :: 0 <= i < |ps| ==> ps[i].isWateredToday
  }

  /** `filter { $0.isWateredToday }`: the watered plants, in order. */
  function Watered(ps: seq<Plant>): (w: seq<Plant>)
    ensures |w| <= |ps|
    ensures forall i :: 0 <= i < |w| ==> w[i].isWateredToday && w[i] in ps
    ensures |w| == |ps| <==> AllWatered(ps)
  {
    if ps == [] then []
    else
      var rest := Watered(ps[1..]);
      assert AllWatered(ps) <==> ps[0].isWateredToday && AllWatered(ps[1..]);
      if ps[0].isWateredToday then [ps[0]] + rest else rest
  }

  /**
   * The filter keeps every watered plant, each as often as it occurs, and no
   * other plant: its length is the number of watered plants.
   */
  lemma {:induction false} WateredKeepsAll(ps: seq<Plant>)
    ensures forall p :: multiset(Watered(ps))[p] == if p.isWateredToday then multiset(ps)[p] else 0
  {
    if ps != [] {
      WateredKeepsAll(ps[1..]);
      assert ps == [ps[0]] + ps[1..];
    }
  }

  /**
   * `progress`: the share of plants watered today, as an exact ratio
   * (0 for an empty collection).
   */
  function ProgressOf(ps: seq<Plant>): real {
    if ps == [] then 0.0 else |Watered(ps)| as real / |ps| as real
  }

  /** The ratio always lies in [0, 1]. */
  lemma ProgressInRange(ps: seq<Plant>)
    ensures 0.0 <= ProgressOf(ps) <= 1.0
  {
    if ps != [] {
      RatioAtMostOne(|Watered(ps)| as real, |ps| as real);
    }
  }

  lemma RatioAtMostOne(w: real, n: real)
    requires 0.0 <= w <= n && 0.0 < n
    ensures 0.0 <= w / n <= 1.0
  {
    assert w / n * n == w;
  }

  /**
   * The main screen reports "All set for today" when the progress reaches 1:
   * exactly when there is at least one plant and every plant is watered.
   */
  lemma ProgressFullIff(ps: seq<Plant>)
    ensures ProgressOf(ps) >= 1.0 <==> ps != [] && AllWatered(ps)
  {
    if ps != [] {
      var w, n := |Watered(ps)| as real, |ps| as real;
      if w < n {
        RatioBelowOne(w, n);
      } else {
        RatioOne(w, n);
      }
    }
  }

  lemma RatioOne(w: real, n: real)
    requires 0.0 < n && w == n
    ensures w / n == 1.0
  {
  }

  lemma RatioBelowOne(w: real, n: real)
    requires 0.0 <= w < n
    ensures w / n < 1.0
  {
    assert w / n * n == w;
  }

  /** Three plants, two of them watered: progress is 2/3. */
  lemma ProgressTwoOfThree(a: Plant, b: Plant, c: Plant)
    requires a.isWateredToday && b.isWateredToday && !c.isWateredToday
    ensures ProgressOf([a, b, c]) == 2.0 / 3.0
  {
    assert [a, b, c][1..] == [b, c];
    assert [b, c][1..] == [c];
    assert [c][1..] == [];
    assert Watered([c]) == [];
    assert Watered([b, c]) == [b];
    assert Watered([a, b, c]) == [a, b];
  }

  // ---------------------------------------------------------------------------
  // Finding and toggling a plant
  // ---------------------------------------------------------------------------

  /** `firstIndex(where: { $0.id == id })`. */
  function FirstIndex(ps: seq<Plant>, id: Uuid): (r: Option<nat>)
    ensures r.None? <==> forall j :: 0 <= j < |ps| ==> ps[j].id != id
    ensures r.Some? ==> r.value < |ps| && ps[r.value].id == id
    ensures r.Some? ==> forall j :: 0 <= j < r.value ==> ps[j].id != id
  {
    if ps == [] then None
    else if ps[0].id == id then Some(0)
    else match FirstIndex(ps[1..], id)
      case None => None
      case Some(k) => Some(k + 1)
  }

  function Flip(p: Plant): Plant {
    p.(isWateredToday := !p.isWateredToday)
  }

  /** The collection after `toggleWatered(for: id)`. */
  function Toggled(ps: seq<Plant>, id: Uuid): seq<Plant> {
    match FirstIndex(ps, id)
    case None => ps
    case Some(i) => ps[i := Flip(ps[i])]
  }

  /** Toggling an id that no plant has changes nothing. */
  lemma ToggleAbsent(ps: seq<Plant>, id: Uuid)
    requires forall j :: 0 <= j < |ps| ==> ps[j].id != id
    ensures Toggled(ps, id) == ps
  {
  }

  /**
   * Toggling a present id flips the watered flag of the first plant with that
   * id; its other fields, every other plant, the length and the order are kept.
   */
  lemma TogglePresent(ps: seq<Plant>, id: Uuid, i: nat)
    requires i < |ps| && ps[i].id == id
    requires forall j :: 0 <= j < i ==> ps[j].id != id
    ensures |Toggled(ps, id)| == |ps|
    ensures Toggled(ps, id)[i].isWateredToday == !ps[i].isWateredToday
    ensures Toggled(ps, id)[i].(isWateredToday := ps[i].isWateredToday) == ps[i]
    ensures forall j :: 0 <= j < |ps| && j != i ==> Toggled(ps, id)[j] == ps[j]
  {
  }

  /** Toggling keeps every plant's id, so the first match does not move. */
  lemma {:induction false} ToggledKeepsIds(ps: seq<Plant>, id: Uuid, other: Uuid)
    ensures |Toggled(ps, id)| == |ps|
    ensures forall j :: 0 <= j < |ps| ==> Toggled(ps, id)[j].id == ps[j].id
    ensures FirstIndex(Toggled(ps, id), other) == FirstIndex(ps, other)
  {
    var t := Toggled(ps, id);
    assert forall j :: 0 <= j < |ps| ==> t[j].id == ps[j].id;
    SameIdsSameIndex(t, ps, other);
  }

  /** The first match depends on the ids alone. */
  lemma {:induction false} SameIdsSameIndex(a: seq<Plant>, b: seq<Plant>, id: Uuid)
    requires |a| == |b| && forall j :: 0 <= j < |a| ==> a[j].id == b[j].id
    ensures FirstIndex(a, id) == FirstIndex(b, id)
  {
    if a != [] && a[0].id != id {
      SameIdsSameIndex(a[1..], b[1..], id);
    }
  }

  /** Toggling the same id twice restores the collection. */
  lemma ToggleTwice(ps: seq<Plant>, id: Uuid)
    ensures Toggled(Toggled(ps, id), id) == ps
  {
    ToggledKeepsIds(ps, id, id);
  }

  // ---------------------------------------------------------------------------
  // Daily reset
  // ---------------------------------------------------------------------------

  /** The collection after `resetTodayWatering()`. */
  function ResetAll(ps: seq<Plant>): seq<Plant> {
    seq(|ps|, i requires 0 <= i < |ps| => ps[i].(isWateredToday := false))
  }

  /**
   * The reset clears every flag and keeps the length, the order and every
   * other field.
   */
  lemma ResetClears(ps: seq<Plant>)
    ensures |ResetAll(ps)| == |ps|
    ensures forall i :: 0 <= i < |ps| ==> !ResetAll(ps)[i].isWateredToday
    ensures forall i :: 0 <= i < |ps| ==>
      ResetAll(ps)[i].(isWateredToday := ps[i].isWateredToday) == ps[i]
  {
  }

  /** Resetting twice is the same as resetting once. */
  lemma ResetIdempotent(ps: seq<Plant>)
    ensures ResetAll(ResetAll(ps)) == ResetAll(ps)
  {
  }

  /** A collection with no watered plant filters to nothing. */
  lemma {:induction false} WateredNone(ps: seq<Plant>)
    requires forall i :: 0 <= i < |ps| ==> !ps[i].isWateredToday
    ensures Watered(ps) == []
  {
    if ps != [] {
      WateredNone(ps[1..]);
    }
  }

  /** After the reset no plant is watered, so progress is 0. */
  lemma ResetProgressZero(ps: seq<Plant>)
    ensures Watered(ResetAll(ps)) == []
    ensures ProgressOf(ResetAll(ps)) == 0.0
  {
    WateredNone(ResetAll(ps));
  }

  // ---------------------------------------------------------------------------
  // The store
  // ---------------------------------------------------------------------------

  /** `PlantStore`: the ordered plant list that the views show and mutate. */
  class PlantStore {
    var plants: seq<Plant>

    constructor ()
      ensures plants == []
    {
      plants := [];
    }

    /** `progress` of the current collection. */
    function Progress(): (r: real)
      reads this
      ensures r == ProgressOf(plants)
      ensures 0.0 <= r <= 1.0
    {
      ProgressInRange(plants);
      ProgressOf(plants)
    }

    /** `add(_:)`: appends and does nothing else (in particular, schedules nothing). */
    method Add(p: Plant)
      modifies this
      ensures plants == old(plants) + [p]
    {
      plants := plants + [p];
    }

    /** `toggleWatered(for:)`. */
    method ToggleWatered(id: Uuid)
      modifies this
      ensures plants == Toggled(old(plants), id)
    {
      var idx := FirstIndex(plants, id);
      if idx.None? {
        return;
      }
      var i := idx.value;
      plants := plants[i := plants[i].(isWateredToday := !plants[i].isWateredToday)];
    }

    /** `resetTodayWatering()`: clears the flag of each plant in turn. */
    method ResetTodayWatering()
      modifies this
      ensures plants == ResetAll(old(plants))
    {
      var i := 0;
      while i < |plants|
        invariant 0 <= i <= |plants| == |old(plants)|
        invariant forall k :: 0 <= k < i ==> plants[k] == old(plants)[k].(isWateredToday := false)
        invariant forall k :: i <= k < |plants| ==> plants[k] == old(plants)[k]
      {
        plants := plants[i := plants[i].(isWateredToday := false)];
        i := i + 1;
      }
    }
  }
}
