/** The durable location outbox: local observations, server confirmations and what is still to send. */
module Locations {
  import opened Registry
  import opened Sorting
  import opened State

  datatype LocationError = NotMonotonic | ConfirmedUnchecked | NotObservable

  datatype LocationTransition = LocationTransition(
    state: PersistentState,
    changed: bool,
    checkedAdded: seq<int>,
    confirmedAdded: seq<int>,
    confirmedRemoved: seq<int>,
    pendingAdded: seq<int>,
    pendingRemoved: seq<int>)

  datatype Moved = Moved(transition: LocationTransition) | Refused(error: LocationError)

  function WithLocations(s: PersistentState, checked: set<int>, confirmed: set<int>): PersistentState {
    s.(checked := Sorted(checked), confirmed := Sorted(confirmed), outbox := Sorted(checked - confirmed))
  }

  function Transition(s: PersistentState, checked: set<int>, confirmed: set<int>): Moved {
    var oldChecked, oldConfirmed, oldPending := Elements(s.checked), Elements(s.confirmed), Elements(s.outbox);
    if !(oldChecked <= checked) then Refused(NotMonotonic)
    else if !(confirmed <= checked) then Refused(ConfirmedUnchecked)
    else
      var pending := checked - confirmed;
      var replacement := WithLocations(s, checked, confirmed);
      Moved(LocationTransition(
        replacement, replacement != s,
        Sorted(checked - oldChecked), Sorted(confirmed - oldConfirmed), Sorted(oldConfirmed - confirmed),
        Sorted(pending - oldPending), Sorted(oldPending - pending)))
  }

  function ObserveLocal(s: PersistentState, location: int): Moved {
    if !IsObservable(location) then Refused(NotObservable)
    else Transition(s, Elements(s.checked) + {location}, Elements(s.confirmed))
  }

  function ReconcileConnected(s: PersistentState, server: set<int>): Moved {
    Transition(s, Elements(s.checked) + server, server)
  }

  function ReconcileRoomUpdate(s: PersistentState, delta: set<int>): Moved {
    var server := Elements(s.confirmed) + delta;
    Transition(s, Elements(s.checked) + server, server)
  }

  // ---- every transition keeps the partition ----------------------------------------

  lemma WithLocationsIsValid(s: PersistentState, checked: set<int>, confirmed: set<int>)
    requires Valid(s) && confirmed <= checked && forall x :: x in checked ==> IsLocation(x)
    ensures Valid(WithLocations(s, checked, confirmed))
  {
    var t := WithLocations(s, checked, confirmed);
    SortedElements(checked);
    SortedElements(confirmed);
    SortedElements(checked - confirmed);
    LocationTupleOf(checked);
    LocationTupleOf(confirmed);
    LocationTupleOf(checked - confirmed);
    assert ValidLocations(t);
  }

  lemma LocationTupleOf(locations: set<int>)
    requires forall x :: x in locations ==> IsLocation(x)
    ensures LocationTuple(Sorted(locations))
  {
    forall i | 0 <= i < |Sorted(locations)| ensures IsLocation(Sorted(locations)[i]) {
      assert Sorted(locations)[i] in Sorted(locations);
    }
  }

  lemma CheckedAreLocations(s: PersistentState)
    requires ValidLocations(s)
    ensures forall x :: x in Elements(s.checked) ==> IsLocation(x)
  {}

  /** The three sets a valid state keeps, and nothing else, determine its location fields. */
  lemma LocationsDetermined(s: PersistentState)
    requires ValidLocations(s)
    ensures WithLocations(s, Elements(s.checked), Elements(s.confirmed)) == s
  {
    SortedFixes(s.checked);
    SortedFixes(s.confirmed);
    SortedFixes(s.outbox);
  }

  datatype Event = Observe(location: int) | Connected(server: set<int>) | RoomUpdate(delta: set<int>)

  predicate Mentions(e: Event, x: int) {
    match e
    case Observe(l) => x == l
    case Connected(server) => x in server
    case RoomUpdate(delta) => x in delta
  }

  /** Parsed updates and game observations mention known locations only. */
  ghost predicate Known(e: Event) {
    (forall x :: Mentions(e, x) ==> IsLocation(x)) && (e.Observe? ==> IsObservable(e.location))
  }

  function React(s: PersistentState, e: Event): Moved {
    match e
    case Observe(l) => ObserveLocal(s, l)
    case Connected(server) => ReconcileConnected(s, server)
    case RoomUpdate(delta) => ReconcileRoomUpdate(s, delta)
  }

  function CheckedAfter(checked: set<int>, e: Event): set<int> {
    match e
    case Observe(l) => checked + {l}
    case Connected(server) => checked + server
    case RoomUpdate(delta) => checked + delta
  }

  function ConfirmedAfter(confirmed: set<int>, e: Event): set<int> {
    match e
    case Observe(_) => confirmed
    case Connected(server) => server
    case RoomUpdate(delta) => confirmed + delta
  }

  /** Neither guard of the transition can fire, and the partition is exact afterwards. */
  lemma ReactIsExact(s: PersistentState, e: Event)
    requires Valid(s) && Known(e)
    ensures var r := React(s, e);
            && r.Moved? && Valid(r.transition.state)
            && r.transition.state ==
               WithLocations(s, CheckedAfter(Elements(s.checked), e), ConfirmedAfter(Elements(s.confirmed), e))
  {
    var checked, confirmed := CheckedAfter(Elements(s.checked), e), ConfirmedAfter(Elements(s.confirmed), e);
    CheckedAreLocations(s);
    assert forall x :: x in checked <==> x in Elements(s.checked) || Mentions(e, x);
    assert Elements(s.checked) + (Elements(s.confirmed) + checked) == checked;
    WithLocationsIsValid(s, checked, confirmed);
    assert e.RoomUpdate? ==> Elements(s.checked) + (Elements(s.confirmed) + e.delta) == checked;
    assert React(s, e) == Transition(s, checked, confirmed);
  }

  lemma ObservationIsExact(s: PersistentState, location: int)
    requires Valid(s) && IsObservable(location)
    ensures var r := ObserveLocal(s, location);
            && r.Moved? && Valid(r.transition.state)
            && r.transition.state == s.(checked := r.transition.state.checked, outbox := r.transition.state.outbox)
            && Elements(r.transition.state.checked) == Elements(s.checked) + {location}
  {
    ReactIsExact(s, Observe(location));
    SortedFixes(s.confirmed);
    SortedElements(Elements(s.checked) + {location});
  }

  lemma ChangedWhenDifferent(s: PersistentState, e: Event)
    requires React(s, e).Moved?
    ensures var t := React(s, e).transition; t.changed <==> t.state != s
  {}

  ghost predicate IsDelta(before: set<int>, after: set<int>, added: set<int>, removed: set<int>) {
    after == before - removed + added && added !! before && removed <= before
  }

  lemma SortedDelta(before: set<int>, after: set<int>)
    ensures IsDelta(before, after, Elements(Sorted(after - before)), Elements(Sorted(before - after)))
    ensures before == after <==> Sorted(after - before) == [] && Sorted(before - after) == []
  {
    SortedElements(after - before);
    SortedElements(before - after);
    EmptySorted(after - before);
    EmptySorted(before - after);
    assert after == before - (before - after) + (after - before);
    assert after - before == {} && before - after == {} ==> after == before;
  }

  lemma ChangedExactly(s: PersistentState, checked: set<int>, confirmed: set<int>)
    requires ValidLocations(s)
    ensures WithLocations(s, checked, confirmed) == s <==>
            checked == Elements(s.checked) && confirmed == Elements(s.confirmed)
  {
    SortedElements(checked);
    SortedElements(confirmed);
    LocationsDetermined(s);
  }

  /** What a transition reports about one of the three sets. */
  ghost predicate Reports(before: seq<int>, after: seq<int>, added: seq<int>, removed: seq<int>) {
    IsDelta(Elements(before), Elements(after), Elements(added), Elements(removed))
  }

  lemma SortedReports(before: seq<int>, after: set<int>)
    ensures Reports(before, Sorted(after), Sorted(after - Elements(before)), Sorted(Elements(before) - after))
  {
    SortedElements(after);
    SortedDelta(Elements(before), after);
  }

  /** The reported additions and removals are exactly the differences between the two states. */
  lemma ReportsAreExact(s: PersistentState, checked: set<int>, confirmed: set<int>)
    requires Transition(s, checked, confirmed).Moved?
    ensures var t := Transition(s, checked, confirmed).transition;
            && Reports(s.checked, t.state.checked, t.checkedAdded, [])
            && Reports(s.confirmed, t.state.confirmed, t.confirmedAdded, t.confirmedRemoved)
            && Reports(s.outbox, t.state.outbox, t.pendingAdded, t.pendingRemoved)
  {
    SortedReports(s.checked, checked);
    assert Elements(s.checked) - checked == {};
    SortedReports(s.confirmed, confirmed);
    SortedReports(s.outbox, checked - confirmed);
  }

  /** A transition is committed exactly when it reports something. */
  lemma ChangedWhenReported(s: PersistentState, checked: set<int>, confirmed: set<int>)
    requires ValidLocations(s) && Transition(s, checked, confirmed).Moved?
    ensures var t := Transition(s, checked, confirmed).transition;
            t.changed <==> t.checkedAdded != [] || t.confirmedAdded != [] || t.confirmedRemoved != []
  {
    ChangedExactly(s, checked, confirmed);
    SortedDelta(Elements(s.checked), checked);
    assert Elements(s.checked) - checked == {};
    SortedDelta(Elements(s.confirmed), confirmed);
  }

  lemma EmptySorted(x: set<int>)
    ensures Sorted(x) == [] <==> x == {}
  {
    SortedElements(x);
    EmptyElements(Sorted(x));
  }

  // ---- no check is ever lost, in any order -------------------------------------------

  function After(s: PersistentState, events: seq<Event>): PersistentState {
    if events == [] then s
    else
      var before := After(s, events[..|events| - 1]);
      var r := React(before, events[|events| - 1]);
      if r.Moved? then r.transition.state else before
  }

  ghost predicate AllKnown(events: seq<Event>) {
    forall i :: 0 <= i < |events| ==> Known(events[i])
  }

  /** Everything these events mentioned. */
  function Mentioned(events: seq<Event>): set<int> {
    if events == [] then {} else CheckedAfter(Mentioned(events[..|events| - 1]), events[|events| - 1])
  }

  function Delta(events: seq<Event>): set<int> {
    if events == [] then {} else
      Delta(events[..|events| - 1]) + (if events[|events| - 1].RoomUpdate? then events[|events| - 1].delta else {})
  }

  /** Checks accumulate over any events, reconnections and server rollbacks included. */
  lemma {:induction false} NoCheckIsLost(s: PersistentState, events: seq<Event>)
    requires Valid(s) && AllKnown(events)
    ensures Valid(After(s, events))
    ensures Elements(After(s, events).checked) == Elements(s.checked) + Mentioned(events)
    ensures events != [] ==> React(After(s, events[..|events| - 1]), events[|events| - 1]).Moved?
  {
    if events != [] {
      var front, last := events[..|events| - 1], events[|events| - 1];
      NoCheckIsLost(s, front);
      var before := After(s, front);
      ReactIsExact(before, last);
      SortedElements(CheckedAfter(Elements(before.checked), last));
    }
  }

  lemma {:induction false} ConfirmedSinceConnected(s: PersistentState, events: seq<Event>)
    requires Valid(s) && AllKnown(events) && forall i :: 0 <= i < |events| ==> !events[i].Connected?
    ensures Elements(After(s, events).confirmed) == Elements(s.confirmed) + Delta(events)
  {
    if events != [] {
      var front, last := events[..|events| - 1], events[|events| - 1];
      ConfirmedSinceConnected(s, front);
      NoCheckIsLost(s, front);
      var before := After(s, front);
      ReactIsExact(before, last);
      SortedElements(ConfirmedAfter(Elements(before.confirmed), last));
    }
  }

  lemma {:induction false} OnlyLocationsChange(s: PersistentState, events: seq<Event>)
    requires Valid(s) && AllKnown(events)
    ensures After(s, events) ==
            WithLocations(s, Elements(After(s, events).checked), Elements(After(s, events).confirmed))
  {
    if events == [] {
      LocationsDetermined(s);
    } else {
      var front, last := events[..|events| - 1], events[|events| - 1];
      OnlyLocationsChange(s, front);
      NoCheckIsLost(s, front);
      ReactIsExact(After(s, front), last);
      LocationsDetermined(React(After(s, front), last).transition.state);
    }
  }

  /**
    After the canonical set S, any observations O and room updates U in any order
    end in the one state with checked = old + S + O + U and confirmed = S + U.
  */
  lemma OrderIsIrrelevant(s: PersistentState, server: set<int>, events: seq<Event>)
    requires Valid(s) && Known(Connected(server)) && AllKnown(events)
    requires forall i :: 0 <= i < |events| ==> !events[i].Connected?
    ensures After(React(s, Connected(server)).transition.state, events)
            == WithLocations(s, Elements(s.checked) + server + Mentioned(events), server + Delta(events))
  {
    ReactIsExact(s, Connected(server));
    var connected := React(s, Connected(server)).transition.state;
    SortedElements(Elements(s.checked) + server);
    SortedElements(server);
    NoCheckIsLost(connected, events);
    ConfirmedSinceConnected(connected, events);
    OnlyLocationsChange(connected, events);
  }

  // ---- what the server sends ---------------------------------------------------------

  /** `None` stands for a list element that is not an integer. */
  datatype RawField = Absent | NotAList | Listed(values: seq<Option<int>>)

  datatype RawUpdate = NotAMapping | RawUpdate(checked: RawField, missing: RawField)

  /** The locations the authenticated slot enables; the slot may be missing or incompatible. */
  datatype SlotData = NoSlot | Incompatible | Enabled(locations: set<int>)

  datatype UpdateError =
    | UpdateNotMapping | SlotMissing | SlotIncompatible | FieldMissing | FieldNotAList | FieldNotIntegers | FieldRepeats
    | UnknownLocations | DisabledLocations | Overlap | NotTheLocationTable

  datatype ServerUpdate = ServerUpdate(checked: seq<int>, full: bool)

  datatype Parsed<+T> = Accepted(value: T) | Rejected(error: UpdateError)

  predicate AreIntegers(values: seq<Option<int>>) {
    forall i :: 0 <= i < |values| ==> values[i].Some?
  }

  function Integers(values: seq<Option<int>>): (r: seq<int>)
    requires AreIntegers(values)
    ensures |r| == |values| && forall i :: 0 <= i < |r| ==> values[i] == Some(r[i])
  {
    seq(|values|, i requires 0 <= i < |values| => values[i].value)
  }

  predicate Repeats(values: seq<int>) {
    exists i, j :: 0 <= i < j < |values| && values[i] == values[j]
  }

  function PacketIds(field: RawField, required: bool): Parsed<set<int>> {
    match field
    case Absent => if required then Rejected(FieldMissing) else Accepted({})
    case NotAList => Rejected(FieldNotAList)
    case Listed(values) =>
      if !AreIntegers(values) then Rejected(FieldNotIntegers)
      else if Repeats(Integers(values)) then Rejected(FieldRepeats)
      else Accepted(Elements(Integers(values)))
  }

  function ParseServerUpdate(raw: RawUpdate, connected: bool, slot: SlotData): Parsed<ServerUpdate> {
    if raw.NotAMapping? then Rejected(UpdateNotMapping)
    else match slot
      case NoSlot => Rejected(SlotMissing)
      case Incompatible => Rejected(SlotIncompatible)
      case Enabled(enabled) =>
        var checked := PacketIds(raw.checked, connected);
        var missing := PacketIds(raw.missing, connected);
        if checked.Rejected? then Rejected(checked.error)
        else if missing.Rejected? then Rejected(missing.error)
        else
          var supplied := checked.value + missing.value;
          if exists x :: x in supplied && !IsLocation(x) then Rejected(UnknownLocations)
          else if !(supplied <= enabled) then Rejected(DisabledLocations)
          else if connected && !(checked.value !! missing.value) then Rejected(Overlap)
          else if connected && supplied != enabled then Rejected(NotTheLocationTable)
          else Accepted(ServerUpdate(Sorted(checked.value), connected))
  }

  function AsEvent(u: ServerUpdate): Event {
    if u.full then Connected(Elements(u.checked)) else RoomUpdate(Elements(u.checked))
  }

  /** An accepted update is safe to reconcile; a full one is an exact split of the slot's table. */
  lemma AcceptedUpdateIsKnown(raw: RawUpdate, connected: bool, slot: SlotData)
    requires ParseServerUpdate(raw, connected, slot).Accepted?
    ensures var u := ParseServerUpdate(raw, connected, slot).value;
            && u.full == connected && StrictlyIncreasing(u.checked) && Known(AsEvent(u))
            && slot.Enabled? && Elements(u.checked) <= slot.locations
            && (connected ==>
                  && PacketIds(raw.missing, true).Accepted?
                  && PacketIds(raw.missing, true).value == slot.locations - Elements(u.checked))
  {
    var checked := PacketIds(raw.checked, connected).value;
    SortedElements(checked);
    assert forall x :: Mentions(AsEvent(ParseServerUpdate(raw, connected, slot).value), x) ==> x in checked;
  }

  /** A full update is accepted exactly when its two lists split the slot's table. */
  lemma ConnectedAcceptedExactly(raw: RawUpdate, enabled: set<int>)
    requires forall x :: x in enabled ==> IsLocation(x)
    ensures ParseServerUpdate(raw, true, Enabled(enabled)).Accepted? <==>
              && raw.RawUpdate?
              && PacketIds(raw.checked, true).Accepted? && PacketIds(raw.missing, true).Accepted?
              && PacketIds(raw.checked, true).value !! PacketIds(raw.missing, true).value
              && PacketIds(raw.checked, true).value + PacketIds(raw.missing, true).value == enabled
  {}

  /** The field lists exactly these locations, each once; a partial packet may leave it out. */
  ghost predicate Lists(field: RawField, required: bool, locations: set<int>) {
    match field
    case Absent => !required && locations == {}
    case NotAList => false
    case Listed(values) =>
      && (forall i :: 0 <= i < |values| ==> values[i].Some? && values[i].value in locations)
      && (forall x :: x in locations ==> exists i :: 0 <= i < |values| && values[i] == Some(x))
      && (forall i, j :: 0 <= i < j < |values| ==> values[i] != values[j])
  }

  lemma ListsExactly(field: RawField, required: bool, locations: set<int>)
    ensures PacketIds(field, required) == Accepted(locations) <==> Lists(field, required, locations)
  {
    if field.Listed? && AreIntegers(field.values) {
      var values, ids := field.values, Integers(field.values);
      assert forall i :: 0 <= i < |ids| ==> values[i] == Some(ids[i]) && ids[i] in Elements(ids);
      IntegersListed(values, locations);
      assert Repeats(ids) <==> !(forall i, j :: 0 <= i < j < |values| ==> values[i] != values[j]);
    }
  }

  lemma IntegersListed(values: seq<Option<int>>, locations: set<int>)
    requires AreIntegers(values)
    ensures Elements(Integers(values)) == locations <==>
              && (forall i :: 0 <= i < |values| ==> values[i].value in locations)
              && (forall x :: x in locations ==> exists i :: 0 <= i < |values| && values[i] == Some(x))
  {
    var ids := Integers(values);
    if Elements(ids) == locations {
      forall i | 0 <= i < |values| ensures values[i].value in locations {
        assert ids[i] in Elements(ids);
      }
      forall x | x in locations ensures exists i :: 0 <= i < |values| && values[i] == Some(x) {
        var i :| 0 <= i < |ids| && ids[i] == x;
        assert values[i] == Some(x);
      }
    }
    if (forall i :: 0 <= i < |values| ==> values[i].value in locations)
       && (forall x :: x in locations ==> exists i :: 0 <= i < |values| && values[i] == Some(x))
    {
      forall x ensures x in Elements(ids) <==> x in locations {
        if x in Elements(ids) {
          var i :| 0 <= i < |ids| && ids[i] == x;
          assert values[i].value == x;
        }
        if x in locations {
          var i :| 0 <= i < |values| && values[i] == Some(x);
          assert ids[i] == x;
        }
      }
      assert Elements(ids) == locations;
    }
  }

  /** A partial update is accepted exactly when its lists name enabled locations, and it confirms those checked. */
  lemma RoomUpdateAcceptedExactly(raw: RawUpdate, slot: SlotData, u: ServerUpdate)
    ensures ParseServerUpdate(raw, false, slot) == Accepted(u) <==>
              && raw.RawUpdate? && slot.Enabled? && !u.full && StrictlyIncreasing(u.checked)
              && Lists(raw.checked, false, Elements(u.checked))
              && exists missing :: Lists(raw.missing, false, missing) && AllEnabled(slot, Elements(u.checked) + missing)
  {
    if raw.RawUpdate? && slot.Enabled? {
      var checked, missing := PacketIds(raw.checked, false), PacketIds(raw.missing, false);
      ListsExactly(raw.checked, false, Elements(u.checked));
      forall m ensures missing == Accepted(m) <==> Lists(raw.missing, false, m) {
        ListsExactly(raw.missing, false, m);
      }
      if checked.Accepted? && missing.Accepted? {
        UpdateOf(checked.value, u);
        assert Lists(raw.missing, false, missing.value);
      }
    }
  }

  lemma UpdateOf(checked: set<int>, u: ServerUpdate)
    ensures u.checked == Sorted(checked) <==> StrictlyIncreasing(u.checked) && Elements(u.checked) == checked
  {
    SortedElements(checked);
    if StrictlyIncreasing(u.checked) {
      SortedFixes(u.checked);
    }
  }

  ghost predicate AllEnabled(slot: SlotData, locations: set<int>)
    requires slot.Enabled?
  {
    locations <= slot.locations && forall x :: x in locations ==> IsLocation(x)
  }
}
