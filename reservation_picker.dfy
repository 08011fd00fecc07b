/** The customer page's reservation form: which delivery slots it offers for the chosen
    address, and how choosing an address fills in the slot, date and time. The records
    are the JSON the API returns, reduced to the fields the page reads. */
module ReservationPicker {
  import opened Common
  import opened MapPoints
  import opened ZoneBoundaryEditor

  datatype AddressRecord = AddressRecord(id: Id, zoneCoverageId: Option<Id>)
  datatype ZoneRecord = ZoneRecord(id: Id, deliverySlotId: Option<Id>, boundary: Option<GeoJsonPolygon>)
  datatype SlotRecord = SlotRecord(id: Id, timeSlotTemplateId: Id, deliveryDate: string, isActive: bool)
  datatype TemplateRecord = TemplateRecord(id: Id, startTime: string)

  /** The reservation form; an empty select ('') is `None`. */
  datatype ReservationForm = ReservationForm(
    deliveryAddressId: Option<Id>,
    deliverySlotId: Option<Id>,
    reservationDate: string,
    reservationTime: string,
    status: string)

  // ---------------------------------------------------------------------------
  // Map display and times

  /** `polygonToLatLng`: the first ring as map points, closing point included. */
  function PolygonToLatLng(boundary: Option<GeoJsonPolygon>): (points: seq<LatLng>)
    ensures FirstRing(boundary).None? ==> points == []
    ensures FirstRing(boundary).Some? ==>
      && |points| == |FirstRing(boundary).value|
      && forall i | 0 <= i < |points| :: ToPosition(points[i]) == FirstRing(boundary).value[i]
  {
    if FirstRing(boundary).None? then [] else ToLatLngs(FirstRing(boundary).value)
  }

  /** The customer page draws the whole stored ring; the zone editor shows the same
      points, less a closing point. */
  lemma EditorPointsArePrefixOfDrawnRing(boundary: Option<GeoJsonPolygon>)
    ensures var drawn := PolygonToLatLng(boundary);
            var edited := GeoJsonToPoints(boundary);
            && edited <= drawn
            && |drawn| - 1 <= |edited|
  {
  }

  /** `toInputTime` and `formatTime` (the same expression): "HH:MM:SS" shown as "HH:MM";
      a string shorter than five characters is left alone. */
  function ToInputTime(value: string): (shown: string)
    ensures |value| >= 5 ==> |shown| == 5 && shown == value[..5]
    ensures |value| < 5 ==> shown == value
  {
    if |value| >= 5 then value[..5] else value
  }

  lemma ToInputTimeIdempotent(value: string)
    ensures ToInputTime(ToInputTime(value)) == ToInputTime(value)
  {
  }

  // ---------------------------------------------------------------------------
  // Lookups

  /** `array.find`: the first element with the id. */
  function FindAddress(xs: seq<AddressRecord>, id: Id): (r: Option<AddressRecord>)
    ensures r.None? <==> forall i | 0 <= i < |xs| :: xs[i].id != id
    ensures r.Some? ==> r.value.id == id
    ensures r.Some? ==> exists i | 0 <= i < |xs| :: xs[i] == r.value && forall j | 0 <= j < i :: xs[j].id != id
  {
    if xs == [] then None else if xs[0].id == id then Some(xs[0]) else FindAddress(xs[1..], id)
  }

  function FindZone(xs: seq<ZoneRecord>, id: Id): (r: Option<ZoneRecord>)
    ensures r.None? <==> forall i | 0 <= i < |xs| :: xs[i].id != id
    ensures r.Some? ==> r.value.id == id
    ensures r.Some? ==> exists i | 0 <= i < |xs| :: xs[i] == r.value && forall j | 0 <= j < i :: xs[j].id != id
  {
    if xs == [] then None else if xs[0].id == id then Some(xs[0]) else FindZone(xs[1..], id)
  }

  /** `new Map(slots.map(s => [s.id, s])).get(id)`: the last element with the id. */
  function SlotById(xs: seq<SlotRecord>, id: Id): (r: Option<SlotRecord>)
    ensures r.None? <==> forall i | 0 <= i < |xs| :: xs[i].id != id
    ensures r.Some? ==> r.value.id == id
    ensures r.Some? ==> exists i | 0 <= i < |xs| :: xs[i] == r.value && forall j | i < j < |xs| :: xs[j].id != id
  {
    if xs == [] then None
    else if xs[|xs| - 1].id == id then Some(xs[|xs| - 1])
    else SlotById(xs[..|xs| - 1], id)
  }

  function TemplateById(xs: seq<TemplateRecord>, id: Id): (r: Option<TemplateRecord>)
    ensures r.None? <==> forall i | 0 <= i < |xs| :: xs[i].id != id
    ensures r.Some? ==> r.value.id == id
    ensures r.Some? ==> exists i | 0 <= i < |xs| :: xs[i] == r.value && forall j | i < j < |xs| :: xs[j].id != id
  {
    if xs == [] then None
    else if xs[|xs| - 1].id == id then Some(xs[|xs| - 1])
    else TemplateById(xs[..|xs| - 1], id)
  }

  /** When slot ids are unique, the last slot with an id (what the page's map holds) is
      the only one. */
  lemma SlotByIdWhenUnique(xs: seq<SlotRecord>, i: int)
    requires 0 <= i < |xs|
    requires forall j, k | 0 <= j < k < |xs| :: xs[j].id != xs[k].id
    ensures SlotById(xs, xs[i].id) == Some(xs[i])
  {
    var r := SlotById(xs, xs[i].id);
    var j :| 0 <= j < |xs| && xs[j] == r.value && r.value.id == xs[i].id;
    assert j == i;
  }

  /** `array.some(slot => slot.id === id)`. */
  predicate HasSlot(xs: seq<SlotRecord>, id: Id) {
    exists i | 0 <= i < |xs| :: xs[i].id == id
  }

  /** `deliverySlots.filter(slot => slot.isActive)`, order kept. */
  function ActiveSlots(xs: seq<SlotRecord>): (r: seq<SlotRecord>)
    ensures forall s | s in r :: s in xs && s.isActive
    ensures forall s | s in xs && s.isActive :: s in r
  {
    if xs == [] then [] else (if xs[0].isActive then [xs[0]] else []) + ActiveSlots(xs[1..])
  }

  /** `activeSlots.filter(slot => slot.id === id)`, order kept. */
  function SlotsWithId(xs: seq<SlotRecord>, id: Id): (r: seq<SlotRecord>)
    ensures forall s | s in r :: s in xs && s.id == id
    ensures forall s | s in xs && s.id == id :: s in r
  {
    if xs == [] then [] else (if xs[0].id == id then [xs[0]] else []) + SlotsWithId(xs[1..], id)
  }

  /** Filtering a concatenation filters each part and keeps them in order. */
  lemma {:induction false} ActiveSlotsAppend(a: seq<SlotRecord>, b: seq<SlotRecord>)
    ensures ActiveSlots(a + b) == ActiveSlots(a) + ActiveSlots(b)
  {
    if a != [] {
      assert (a + b)[0] == a[0] && (a + b)[1..] == a[1..] + b;
      ActiveSlotsAppend(a[1..], b);
    } else {
      assert a + b == b;
    }
  }

  /** The filter keeps every active slot as often as it occurs and drops the rest. */
  lemma {:induction false} ActiveSlotsMultiplicity(xs: seq<SlotRecord>, s: SlotRecord)
    ensures multiset(ActiveSlots(xs))[s] == if s.isActive then multiset(xs)[s] else 0
  {
    if xs != [] {
      assert xs == [xs[0]] + xs[1..];
      ActiveSlotsMultiplicity(xs[1..], s);
    }
  }

  lemma {:induction false} SlotsWithIdAppend(a: seq<SlotRecord>, b: seq<SlotRecord>, id: Id)
    ensures SlotsWithId(a + b, id) == SlotsWithId(a, id) + SlotsWithId(b, id)
  {
    if a != [] {
      assert (a + b)[0] == a[0] && (a + b)[1..] == a[1..] + b;
      SlotsWithIdAppend(a[1..], b, id);
    } else {
      assert a + b == b;
    }
  }

  lemma {:induction false} SlotsWithIdMultiplicity(xs: seq<SlotRecord>, id: Id, s: SlotRecord)
    ensures multiset(SlotsWithId(xs, id))[s] == if s.id == id then multiset(xs)[s] else 0
  {
    if xs != [] {
      assert xs == [xs[0]] + xs[1..];
      SlotsWithIdMultiplicity(xs[1..], id, s);
    }
  }

  // ---------------------------------------------------------------------------
  // The selections

  /** `selectedAddressForReservation`. */
  function SelectedAddress(addresses: seq<AddressRecord>, form: ReservationForm): (r: Option<AddressRecord>)
    ensures form.deliveryAddressId.None? ==> r.None?
    ensures form.deliveryAddressId.Some? ==> r == FindAddress(addresses, form.deliveryAddressId.value)
  {
    if form.deliveryAddressId.None? then None else FindAddress(addresses, form.deliveryAddressId.value)
  }

  /** `slotIdForSelectedAddress`: the slot bound to the selected address's zone. */
  function SlotIdForSelectedAddress(selected: Option<AddressRecord>, zones: seq<ZoneRecord>): (r: Option<Id>)
    ensures selected.None? || selected.value.zoneCoverageId.None? ==> r.None?
    ensures (selected.Some? && selected.value.zoneCoverageId.Some?
             && FindZone(zones, selected.value.zoneCoverageId.value).None?) ==> r.None?
    ensures r.Some? ==>
      && selected.Some? && selected.value.zoneCoverageId.Some?
      && var zone := FindZone(zones, selected.value.zoneCoverageId.value);
         zone.Some? && zone.value.deliverySlotId == r
  {
    if selected.None? || selected.value.zoneCoverageId.None? then None
    else
      var zone := FindZone(zones, selected.value.zoneCoverageId.value);
      if zone.None? then None else zone.value.deliverySlotId
  }

  /** `availableDeliverySlots`: every active slot when no address is chosen; otherwise
      the active slots bound to the address's zone, plus the slot already in the form
      when it is not among them, so that an existing reservation stays displayable.
      What the offer means is stated by `OfferedSlotsAreBoundOrCurrent`,
      `CurrentSlotOffered` and `NoZoneSlotOffersOnlyInactive` below. */
  function AvailableDeliverySlots(slots: seq<SlotRecord>, selected: Option<AddressRecord>,
                                  form: ReservationForm, slotIdForAddress: Option<Id>): (r: seq<SlotRecord>)
    ensures selected.None? ==> r == ActiveSlots(slots)
    ensures selected.Some? && slotIdForAddress.None? ==>
      var current := if form.deliverySlotId.Some? then SlotById(slots, form.deliverySlotId.value) else None;
      r == (if current.Some? && !HasSlot(ActiveSlots(slots), current.value.id) then [current.value] else [])
    ensures selected.Some? && slotIdForAddress.Some? ==>
      var filtered := SlotsWithId(ActiveSlots(slots), slotIdForAddress.value);
      var current := if form.deliverySlotId.Some? then SlotById(slots, form.deliverySlotId.value) else None;
      r == (if current.Some? && !HasSlot(filtered, current.value.id) then filtered + [current.value] else filtered)
  {
    var activeSlots := ActiveSlots(slots);
    if selected.None? then activeSlots
    else
      var selectedSlot := if form.deliverySlotId.Some? then SlotById(slots, form.deliverySlotId.value) else None;
      if slotIdForAddress.None? then
        if selectedSlot.Some? && !HasSlot(activeSlots, selectedSlot.value.id) then [selectedSlot.value] else []
      else
        var filtered := SlotsWithId(activeSlots, slotIdForAddress.value);
        if selectedSlot.Some? && !HasSlot(filtered, selectedSlot.value.id) then filtered + [selectedSlot.value]
        else filtered
  }

  /** Every slot offered is active and bound to the address's zone, except at most one:
      the slot already in the form. */
  lemma OfferedSlotsAreBoundOrCurrent(slots: seq<SlotRecord>, selected: Option<AddressRecord>,
                                      form: ReservationForm, slotIdForAddress: Option<Id>)
    ensures var offered := AvailableDeliverySlots(slots, selected, form, slotIdForAddress);
            forall s | s in offered ::
              && s in slots
              && ((s.isActive && (selected.None? || slotIdForAddress == Some(s.id)))
                  || (form.deliverySlotId.Some? && SlotById(slots, form.deliverySlotId.value) == Some(s)))
  {
  }

  /** With an address whose zone has a slot, the slot already in the form is always
      offered, when it exists. */
  lemma CurrentSlotOffered(slots: seq<SlotRecord>, selected: Option<AddressRecord>,
                           form: ReservationForm, slotIdForAddress: Option<Id>)
    requires selected.Some? && slotIdForAddress.Some?
    requires form.deliverySlotId.Some? && SlotById(slots, form.deliverySlotId.value).Some?
    ensures HasSlot(AvailableDeliverySlots(slots, selected, form, slotIdForAddress), form.deliverySlotId.value)
  {
    var current := SlotById(slots, form.deliverySlotId.value).value;
    var filtered := SlotsWithId(ActiveSlots(slots), slotIdForAddress.value);
    var offered := AvailableDeliverySlots(slots, selected, form, slotIdForAddress);
    if !HasSlot(filtered, current.id) {
      assert offered == filtered + [current];
      assert offered[|filtered|] == current;
    }
  }

  /** With an address whose zone has no slot, no active slot is offered: the list holds
      the slot already in the form only when no active slot carries its id. */
  lemma NoZoneSlotOffersOnlyInactive(slots: seq<SlotRecord>, selected: Option<AddressRecord>,
                                     form: ReservationForm)
    requires selected.Some?
    ensures var offered := AvailableDeliverySlots(slots, selected, form, None);
            && |offered| <= 1
            && (offered != [] <==>
                  form.deliverySlotId.Some? && SlotById(slots, form.deliverySlotId.value).Some?
                  && !HasSlot(ActiveSlots(slots), form.deliverySlotId.value))
            && forall s | s in offered :: !s.isActive
  {
    var offered := AvailableDeliverySlots(slots, selected, form, None);
    if offered != [] {
      var current := SlotById(slots, form.deliverySlotId.value).value;
      assert offered == [current];
    }
  }

  // ---------------------------------------------------------------------------
  // Choosing an address

  /** `handleReservationAddressChange`: clearing the address clears the slot; choosing
      one fills in its zone's slot, that slot's date and its template's start time,
      keeping the previous date or time where there is no slot or template to take it
      from. The zone is only looked up for a truthy zone id. */
  function AddressChange(form: ReservationForm, deliveryAddressId: Option<Id>,
                         addresses: seq<AddressRecord>, zones: seq<ZoneRecord>,
                         slots: seq<SlotRecord>, templates: seq<TemplateRecord>): (next: ReservationForm)
    ensures next.status == form.status && next.deliveryAddressId == deliveryAddressId
    ensures deliveryAddressId.None? ==> next == form.(deliveryAddressId := None, deliverySlotId := None)
    ensures deliveryAddressId.Some? ==>
      var address := FindAddress(addresses, deliveryAddressId.value);
      var zone := if address.Some? && address.value.zoneCoverageId.Some? && address.value.zoneCoverageId.value != 0
                  then FindZone(zones, address.value.zoneCoverageId.value) else None;
      var slot := if next.deliverySlotId.Some? then SlotById(slots, next.deliverySlotId.value) else None;
      var template := if slot.Some? then TemplateById(templates, slot.value.timeSlotTemplateId) else None;
      && next.deliverySlotId == (if zone.Some? then zone.value.deliverySlotId else None)
      && next.reservationDate == (if slot.Some? then slot.value.deliveryDate else form.reservationDate)
      && next.reservationTime == (if template.Some? then ToInputTime(template.value.startTime) else form.reservationTime)
  {
    if deliveryAddressId.None? then form.(deliveryAddressId := None, deliverySlotId := None)
    else
      var selectedAddress := FindAddress(addresses, deliveryAddressId.value);
      var zone := if selectedAddress.Some? && selectedAddress.value.zoneCoverageId.Some?
                     && selectedAddress.value.zoneCoverageId.value != 0
                  then FindZone(zones, selectedAddress.value.zoneCoverageId.value) else None;
      var slotId := if zone.Some? then zone.value.deliverySlotId else None;
      var slot := if slotId.Some? then SlotById(slots, slotId.value) else None;
      var template := if slot.Some? then TemplateById(templates, slot.value.timeSlotTemplateId) else None;
      form.(deliveryAddressId := deliveryAddressId,
            deliverySlotId := slotId,
            reservationDate := if slot.Some? then slot.value.deliveryDate else form.reservationDate,
            reservationTime := if template.Some? then ToInputTime(template.value.startTime) else form.reservationTime)
  }

  /** After an address is chosen, the form's slot is the one the offered list is built
      around, and that slot, when it exists, is among those offered. */
  lemma ChosenSlotIsOffered(form: ReservationForm, deliveryAddressId: Id,
                            addresses: seq<AddressRecord>, zones: seq<ZoneRecord>,
                            slots: seq<SlotRecord>, templates: seq<TemplateRecord>)
    requires FindAddress(addresses, deliveryAddressId).Some?
    requires FindAddress(addresses, deliveryAddressId).value.zoneCoverageId != Some(0)
    ensures var next := AddressChange(form, Some(deliveryAddressId), addresses, zones, slots, templates);
            var selected := SelectedAddress(addresses, next);
            && next.deliverySlotId == SlotIdForSelectedAddress(selected, zones)
            && (next.deliverySlotId.Some? && SlotById(slots, next.deliverySlotId.value).Some? ==>
                HasSlot(AvailableDeliverySlots(slots, selected, next, SlotIdForSelectedAddress(selected, zones)),
                        next.deliverySlotId.value))
  {
    var next := AddressChange(form, Some(deliveryAddressId), addresses, zones, slots, templates);
    var selected := SelectedAddress(addresses, next);
    if next.deliverySlotId.Some? && SlotById(slots, next.deliverySlotId.value).Some? {
      CurrentSlotOffered(slots, selected, next, SlotIdForSelectedAddress(selected, zones));
    }
  }
}
