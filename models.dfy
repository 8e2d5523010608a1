/** The records behind the booking pages: offerings (holidays), the bookable
    (holiday, date, time-slot) records with their booking counter, the table
    of time-slot labels, achievements and reviews. */
module Models {
  import opened Common

  /** A calendar date as its proleptic Gregorian ordinal: 0001-01-01, a
      Monday, is 1, and the next day is always the ordinal plus one. */
  type Date = int

  /** `date.weekday()`: Monday is 0 and Sunday is 6. */
  function Weekday(d: Date): (w: int)
    ensures 0 <= w < 7
    ensures (d - 1 - w) % 7 == 0
  {
    (d + 6) % 7
  }

  datatype Category = Category(id: nat, slug: string)

  /** An offering. Only the fields the booking logic reads are kept. */
  datatype Holiday = Holiday(
    id: nat,
    category: nat,
    title: string,
    duration: string,
    minAge: int,
    maxAge: int,
    active: bool)

  /** One bookable (holiday, date, time-slot) record with its booking counter. */
  datatype HolidayDate = HolidayDate(
    id: nat,
    holiday: nat,
    date: Date,
    timeSlot: string,
    maxBookings: int,
    currentBookings: int,
    available: bool)

  // ---------------------------------------------------------------------
  // Choice tables and `dict(pairs).get(key, default)`

  /** `dict(pairs).get(key, default)`. A Python dict built from pairs keeps
      the LAST pair for a repeated key, so the search runs from the end. */
  function DictGet<K(==), V>(pairs: seq<(K, V)>, key: K, default: V): (r: V)
    ensures (forall i :: 0 <= i < |pairs| ==> pairs[i].0 != key) ==> r == default
    ensures (exists i :: 0 <= i < |pairs| && pairs[i].0 == key) ==>
              exists i :: 0 <= i < |pairs| && pairs[i] == (key, r)
  {
    if |pairs| == 0 then default
    else if pairs[|pairs| - 1].0 == key then pairs[|pairs| - 1].1
    else DictGet(pairs[..|pairs| - 1], key, default)
  }

  predicate DistinctKeys<K(==), V>(pairs: seq<(K, V)>) {
    forall i, j :: 0 <= i < j < |pairs| ==> pairs[i].0 != pairs[j].0
  }

  /** With distinct keys, looking a table's key up yields that key's value. */
  lemma {:induction false} DictGetFindsPair<K, V>(pairs: seq<(K, V)>, i: int, default: V)
    requires DistinctKeys(pairs) && 0 <= i < |pairs|
    ensures DictGet(pairs, pairs[i].0, default) == pairs[i].1
  {
    if i < |pairs| - 1 {
      DictGetFindsPair(pairs[..|pairs| - 1], i, default);
    }
  }

  /** `HolidayDate.TIME_SLOTS_2H`: the five 2-hour labels and their display text. */
  const TimeSlots2H: seq<(string, string)> := [
    ("10:00-12:00", "10:00 - 12:00"),
    ("12:00-14:00", "12:00 - 14:00"),
    ("14:00-16:00", "14:00 - 16:00"),
    ("16:00-18:00", "16:00 - 18:00"),
    ("18:00-20:00", "18:00 - 20:00")
  ]

  /** `HolidayDate.TIME_SLOTS_4H`: the three 4-hour labels. */
  const TimeSlots4H: seq<(string, string)> := [
    ("10:00-14:00", "10:00 - 14:00"),
    ("14:00-18:00", "14:00 - 18:00"),
    ("18:00-22:00", "18:00 - 22:00")
  ]

  /** `HolidayDate.TIME_SLOTS`, the choices of the `time_slot` field. */
  const TimeSlots: seq<(string, string)> := TimeSlots2H + TimeSlots4H

  /** The stored labels (keys) of the time-slot table. */
  function SlotLabels(): (labels: seq<string>)
    ensures |labels| == |TimeSlots|
    ensures forall i :: 0 <= i < |TimeSlots| ==> labels[i] == TimeSlots[i].0
  {
    seq(|TimeSlots|, i requires 0 <= i < |TimeSlots| => TimeSlots[i].0)
  }

  /** The table is the 2-hour labels followed by the 4-hour ones: eight
      entries whose keys are pairwise distinct. */
  lemma TimeSlotTableShape()
    ensures |TimeSlots| == 8
    ensures TimeSlots[..5] == TimeSlots2H && TimeSlots[5..] == TimeSlots4H
    ensures DistinctKeys(TimeSlots)
  {
    var ks := SlotLabels();
    assert ks == ["10:00-12:00", "12:00-14:00", "14:00-16:00", "16:00-18:00",
                  "18:00-20:00", "10:00-14:00", "14:00-18:00", "18:00-22:00"];
    // Each label is told apart by its start-hour and end-hour digits.
    var sig := seq(8, k requires 0 <= k < 8 => (ks[k][0], ks[k][1], ks[k][6], ks[k][7]));
    assert sig == [('1', '0', '1', '2'), ('1', '2', '1', '4'), ('1', '4', '1', '6'), ('1', '6', '1', '8'),
                   ('1', '8', '2', '0'), ('1', '0', '1', '4'), ('1', '4', '1', '8'), ('1', '8', '2', '2')];
    forall i, j | 0 <= i < j < |TimeSlots|
      ensures TimeSlots[i].0 != TimeSlots[j].0
    {
      assert sig[i] != sig[j];
    }
  }

  /** `HolidayDate.get_time_slot_display()`. */
  function TimeSlotDisplay(timeSlot: string): (r: string)
    ensures timeSlot !in SlotLabels() ==> r == timeSlot
  {
    DictGet(TimeSlots, timeSlot, timeSlot)
  }

  /** Every known label shows its paired display text. */
  lemma TimeSlotDisplayKnown(i: int)
    requires 0 <= i < |TimeSlots|
    ensures TimeSlotDisplay(TimeSlots[i].0) == TimeSlots[i].1
  {
    TimeSlotTableShape();
    DictGetFindsPair(TimeSlots, i, TimeSlots[i].0);
  }

  // ---------------------------------------------------------------------
  // The slot record

  /** `HolidayDate.is_available()`. */
  predicate IsAvailable(s: HolidayDate) {
    s.available && s.currentBookings < s.maxBookings
  }

  /** An available record has room for at least one more booking, and a
      record whose flag is cleared or whose counter reached the limit is
      not available. */
  lemma AvailableMeansRoom(s: HolidayDate)
    ensures IsAvailable(s) ==> s.maxBookings - s.currentBookings >= 1
    ensures !s.available || s.currentBookings >= s.maxBookings ==> !IsAvailable(s)
  {
  }

  /** A record created with the field defaults: first 2-hour label, limit 2,
      no bookings, open. */
  function NewHolidayDate(id: nat, holiday: nat, date: Date): (s: HolidayDate)
    ensures s.id == id && s.holiday == holiday && s.date == date
    ensures s.timeSlot == TimeSlots[0].0
    ensures s.maxBookings == 2 && s.currentBookings == 0 && s.available
    ensures IsAvailable(s)
  {
    HolidayDate(id, holiday, date, "10:00-12:00", 2, 0, true)
  }

  // ---------------------------------------------------------------------
  // Achievement places

  const PlaceIcons: seq<(int, string)> := [
    (1, "\U{1F947}"),  // first place medal
    (2, "\U{1F948}"),  // second place medal
    (3, "\U{1F949}"),  // third place medal
    (4, "\U{1F3AF}"),  // direct hit
    (5, "\U{1F3C6}")   // trophy
  ]

  /** The icon of any place outside the table: a sports medal. */
  const OtherPlaceIcon: string := "\U{1F3C5}"

  const PlaceTexts: seq<(int, string)> := [
    (1, "1 место"),
    (2, "2 место"),
    (3, "3 место"),
    (4, "Участие"),
    (5, "Победа в номинации")
  ]

  const OtherPlaceText: string := "Участие"

  /** `Achievement.get_place_icon()`. */
  function PlaceIcon(place: int): (r: string)
    ensures !(1 <= place <= 5) ==> r == OtherPlaceIcon
  {
    DictGet(PlaceIcons, place, OtherPlaceIcon)
  }

  /** `Achievement.get_place_text()`. */
  function PlaceText(place: int): (r: string)
    ensures !(1 <= place <= 5) ==> r == OtherPlaceText
  {
    DictGet(PlaceTexts, place, OtherPlaceText)
  }

  /** Both place lookups are total: places 1 to 5 get their fixed entry,
      every other place the fallback, and place 4 reads like the fallback. */
  lemma PlaceLookups(place: int)
    ensures 1 <= place <= 5 ==> PlaceIcon(place) == PlaceIcons[place - 1].1
    ensures 1 <= place <= 5 ==> PlaceText(place) == PlaceTexts[place - 1].1
    ensures !(1 <= place <= 5) ==> PlaceIcon(place) == OtherPlaceIcon && PlaceText(place) == OtherPlaceText
    ensures PlaceText(4) == OtherPlaceText && PlaceIcon(4) != OtherPlaceIcon
  {
    assert DistinctKeys(PlaceIcons) && DistinctKeys(PlaceTexts);
    DictGetFindsPair(PlaceIcons, 3, OtherPlaceIcon);
    DictGetFindsPair(PlaceTexts, 3, OtherPlaceText);
    if 1 <= place <= 5 {
      DictGetFindsPair(PlaceIcons, place - 1, OtherPlaceIcon);
      DictGetFindsPair(PlaceTexts, place - 1, OtherPlaceText);
    }
  }

  // ---------------------------------------------------------------------
  // Review rating

  datatype RatingError = BelowMinimum(limit: int) | AboveMaximum(limit: int)

  /** The errors the rating field's two validators report: Django runs
      `MinValueValidator(1)` and `MaxValueValidator(5)` and collects both. */
  function RatingErrors(rating: int): (errs: seq<RatingError>)
    ensures errs == [] <==> 1 <= rating <= 5
    ensures |errs| <= 1
    ensures rating < 1 ==> errs == [BelowMinimum(1)]
    ensures rating > 5 ==> errs == [AboveMaximum(5)]
  {
    (if rating < 1 then [BelowMinimum(1)] else [])
    + (if rating > 5 then [AboveMaximum(5)] else [])
  }
}
