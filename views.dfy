/** The request handlers of the site that carry logic: booking admission
    (`create_full_order`), the free-slot listing (`get_available_dates`), the
    offering list's filters (`HolidaysView.get_queryset`) and the training
    sign-up (`register_training`). */
module Views {
  import opened Common
  import opened Models
  import opened Store

  // =====================================================================
  // create_full_order

  /** What a booking request carries. `form` is the validated form (`None`
      when `form.is_valid()` fails); an id is `None` when the POST field is
      missing or empty. */
  datatype OrderRequest = OrderRequest(
    isPost: bool,
    form: Option<OrderForm>,
    holidayId: Option<nat>,
    dateId: Option<nat>)

  /** The JSON answers of `create_full_order`, one per exit. */
  datatype OrderOutcome =
    | MethodNotAllowed    // not a POST
    | FormRejected        // the form's own errors
    | SelectionMissing    // no holiday or no date chosen
    | RequestFailed       // a lookup failed; the catch-all answer
    | SlotTaken           // counter already at the limit
    | SlotUnavailable     // the record is not available
    | OrderAccepted

  /** The conditions under which a booking request is admitted. */
  ghost predicate Admissible(db: Db, req: OrderRequest) {
    && req.isPost
    && req.form.Some?
    && req.holidayId.Some? && req.dateId.Some?
    && req.holidayId.value in HolidayIds(db.holidays)
    && req.dateId.value in db.slots
    && IsAvailable(db.slots[req.dateId.value])
  }

  /** The slot record after one more booking: the counter goes up by one and
      the record closes once the counter reaches the limit. */
  function Booked(s: HolidayDate): (t: HolidayDate)
    ensures t.currentBookings == s.currentBookings + 1
    ensures t == s.(currentBookings := t.currentBookings, available := t.available)
    ensures !t.available <==> !s.available || t.currentBookings >= t.maxBookings
  {
    var t := s.(currentBookings := s.currentBookings + 1);
    if t.currentBookings >= t.maxBookings then t.(available := false) else t
  }

  /** `create_full_order` as a function of the store: the answer and the
      store afterwards. The slot record is found by `date_id` alone; nothing
      compares its holiday with `holiday_id`. */
  function Admit(db: Db, req: OrderRequest): (r: (OrderOutcome, Db))
    ensures r.1.holidays == db.holidays && r.1.nextSlotId == db.nextSlotId
    ensures r.1.slots.Keys == db.slots.Keys
  {
    if !req.isPost then (MethodNotAllowed, db)
    else if req.form.None? then (FormRejected, db)
    else if req.holidayId.None? || req.dateId.None? then (SelectionMissing, db)
    else if FindHoliday(db.holidays, req.holidayId.value).None? then (RequestFailed, db)
    else if req.dateId.value !in db.slots then (RequestFailed, db)
    else
      var dateId := req.dateId.value;
      var slot := db.slots[dateId];
      if IsAvailable(slot) then
        if slot.currentBookings >= slot.maxBookings then
          (SlotTaken, db.(slots := db.slots[dateId := slot.(available := false)]))
        else
          var order := FullOrder(req.holidayId.value, dateId, req.form.value);
          (OrderAccepted, db.(orders := db.orders + [order], slots := db.slots[dateId := Booked(slot)]))
      else (SlotUnavailable, db)
  }

  /** A request is accepted exactly when it is admissible. */
  lemma AdmitAcceptsExactly(db: Db, req: OrderRequest)
    ensures Admit(db, req).0 == OrderAccepted <==> Admissible(db, req)
  {
  }

  /** The "limit exceeded" branch is dead: an available record is always
      below its limit. */
  lemma AdmitNeverTakesLimitBranch(db: Db, req: OrderRequest)
    ensures Admit(db, req).0 != SlotTaken
  {
  }

  /** A rejected request changes neither the slot records nor the orders. */
  lemma AdmitRejectionChangesNothing(db: Db, req: OrderRequest)
    ensures Admit(db, req).0 != OrderAccepted ==> Admit(db, req).1 == db
  {
  }

  /** An accepted request appends exactly one order, linked to the given
      holiday and slot record, and books that record once; nothing else
      changes. */
  lemma AdmitAcceptedEffect(db: Db, req: OrderRequest)
    requires Admit(db, req).0 == OrderAccepted
    ensures var after := Admit(db, req).1;
      && after.orders == db.orders + [FullOrder(req.holidayId.value, req.dateId.value, req.form.value)]
      && after.slots == db.slots[req.dateId.value := Booked(db.slots[req.dateId.value])]
      && after.holidays == db.holidays && after.nextSlotId == db.nextSlotId
  {
  }

  /** Admission keeps the database's own constraints. */
  lemma AdmitKeepsIntegrity(db: Db, req: OrderRequest)
    requires Integrity(db)
    ensures Integrity(Admit(db, req).1)
  {
    var after := Admit(db, req).1;
    if Admit(db, req).0 == OrderAccepted {
      var id := req.dateId.value;
      forall a, b | a in after.slots && b in after.slots && KeyOf(after.slots[a]) == KeyOf(after.slots[b])
        ensures a == b
      {
        assert KeyOf(after.slots[a]) == KeyOf(db.slots[a]);
        assert KeyOf(after.slots[b]) == KeyOf(db.slots[b]);
      }
      forall i | 0 <= i < |after.orders|
        ensures after.orders[i].holidayDate in after.slots && after.orders[i].holiday in HolidayIds(after.holidays)
      {
        if i < |db.orders| {
          assert after.orders[i] == db.orders[i];
        }
      }
    }
  }

  lemma {:induction false} BookingsOfAppend(orders: seq<FullOrder>, o: FullOrder, id: nat)
    ensures BookingsOf(orders + [o], id) == BookingsOf(orders, id) + (if o.holidayDate == id then 1 else 0)
  {
    assert (orders + [o])[..|orders|] == orders;
  }

  /** Admission keeps the ledger invariants: counters stay within their
      limits, a full record is closed, and each counter equals the number of
      orders booked against it. */
  lemma AdmitKeepsLedger(db: Db, req: OrderRequest)
    requires Ledger(db)
    ensures Ledger(Admit(db, req).1)
  {
    if Admit(db, req).0 == OrderAccepted {
      var after := Admit(db, req).1;
      var o := FullOrder(req.holidayId.value, req.dateId.value, req.form.value);
      forall id | id in after.slots
        ensures after.slots[id].currentBookings == BookingsOf(after.orders, id)
      {
        BookingsOfAppend(db.orders, o, id);
      }
    }
  }

  /** The counter bound alone is kept, whatever the orders table says: a
      record is booked only while its counter is below its limit. This holds
      even after the counters were edited by hand or orders were deleted. */
  lemma AdmitKeepsBounded(db: Db, req: OrderRequest)
    requires Bounded(db.slots)
    ensures Bounded(Admit(db, req).1.slots)
  {
  }

  /** A sequence of booking requests handled one after another. */
  function AdmitAll(db: Db, reqs: seq<OrderRequest>): (after: Db)
    ensures after.holidays == db.holidays && after.slots.Keys == db.slots.Keys
  {
    if |reqs| == 0 then db
    else Admit(AdmitAll(db, reqs[..|reqs| - 1]), reqs[|reqs| - 1]).1
  }

  /** However many requests arrive, a slot record never holds more orders
      than its limit, provided the ledger was consistent at the start. */
  lemma {:induction false} AdmitAllWithinLimits(db: Db, reqs: seq<OrderRequest>)
    requires Ledger(db)
    ensures Ledger(AdmitAll(db, reqs))
    ensures forall id :: id in db.slots ==>
              BookingsOf(AdmitAll(db, reqs).orders, id) <= AdmitAll(db, reqs).slots[id].maxBookings
  {
    if |reqs| > 0 {
      AdmitAllWithinLimits(db, reqs[..|reqs| - 1]);
      AdmitKeepsLedger(AdmitAll(db, reqs[..|reqs| - 1]), reqs[|reqs| - 1]);
    }
    var after := AdmitAll(db, reqs);
    forall id | id in db.slots
      ensures BookingsOf(after.orders, id) <= after.slots[id].maxBookings
    {
      LedgerWithinLimits(after, id);
    }
  }

  /** However many requests arrive, no counter passes its limit, provided
      every counter started at or below it. */
  lemma {:induction false} AdmitAllBounded(db: Db, reqs: seq<OrderRequest>)
    requires Bounded(db.slots)
    ensures Bounded(AdmitAll(db, reqs).slots)
  {
    if |reqs| > 0 {
      AdmitAllBounded(db, reqs[..|reqs| - 1]);
      AdmitKeepsBounded(AdmitAll(db, reqs[..|reqs| - 1]), reqs[|reqs| - 1]);
    }
  }

  /** Nothing ties the slot record to the chosen holiday: a request naming
      holiday 1 and a record of holiday 2 is accepted, and the order links
      the two. */
  lemma SlotHolidayNotChecked()
    ensures exists db: Db, req: OrderRequest ::
      && Integrity(db)
      && Admit(db, req).0 == OrderAccepted
      && db.slots[req.dateId.value].holiday != req.holidayId.value
  {
    var h1 := Holiday(1, 0, "", "", 3, 12, true);
    var h2 := Holiday(2, 0, "", "", 3, 12, true);
    var slot := HolidayDate(7, 2, 739000, "10:00-12:00", 2, 0, true);
    var db := Db([h1, h2], map[7 := slot], 8, []);
    var form := OrderForm("", "", "", 1, "", "");
    var req := OrderRequest(true, Some(form), Some(1), Some(7));
    assert h1 in db.holidays && h2 in db.holidays;
    assert Integrity(db);
    assert Admit(db, req).0 == OrderAccepted;
  }

  /** The view itself: the slot record is read, updated in place and saved,
      and the order is appended. The "limit exceeded" branch of the source
      is the branch `Admit` proves dead, so it holds no statements here. */
  method CreateFullOrder(db: Database, req: OrderRequest) returns (outcome: OrderOutcome)
    requires db.Valid()
    modifies db
    ensures db.Valid()
    ensures (outcome, db.State()) == Admit(old(db.State()), req)
  {
    ghost var before := db.State();
    if !req.isPost {
      return MethodNotAllowed;
    }
    if req.form.None? {
      return FormRejected;
    }
    if req.holidayId.None? || req.dateId.None? {
      return SelectionMissing;
    }
    var holiday := FindHoliday(db.holidays, req.holidayId.value);
    if holiday.None? || req.dateId.value !in db.slots {
      return RequestFailed;
    }
    var dateId := req.dateId.value;
    var holidayDate := db.slots[dateId];
    if IsAvailable(holidayDate) {
      if holidayDate.currentBookings >= holidayDate.maxBookings {
        assert false;
      }
      db.orders := db.orders + [FullOrder(holiday.value.id, dateId, req.form.value)];
      holidayDate := holidayDate.(currentBookings := holidayDate.currentBookings + 1);
      if holidayDate.currentBookings >= holidayDate.maxBookings {
        holidayDate := holidayDate.(available := false);
      }
      db.slots := db.slots[dateId := holidayDate];
      outcome := OrderAccepted;
      assert holidayDate == Booked(before.slots[dateId]);
      assert db.State() == Admit(before, req).1;
      assert db.Valid() by {
        AdmitKeepsIntegrity(before, req);
      }
    } else {
      outcome := SlotUnavailable;
    }
  }

  // =====================================================================
  // get_available_dates

  /** One slot of a date in the answer: the record's id, its stored label and
      how many bookings it can still take. */
  datatype SlotEntry = SlotEntry(id: nat, time: string, free: int)

  /** One date of the answer with its slots. The `%d.%m.%Y` text of the
      date is a one-to-one image of the date, so the date stands for it. */
  datatype DateEntry = DateEntry(date: Date, slots: seq<SlotEntry>)

  /** The query's filter (this holiday, `available=True`, `date >= today`)
      together with the loop's `is_available()` test. */
  predicate Listed(s: HolidayDate, holidayId: nat, today: Date) {
    s.holiday == holidayId && s.available && s.date >= today && IsAvailable(s)
  }

  function EntryOf(s: HolidayDate): SlotEntry {
    SlotEntry(s.id, s.timeSlot, s.maxBookings - s.currentBookings)
  }

  /** True when some listed row falls on date `d`. */
  ghost predicate ListedOn(rows: seq<HolidayDate>, holidayId: nat, today: Date, d: Date) {
    exists i :: 0 <= i < |rows| && Listed(rows[i], holidayId, today) && rows[i].date == d
  }

  /** The dates of the listed rows, each once, in the order first seen. */
  function SeenDates(rows: seq<HolidayDate>, holidayId: nat, today: Date): (ds: seq<Date>)
    ensures forall d :: d in ds <==> ListedOn(rows, holidayId, today, d)
    ensures forall a, b :: 0 <= a < b < |ds| ==> ds[a] != ds[b]
  {
    if |rows| == 0 then []
    else
      var prefix := rows[..|rows| - 1];
      var prev := SeenDates(prefix, holidayId, today);
      var last := rows[|rows| - 1];
      assert forall d :: ListedOn(prefix, holidayId, today, d) ==> ListedOn(rows, holidayId, today, d) by {
        forall d | ListedOn(prefix, holidayId, today, d) ensures ListedOn(rows, holidayId, today, d) {
          var i :| 0 <= i < |prefix| && Listed(prefix[i], holidayId, today) && prefix[i].date == d;
          assert rows[i] == prefix[i];
        }
      }
      assert forall d :: ListedOn(rows, holidayId, today, d) && d != last.date ==> ListedOn(prefix, holidayId, today, d) by {
        forall d | ListedOn(rows, holidayId, today, d) && d != last.date ensures ListedOn(prefix, holidayId, today, d) {
          var i :| 0 <= i < |rows| && Listed(rows[i], holidayId, today) && rows[i].date == d;
          assert prefix[i] == rows[i];
        }
      }
      assert Listed(last, holidayId, today) ==> ListedOn(rows, holidayId, today, last.date);
      assert !Listed(last, holidayId, today) ==>
        forall d :: ListedOn(rows, holidayId, today, d) ==> ListedOn(prefix, holidayId, today, d) by {
        if !Listed(last, holidayId, today) {
          forall d | ListedOn(rows, holidayId, today, d) ensures ListedOn(prefix, holidayId, today, d) {
            var i :| 0 <= i < |rows| && Listed(rows[i], holidayId, today) && rows[i].date == d;
            assert i < |prefix| && prefix[i] == rows[i];
          }
        }
      }
      if Listed(last, holidayId, today) && last.date !in prev then prev + [last.date] else prev
  }

  /** The entries of the listed rows on date `d`, in row order. */
  function EntriesOn(rows: seq<HolidayDate>, holidayId: nat, today: Date, d: Date): (es: seq<SlotEntry>)
    ensures forall e :: e in es ==> e.free > 0
    ensures forall e :: e in es ==>
              exists i :: 0 <= i < |rows| && Listed(rows[i], holidayId, today) && rows[i].date == d && EntryOf(rows[i]) == e
    ensures forall i :: 0 <= i < |rows| && Listed(rows[i], holidayId, today) && rows[i].date == d ==> EntryOf(rows[i]) in es
  {
    if |rows| == 0 then []
    else
      var prefix := rows[..|rows| - 1];
      var prev := EntriesOn(prefix, holidayId, today, d);
      var last := rows[|rows| - 1];
      assert forall i :: 0 <= i < |prefix| ==> prefix[i] == rows[i];
      if Listed(last, holidayId, today) && last.date == d then prev + [EntryOf(last)] else prev
  }

  /** The answer's date list: one entry per date, in first-seen order, each
      with that date's slots in row order. */
  function DatesListing(rows: seq<HolidayDate>, holidayId: nat, today: Date): (r: seq<DateEntry>)
    ensures |r| == |SeenDates(rows, holidayId, today)|
    ensures forall k :: 0 <= k < |r| ==> r[k].date == SeenDates(rows, holidayId, today)[k]
  {
    var ds := SeenDates(rows, holidayId, today);
    seq(|ds|, k requires 0 <= k < |ds| => DateEntry(ds[k], EntriesOn(rows, holidayId, today, ds[k])))
  }

  /** The dates seen in any prefix of the rows are a prefix of the dates
      seen in all of them: a date takes its place when its first listed row
      is read, and later rows never reorder it. */
  lemma {:induction false} SeenDatesGrowAtEnd(rows: seq<HolidayDate>, holidayId: nat, today: Date, n: nat)
    requires n <= |rows|
    ensures var head := SeenDates(rows[..n], holidayId, today);
      |head| <= |SeenDates(rows, holidayId, today)| && head == SeenDates(rows, holidayId, today)[..|head|]
  {
    if n < |rows| {
      var prefix := rows[..|rows| - 1];
      assert prefix[..n] == rows[..n];
      SeenDatesGrowAtEnd(prefix, holidayId, today, n);
      var prev := SeenDates(prefix, holidayId, today);
      var whole := SeenDates(rows, holidayId, today);
      assert whole == prev || whole == prev + [rows[|rows| - 1].date];
      assert whole[..|prev|] == prev;
    } else {
      assert rows[..n] == rows;
    }
  }

  /** One more row extends the entries of each date by that row's entry
      when the row is listed on it, and leaves them alone otherwise. */
  lemma EntriesOnStep(rows: seq<HolidayDate>, holidayId: nat, today: Date, i: nat)
    requires i < |rows|
    ensures forall d ::
              EntriesOn(rows[..i + 1], holidayId, today, d) ==
              (if Listed(rows[i], holidayId, today) && rows[i].date == d
               then EntriesOn(rows[..i], holidayId, today, d) + [EntryOf(rows[i])]
               else EntriesOn(rows[..i], holidayId, today, d))
  {
    assert rows[..i + 1][..i] == rows[..i];
  }

  /** One more row appends its date to the seen dates when it is listed and
      its date is new, and leaves them alone otherwise. */
  lemma SeenDatesStep(rows: seq<HolidayDate>, holidayId: nat, today: Date, i: nat)
    requires i < |rows|
    ensures var prev := SeenDates(rows[..i], holidayId, today);
      SeenDates(rows[..i + 1], holidayId, today) ==
        if Listed(rows[i], holidayId, today) && rows[i].date !in prev then prev + [rows[i].date] else prev
  {
    assert rows[..i + 1][..i] == rows[..i];
  }

  /** A date with no listed row has no entries. */
  lemma {:induction false} EntriesOnUnseen(rows: seq<HolidayDate>, holidayId: nat, today: Date, d: Date)
    requires d !in SeenDates(rows, holidayId, today)
    ensures EntriesOn(rows, holidayId, today, d) == []
  {
    if |rows| > 0 {
      var prefix := rows[..|rows| - 1];
      var last := rows[|rows| - 1];
      assert !ListedOn(rows, holidayId, today, d);
      forall i | 0 <= i < |prefix| ensures !(Listed(prefix[i], holidayId, today) && prefix[i].date == d) {
        assert rows[i] == prefix[i];
      }
      EntriesOnUnseen(prefix, holidayId, today, d);
    }
  }

  /** What the answer promises: dates are distinct; every reported slot is
      a listed row of that date with at least one free place; every listed
      row is reported, in the one entry for its date. */
  lemma ListingFacts(rows: seq<HolidayDate>, holidayId: nat, today: Date)
    ensures var r := DatesListing(rows, holidayId, today);
      && (forall a, b :: 0 <= a < b < |r| ==> r[a].date != r[b].date)
      && (forall k, e :: 0 <= k < |r| && e in r[k].slots ==>
            e.free > 0 && exists i :: 0 <= i < |rows| && Listed(rows[i], holidayId, today)
                                    && rows[i].date == r[k].date && EntryOf(rows[i]) == e)
      && (forall i :: 0 <= i < |rows| && Listed(rows[i], holidayId, today) ==>
            exists k :: 0 <= k < |r| && r[k].date == rows[i].date && EntryOf(rows[i]) in r[k].slots)
  {
    var r := DatesListing(rows, holidayId, today);
    var ds := SeenDates(rows, holidayId, today);
    forall i | 0 <= i < |rows| && Listed(rows[i], holidayId, today)
      ensures exists k :: 0 <= k < |r| && r[k].date == rows[i].date && EntryOf(rows[i]) in r[k].slots
    {
      assert ListedOn(rows, holidayId, today, rows[i].date);
      var k :| 0 <= k < |ds| && ds[k] == rows[i].date;
      assert r[k].slots == EntriesOn(rows, holidayId, today, ds[k]);
    }
  }

  predicate StrictlyAscending(ds: seq<Date>) {
    forall a, b :: 0 <= a < b < |ds| ==> ds[a] < ds[b]
  }

  /** When the rows come ordered by date, as the query orders them, the
      answer's dates are strictly increasing. */
  lemma {:induction false} ListingDatesAscending(rows: seq<HolidayDate>, holidayId: nat, today: Date)
    requires forall i, j :: 0 <= i < j < |rows| ==> rows[i].date <= rows[j].date
    ensures StrictlyAscending(SeenDates(rows, holidayId, today))
  {
    if |rows| > 0 {
      var prefix := rows[..|rows| - 1];
      var last := rows[|rows| - 1];
      ListingDatesAscending(prefix, holidayId, today);
      var prev := SeenDates(prefix, holidayId, today);
      forall d | d in prev ensures d <= last.date {
        assert ListedOn(prefix, holidayId, today, d);
        var i :| 0 <= i < |prefix| && Listed(prefix[i], holidayId, today) && prefix[i].date == d;
        assert prefix[i] == rows[i];
      }
      var ds := SeenDates(rows, holidayId, today);
      if Listed(last, holidayId, today) && last.date !in prev {
        assert ds == prev + [last.date];
        forall a, b | 0 <= a < b < |ds| ensures ds[a] < ds[b] {
          assert ds[a] == prev[a] && prev[a] in prev;
          if b < |prev| {
            assert ds[b] == prev[b];
          }
        }
      } else {
        assert ds == prev;
      }
    }
  }

  /** The grouping loop of the view: the listed rows' entries collected in a
      dictionary keyed by date, with the dictionary's insertion order. */
  method GroupByDate(rows: seq<HolidayDate>, holidayId: nat, today: Date)
    returns (datesDict: map<Date, seq<SlotEntry>>, dateOrder: seq<Date>)
    ensures dateOrder == SeenDates(rows, holidayId, today)
    ensures forall d :: d in datesDict <==> d in dateOrder
    ensures forall d :: d in datesDict ==> datesDict[d] == EntriesOn(rows, holidayId, today, d)
  {
    datesDict := map[];
    dateOrder := [];
    for i := 0 to |rows|
      invariant dateOrder == SeenDates(rows[..i], holidayId, today)
      invariant forall d :: d in datesDict <==> d in dateOrder
      invariant forall d :: d in datesDict ==> datesDict[d] == EntriesOn(rows[..i], holidayId, today, d)
    {
      var slot := rows[i];
      EntriesOnStep(rows, holidayId, today, i);
      SeenDatesStep(rows, holidayId, today, i);
      ghost var before := datesDict;
      if slot.holiday == holidayId && slot.available && slot.date >= today {
        if IsAvailable(slot) {
          var dateKey := slot.date;
          if dateKey !in datesDict {
            EntriesOnUnseen(rows[..i], holidayId, today, dateKey);
            datesDict := datesDict[dateKey := []];
            dateOrder := dateOrder + [dateKey];
          }
          datesDict := datesDict[dateKey := datesDict[dateKey] + [EntryOf(slot)]];
        }
      }
      forall d | d in datesDict
        ensures datesDict[d] == EntriesOn(rows[..i + 1], holidayId, today, d)
      {
        if !(Listed(slot, holidayId, today) && slot.date == d) {
          assert d in before && datesDict[d] == before[d];
        }
      }
    }
    assert rows[..|rows|] == rows;
  }

  /** The answer loop of the view: one entry per dictionary key, in
      insertion order, carrying that key's entries. */
  method DictItems(datesDict: map<Date, seq<SlotEntry>>, dateOrder: seq<Date>) returns (result: seq<DateEntry>)
    requires forall j :: 0 <= j < |dateOrder| ==> dateOrder[j] in datesDict
    ensures |result| == |dateOrder|
    ensures forall j :: 0 <= j < |dateOrder| ==> result[j] == DateEntry(dateOrder[j], datesDict[dateOrder[j]])
  {
    result := [];
    for k := 0 to |dateOrder|
      invariant |result| == k
      invariant forall j :: 0 <= j < k ==> result[j] == DateEntry(dateOrder[j], datesDict[dateOrder[j]])
    {
      result := result + [DateEntry(dateOrder[k], datesDict[dateOrder[k]])];
    }
  }

  /** The view: `None` is the 404 for an unknown holiday; otherwise the
      slots are grouped into a dictionary keyed by date, in insertion order,
      and the dictionary is then turned into the answer's list. */
  method GetAvailableDates(holidays: seq<Holiday>, rows: seq<HolidayDate>, holidayId: nat, today: Date)
    returns (r: Option<seq<DateEntry>>)
    ensures r.None? <==> holidayId !in HolidayIds(holidays)
    ensures r.Some? ==> r.value == DatesListing(rows, holidayId, today)
  {
    var holiday := FindHoliday(holidays, holidayId);
    if holiday.None? {
      return None;
    }
    var datesDict, dateOrder := GroupByDate(rows, holidayId, today);
    assert forall j :: 0 <= j < |dateOrder| ==> dateOrder[j] in dateOrder;
    var result := DictItems(datesDict, dateOrder);
    ghost var listing := DatesListing(rows, holidayId, today);
    assert |result| == |listing|;
    forall k | 0 <= k < |result| ensures result[k] == listing[k] {
      assert dateOrder[k] in dateOrder;
    }
    return Some(result);
  }

  // =====================================================================
  // HolidaysView.get_queryset

  /** `queryset.filter(...)`: the rows `keep` accepts, in their order. */
  function Where(hs: seq<Holiday>, keep: Holiday -> bool): (r: seq<Holiday>)
    ensures |r| <= |hs|
    ensures forall h :: h in r <==> h in hs && keep(h)
  {
    if |hs| == 0 then []
    else (if keep(hs[0]) then [hs[0]] else []) + Where(hs[1..], keep)
  }

  /** `Category.objects.get(slug=slug)`, `None` when no row has that slug. */
  function FindCategory(categories: seq<Category>, slug: string): (r: Option<Category>)
    ensures r.Some? <==> exists c :: c in categories && c.slug == slug
    ensures r.Some? ==> r.value in categories && r.value.slug == slug
  {
    if |categories| == 0 then None
    else if categories[0].slug == slug then Some(categories[0])
    else FindCategory(categories[1..], slug)
  }

  /** The age a query string asks for: only a non-empty run of digits
      counts; anything else leaves the list unfiltered. */
  function AgeParam(age: Option<string>): (r: Option<nat>)
    ensures r.Some? <==> age.Some? && IsDigitString(age.value)
  {
    if age.Some? && IsDigitString(age.value) then Some(DecimalValue(age.value)) else None
  }

  /** `HolidaysView.get_queryset()`: the active offerings, narrowed to the
      category the URL names (an empty slug names none) and to the age the
      query string gives. `None` is the 404 for an unknown category slug. */
  function HolidaysQuery(holidays: seq<Holiday>, categories: seq<Category>, categorySlug: string, age: Option<string>)
    : (r: Option<seq<Holiday>>)
    ensures r.None? <==> categorySlug != "" && FindCategory(categories, categorySlug).None?
  {
    var active := Where(holidays, (h: Holiday) => h.active);
    if categorySlug != "" && FindCategory(categories, categorySlug).None? then None
    else
      var inCategory :=
        if categorySlug != "" then
          var categoryId := FindCategory(categories, categorySlug).value.id;
          Where(active, (h: Holiday) => h.category == categoryId)
        else active;
      var ageValue := AgeParam(age);
      if ageValue.Some? then
        var a := ageValue.value;
        Some(Where(inCategory, (h: Holiday) => h.minAge <= a && h.maxAge >= a))
      else Some(inCategory)
  }

  /** A digit-only age keeps exactly the active offerings whose age range
      contains it; a missing or non-numeric age filters nothing. */
  lemma HolidaysQueryByAge(holidays: seq<Holiday>, age: Option<string>)
    ensures var r := HolidaysQuery(holidays, [], "", age);
      && r.Some?
      && (AgeParam(age).Some? ==>
            forall h :: h in r.value <==> h in holidays && h.active && h.minAge <= AgeParam(age).value <= h.maxAge)
      && (AgeParam(age).None? ==> forall h :: h in r.value <==> h in holidays && h.active)
  {
  }

  /** With a known category slug, the list holds exactly the active
      offerings of that category that pass the age filter. */
  lemma HolidaysQueryByCategory(holidays: seq<Holiday>, categories: seq<Category>, slug: string, age: Option<string>)
    requires slug != "" && FindCategory(categories, slug).Some?
    ensures var r := HolidaysQuery(holidays, categories, slug, age);
      var c := FindCategory(categories, slug).value;
      && r.Some?
      && forall h :: h in r.value <==>
           && h in holidays && h.active && h.category == c.id
           && (AgeParam(age).Some? ==> h.minAge <= AgeParam(age).value <= h.maxAge)
  {
  }

  // =====================================================================
  // register_training

  datatype TrainingRegistration = TrainingRegistration(
    parentName: string,
    phone: string,
    childName: string,
    childAge: int,
    ageGroup: string,
    visitType: string)

  /** The JSON answers of `register_training`; `TrainingSaved` carries the
      row the handler creates. */
  datatype TrainingOutcome =
    | TrainingMethodNotAllowed
    | FieldsMissing                  // "fill in all fields"
    | TrainingFailed                 // the catch-all answer: `int(age)` raised
    | TrainingSaved(registration: TrainingRegistration)

  /** `request.POST.get(key, default)`. */
  function PostGet(post: map<string, string>, key: string, default: string): (v: string)
    ensures key !in post ==> v == default
  {
    if key in post then post[key] else default
  }

  /** The five fields the handler insists on, as it reads them: four are
      stripped, the age group is not. */
  datatype TrainingFields = TrainingFields(
    parentName: string,
    phone: string,
    childName: string,
    age: string,
    ageGroup: string)

  function ReadTrainingFields(post: map<string, string>): (f: TrainingFields)
    ensures f.parentName == Strip(PostGet(post, "parent_name", ""))
    ensures f.phone == Strip(PostGet(post, "phone", ""))
    ensures f.childName == Strip(PostGet(post, "child_name", ""))
    ensures f.age == Strip(PostGet(post, "age", ""))
    ensures f.ageGroup == PostGet(post, "age_group", "")
  {
    TrainingFields(
      Strip(PostGet(post, "parent_name", "")),
      Strip(PostGet(post, "phone", "")),
      Strip(PostGet(post, "child_name", "")),
      Strip(PostGet(post, "age", "")),
      PostGet(post, "age_group", ""))
  }

  /** Python's `all([...])` over the five strings: every one is non-empty. */
  predicate AllFilled(f: TrainingFields) {
    f.parentName != "" && f.phone != "" && f.childName != "" && f.age != "" && f.ageGroup != ""
  }

  /** `register_training` once the fields are read: refused exactly when
      one of the five required fields is empty, failed when the age is not
      an integer, saved otherwise. */
  function CheckTraining(isPost: bool, f: TrainingFields, visitType: string): (r: TrainingOutcome)
    ensures r == FieldsMissing <==> isPost && !AllFilled(f)
    ensures r.TrainingSaved? <==> isPost && AllFilled(f) && ParseInt(f.age).Some?
    ensures r.TrainingSaved? ==>
              && r.registration.parentName != "" && r.registration.phone != ""
              && r.registration.childName != "" && r.registration.ageGroup != ""
  {
    if !isPost then TrainingMethodNotAllowed
    else if !AllFilled(f) then FieldsMissing
    else
      var childAge := ParseInt(f.age);
      if childAge.None? then TrainingFailed
      else TrainingSaved(TrainingRegistration(f.parentName, f.phone, f.childName, childAge.value, f.ageGroup, visitType))
  }

  /** `register_training`: the required fields as read from the POST data,
      and the visit type as sent, `trial` when none was sent. */
  function RegisterTraining(isPost: bool, post: map<string, string>): (r: TrainingOutcome)
    ensures r == FieldsMissing <==> isPost && !AllFilled(ReadTrainingFields(post))
    ensures r.TrainingSaved? ==> r.registration.visitType == PostGet(post, "visit_type", "trial")
  {
    CheckTraining(isPost, ReadTrainingFields(post), PostGet(post, "visit_type", "trial"))
  }

  /** A saved registration carries the stripped name, phone and child's
      name, the parsed age, the age group as sent and the visit type as
      sent (`trial` when none was sent); none of the four text fields is
      empty. */
  lemma RegisterTrainingSaved(isPost: bool, post: map<string, string>)
    requires RegisterTraining(isPost, post).TrainingSaved?
    ensures var reg := RegisterTraining(isPost, post).registration;
      var f := ReadTrainingFields(post);
      && reg.parentName == f.parentName && reg.phone == f.phone && reg.childName == f.childName
      && reg.childAge == ParseInt(f.age).value && reg.ageGroup == f.ageGroup
      && reg.visitType == PostGet(post, "visit_type", "trial")
      && reg.parentName != "" && reg.phone != "" && reg.childName != "" && reg.ageGroup != ""
  {
  }

  /** The age group is not stripped: when the other four fields pass, an
      age group of one blank passes the check too and is saved as sent,
      although stripping would leave it empty. */
  lemma BlankAgeGroupAccepted(post: map<string, string>)
    requires var f := ReadTrainingFields(post);
      f.parentName != "" && f.phone != "" && f.childName != "" && ParseInt(f.age).Some?
    requires "age_group" in post && post["age_group"] == " "
    ensures RegisterTraining(true, post).TrainingSaved?
    ensures RegisterTraining(true, post).registration.ageGroup == " "
    ensures Strip(RegisterTraining(true, post).registration.ageGroup) == []
  {
    assert IsSpace(" "[0]);
  }
}
