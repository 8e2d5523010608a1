/** The `create_holiday_dates` management command. For every active offering
    and every date from today to today + days, it makes sure that one slot
    record exists for each label of the offering's label list that starts
    within business hours, and it counts the records it inserted. */
module SlotGeneration {
  import opened Common
  import opened Models
  import opened Store

  // ---------------------------------------------------------------------
  // Labels and business hours

  /** The label list used for offerings that are not four hours long. */
  const TwoHourLabels: seq<string> := ["10:00-12:00", "12:00-14:00", "14:00-16:00", "16:00-18:00", "18:00-20:00"]

  /** The label list used for the four-hour (and longer) offerings. */
  const FourHourLabels: seq<string> := ["10:00-14:00", "14:00-18:00", "18:00-22:00"]

  /** The duration test: the text mentions "4 часа", "4.5 часа" or "5 часов". */
  predicate IsFourHours(duration: string) {
    Contains(duration, "4 часа") || Contains(duration, "4.5 часа") || Contains(duration, "5 часов")
  }

  /** `time_slot.split(':')[0]`: the text before the first ':', or all of the
      label when it has none. */
  function HourField(timeSlot: string): (r: string)
    ensures |r| <= |timeSlot|
    ensures forall i :: 0 <= i < |r| ==> r[i] == timeSlot[i]
    ensures ':' !in r
    ensures |r| < |timeSlot| ==> timeSlot[|r|] == ':'
  {
    if |timeSlot| == 0 || timeSlot[0] == ':' then "" else [timeSlot[0]] + HourField(timeSlot[1..])
  }

  /** `int(...)` succeeds on the hour field. */
  predicate HasStartHour(timeSlot: string) {
    ParseInt(Strip(HourField(timeSlot))).Some?
  }

  /** `int(time_slot.split(':')[0])`. */
  function StartHour(timeSlot: string): int
    requires HasStartHour(timeSlot)
  {
    ParseInt(Strip(HourField(timeSlot))).value
  }

  /** The value of two decimal digits. */
  lemma TwoDigitValue(f: string)
    requires |f| == 2 && IsDigit(f[0]) && IsDigit(f[1])
    ensures IsDigitString(f)
    ensures DecimalValue(f) == 10 * (f[0] as int - '0' as int) + (f[1] as int - '0' as int)
  {
    assert f[..1] == [f[0]];
  }

  /** A label that opens with two digits and a colon starts at the hour
      those digits spell. */
  lemma TwoDigitStartHour(timeSlot: string)
    requires |timeSlot| >= 3 && IsDigit(timeSlot[0]) && IsDigit(timeSlot[1]) && timeSlot[2] == ':'
    ensures HasStartHour(timeSlot)
    ensures StartHour(timeSlot) == 10 * (timeSlot[0] as int - '0' as int) + (timeSlot[1] as int - '0' as int)
  {
    assert HourField(timeSlot[2..]) == "";
    assert timeSlot[1..][1..] == timeSlot[2..];
    assert HourField(timeSlot[1..]) == [timeSlot[1]];
    var f := HourField(timeSlot);
    assert f == [timeSlot[0], timeSlot[1]];
    StripUnchanged(f);
    TwoDigitValue(f);
  }

  /** The start hours of the two-hour list: every two hours from 10 to 18. */
  lemma TwoHourStartHours()
    ensures forall j :: 0 <= j < |TwoHourLabels| ==>
              HasStartHour(TwoHourLabels[j]) && StartHour(TwoHourLabels[j]) == 10 + 2 * j
  {
    forall j | 0 <= j < |TwoHourLabels|
      ensures HasStartHour(TwoHourLabels[j]) && StartHour(TwoHourLabels[j]) == 10 + 2 * j
    {
      if j == 0 {
        assert TwoHourLabels[j] == "10:00-12:00";
        TwoDigitStartHour("10:00-12:00");
      } else if j == 1 {
        assert TwoHourLabels[j] == "12:00-14:00";
        TwoDigitStartHour("12:00-14:00");
      } else if j == 2 {
        assert TwoHourLabels[j] == "14:00-16:00";
        TwoDigitStartHour("14:00-16:00");
      } else if j == 3 {
        assert TwoHourLabels[j] == "16:00-18:00";
        TwoDigitStartHour("16:00-18:00");
      } else {
        assert TwoHourLabels[j] == "18:00-20:00";
        TwoDigitStartHour("18:00-20:00");
      }
    }
  }

  /** The start hours of the four-hour list: 10, 14 and 18. */
  lemma FourHourStartHours()
    ensures forall j :: 0 <= j < |FourHourLabels| ==>
              HasStartHour(FourHourLabels[j]) && StartHour(FourHourLabels[j]) == 10 + 4 * j
  {
    forall j | 0 <= j < |FourHourLabels|
      ensures HasStartHour(FourHourLabels[j]) && StartHour(FourHourLabels[j]) == 10 + 4 * j
    {
      if j == 0 {
        assert FourHourLabels[j] == "10:00-14:00";
        TwoDigitStartHour("10:00-14:00");
      } else if j == 1 {
        assert FourHourLabels[j] == "14:00-18:00";
        TwoDigitStartHour("14:00-18:00");
      } else {
        assert FourHourLabels[j] == "18:00-22:00";
        TwoDigitStartHour("18:00-22:00");
      }
    }
  }

  /** The label list picked by the duration test (`is_4_hours`). */
  function LabelsFor(fourHours: bool): seq<string> {
    if fourHours then FourHourLabels else TwoHourLabels
  }

  /** Every label of either list has a start hour between 10 and 18. */
  lemma LabelsStartFrom10To18(fourHours: bool)
    ensures forall l :: l in LabelsFor(fourHours) ==> HasStartHour(l) && 10 <= StartHour(l) <= 18
  {
    TwoHourStartHours();
    FourHourStartHours();
  }

  /** Both lists are label keys of the time-slot choice table. */
  lemma GeneratedLabelsAreChoices(fourHours: bool)
    ensures forall l :: l in LabelsFor(fourHours) ==> l in SlotLabels()
  {
    var ks := SlotLabels();
    assert ks == ["10:00-12:00", "12:00-14:00", "14:00-16:00", "16:00-18:00",
                  "18:00-20:00", "10:00-14:00", "14:00-18:00", "18:00-22:00"];
    assert forall j :: 0 <= j < 5 ==> TwoHourLabels[j] == ks[j];
    assert forall j :: 0 <= j < 3 ==> FourHourLabels[j] == ks[5 + j];
  }

  /** The opening-hours test on a label's start hour (weekday 0 is Monday):
      Monday to Friday from 9 to 21, Saturday and Sunday from 10 to 19. */
  predicate InBusinessHours(weekday: int, startHour: int) {
    if weekday < 5 then !(startHour < 9 || startHour >= 21)
    else !(startHour < 10 || startHour >= 19)
  }

  /** No label of either list is ever skipped: every start hour lies in
      10..18, inside both windows. Only the start hour is tested, so the
      evening label ending at 22:00 of the four-hour list is generated on
      every day. */
  lemma EveryLabelOpens(fourHours: bool, weekday: int)
    ensures forall l :: l in LabelsFor(fourHours) ==> HasStartHour(l) && InBusinessHours(weekday, StartHour(l))
    ensures "18:00-22:00" in LabelsFor(fourHours) <==> fourHours
  {
    LabelsStartFrom10To18(fourHours);
    assert FourHourLabels[2] == "18:00-22:00";
    // The two-hour labels end at 12, 14, 16, 18 and 20, never at 22.
    var ends := seq(5, j requires 0 <= j < 5 => (TwoHourLabels[j][6], TwoHourLabels[j][7]));
    assert ends == [('1', '2'), ('1', '4'), ('1', '6'), ('1', '8'), ('2', '0')];
    forall j | 0 <= j < |TwoHourLabels| ensures TwoHourLabels[j] != "18:00-22:00" {
      assert ends[j] != ('2', '2');
    }
  }

  /** The start hours of `LabelsFor(fourHours)`, label by label. */
  function LabelHours(fourHours: bool): (hours: seq<int>)
    ensures |hours| == |LabelsFor(fourHours)|
    ensures forall j :: 0 <= j < |hours| ==> 10 <= hours[j] <= 18
  {
    if fourHours then [10, 14, 18] else [10, 12, 14, 16, 18]
  }

  /** The table agrees with `int(label.split(':')[0])` on every label. */
  lemma LabelHoursAreStartHours(fourHours: bool, j: int)
    requires 0 <= j < |LabelsFor(fourHours)|
    ensures HasStartHour(LabelsFor(fourHours)[j])
    ensures LabelHours(fourHours)[j] == StartHour(LabelsFor(fourHours)[j])
  {
    var l := LabelsFor(fourHours)[j];
    if fourHours {
      assert l == FourHourLabels[j] && LabelHours(fourHours)[j] == 10 + 4 * j;
      FourHourStartHours();
    } else {
      assert l == TwoHourLabels[j] && LabelHours(fourHours)[j] == 10 + 2 * j;
      TwoHourStartHours();
    }
  }

  // ---------------------------------------------------------------------
  // The work the loops ask for

  /** `Holiday.objects.filter(active=True)`, in the store's order. */
  function ActiveHolidays(hs: seq<Holiday>): (r: seq<Holiday>)
    ensures forall h :: h in r <==> h in hs && h.active
  {
    if |hs| == 0 then []
    else ActiveHolidays(hs[..|hs| - 1]) + (if hs[|hs| - 1].active then [hs[|hs| - 1]] else [])
  }

  /** The keys the label loop asks for on date `d` over the first `j`
      labels, in list order, skipping labels whose start hour (`hours`,
      label by label) falls outside business hours. */
  function DayWork(holidayId: nat, d: Date, labels: seq<string>, hours: seq<int>, j: nat): seq<SlotKey>
    requires |hours| == |labels| && j <= |labels|
  {
    if j == 0 then []
    else
      DayWork(holidayId, d, labels, hours, j - 1) +
        (if InBusinessHours(Weekday(d), hours[j - 1]) then [SlotKey(holidayId, d, labels[j - 1])] else [])
  }

  /** The keys the date loop asks for over the first `n` dates from today. */
  function DaysWork(holidayId: nat, labels: seq<string>, hours: seq<int>, today: Date, n: nat): seq<SlotKey>
    requires |hours| == |labels|
  {
    if n == 0 then []
    else DaysWork(holidayId, labels, hours, today, n - 1) + DayWork(holidayId, today + (n - 1), labels, hours, |labels|)
  }

  /** The keys the offering loop asks for over the first `i` offerings. */
  function HolidaysWork(hs: seq<Holiday>, i: nat, today: Date, n: nat): seq<SlotKey>
    requires i <= |hs|
  {
    if i == 0 then []
    else
      var fourHours := IsFourHours(hs[i - 1].duration);
      HolidaysWork(hs, i - 1, today, n) + DaysWork(hs[i - 1].id, LabelsFor(fourHours), LabelHours(fourHours), today, n)
  }

  /** A day's keys are those of its first `j` labels that open within
      business hours. */
  lemma {:induction false} DayWorkMembers(holidayId: nat, d: Date, labels: seq<string>, hours: seq<int>, j: nat)
    requires |hours| == |labels| && j <= |labels|
    ensures forall k :: k in DayWork(holidayId, d, labels, hours, j) <==>
              k.holiday == holidayId && k.date == d
              && exists m :: 0 <= m < j && labels[m] == k.timeSlot && InBusinessHours(Weekday(d), hours[m])
  {
    if j > 0 {
      DayWorkMembers(holidayId, d, labels, hours, j - 1);
    }
  }

  /** With every start hour inside both windows, the date loop's keys are
      every label on each of the first `n` dates. */
  lemma {:induction false} DaysWorkMembers(holidayId: nat, labels: seq<string>, hours: seq<int>, today: Date, n: nat)
    requires |hours| == |labels|
    requires forall j :: 0 <= j < |hours| ==> 10 <= hours[j] <= 18
    ensures forall k :: k in DaysWork(holidayId, labels, hours, today, n) <==>
              k.holiday == holidayId && today <= k.date < today + n && k.timeSlot in labels
  {
    if n > 0 {
      DaysWorkMembers(holidayId, labels, hours, today, n - 1);
      var d := today + (n - 1);
      DayWorkMembers(holidayId, d, labels, hours, |labels|);
      forall k: SlotKey | k.holiday == holidayId && k.date == d && k.timeSlot in labels
        ensures k in DayWork(holidayId, d, labels, hours, |labels|)
      {
        var j :| 0 <= j < |labels| && labels[j] == k.timeSlot;
        assert InBusinessHours(Weekday(d), hours[j]);
      }
    }
  }

  /** The offering loop's keys: some offering among the first `i`, one of
      its labels, one of the first `n` dates. */
  lemma {:induction false} HolidaysWorkMembers(hs: seq<Holiday>, i: nat, today: Date, n: nat)
    requires i <= |hs|
    ensures forall k :: k in HolidaysWork(hs, i, today, n) <==>
              exists m :: 0 <= m < i && k.holiday == hs[m].id && today <= k.date < today + n
                          && k.timeSlot in LabelsFor(IsFourHours(hs[m].duration))
  {
    if i > 0 {
      var fourHours := IsFourHours(hs[i - 1].duration);
      HolidaysWorkMembers(hs, i - 1, today, n);
      DaysWorkMembers(hs[i - 1].id, LabelsFor(fourHours), LabelHours(fourHours), today, n);
    }
  }

  /** How often `while current_date <= end_date` runs from today to
      today + days. */
  function DayCount(days: int): (n: nat)
    ensures n == 0 <==> days < 0
    ensures n > 0 ==> n - 1 == days
  {
    if days >= 0 then days + 1 else 0
  }

  /** The keys one run asks for, in the order it asks for them. */
  function Worklist(holidays: seq<Holiday>, today: Date, days: int): seq<SlotKey> {
    var active := ActiveHolidays(holidays);
    HolidaysWork(active, |active|, today, DayCount(days))
  }

  /** A run asks for exactly the keys of an active offering, a date from
      today to today + days inclusive, and a label of that offering's list:
      the four-hour list when its duration says so, the two-hour list
      otherwise. */
  lemma WorklistMembers(holidays: seq<Holiday>, today: Date, days: int, k: SlotKey)
    ensures k in Worklist(holidays, today, days) <==>
              exists h :: h in holidays && h.active && k.holiday == h.id
                          && today <= k.date <= today + days
                          && k.timeSlot in (if IsFourHours(h.duration) then FourHourLabels else TwoHourLabels)
  {
    var n := DayCount(days);
    var active := ActiveHolidays(holidays);
    HolidaysWorkMembers(active, |active|, today, n);
    if k in Worklist(holidays, today, days) {
      var m :| 0 <= m < |active| && k.holiday == active[m].id && today <= k.date < today + n
               && k.timeSlot in LabelsFor(IsFourHours(active[m].duration));
      assert active[m] in active;
      assert k.date - today < n;
    }
    if exists h :: h in holidays && h.active && k.holiday == h.id
                   && today <= k.date <= today + days
                   && k.timeSlot in (if IsFourHours(h.duration) then FourHourLabels else TwoHourLabels) {
      var h :| h in holidays && h.active && k.holiday == h.id
               && today <= k.date <= today + days
               && k.timeSlot in (if IsFourHours(h.duration) then FourHourLabels else TwoHourLabels);
      assert k.date - today < n;
      assert h in active;
      var m :| 0 <= m < |active| && active[m] == h;
    }
  }

  // ---------------------------------------------------------------------
  // get_or_create and the run as a function of the store

  /** Some slot record has this (holiday, date, time_slot) triple. */
  ghost predicate Present(slots: map<nat, HolidayDate>, key: SlotKey) {
    exists id {:trigger KeyOf(slots[id])} :: id in slots && KeyOf(slots[id]) == key
  }

  /** Every primary key in use lies below the next one to hand out. */
  ghost predicate IdsBelowNext(db: Db) {
    forall id :: id in db.slots ==> id < db.nextSlotId
  }

  /** The record the command inserts: the `defaults` it passes are a limit
      of 3 (the field default is 2), no bookings, open. */
  function FreshSlot(id: nat, key: SlotKey): (s: HolidayDate)
    ensures s.id == id && KeyOf(s) == key
    ensures IsAvailable(s) && s.currentBookings == 0 && s.maxBookings == 3
  {
    HolidayDate(id, key.holiday, key.date, key.timeSlot, 3, 0, true)
  }

  /** `HolidayDate.objects.get_or_create(...)`: the store afterwards and the
      `created` flag. Only the slot table and the next primary key change,
      and nothing at all when no record is inserted. */
  ghost function GetOrCreate(db: Db, key: SlotKey): (r: (Db, bool))
    ensures r.0.holidays == db.holidays && r.0.orders == db.orders
    ensures r.0.nextSlotId == db.nextSlotId + (if r.1 then 1 else 0)
    ensures !r.1 ==> r.0 == db
  {
    if Present(db.slots, key) then (db, false)
    else
      var id := db.nextSlotId;
      var slots := db.slots[id := FreshSlot(id, key)];
      (db.(slots := slots, nextSlotId := id + 1), true)
  }

  /** A record is inserted exactly when none has the key, and afterwards
      one has it. */
  lemma GetOrCreateFinds(db: Db, key: SlotKey)
    ensures var r := GetOrCreate(db, key);
      (r.1 <==> !Present(db.slots, key)) && Present(r.0.slots, key)
  {
    if !Present(db.slots, key) {
      var id := db.nextSlotId;
      var out := GetOrCreate(db, key).0;
      assert id in out.slots && KeyOf(out.slots[id]) == key;
    }
  }

  /** The store after asking for `keys` in order. Every insert takes the
      next primary key, so the number of records inserted is how far the
      next key moved. */
  ghost function Generate(db: Db, keys: seq<SlotKey>): (r: Db)
    ensures r.holidays == db.holidays && r.orders == db.orders
    ensures db.nextSlotId <= r.nextSlotId <= db.nextSlotId + |keys|
  {
    if |keys| == 0 then db
    else GetOrCreate(Generate(db, keys[..|keys| - 1]), keys[|keys| - 1]).0
  }

  /** One get_or_create leaves every existing record as it was and adds
      at most the one fresh record under the next primary key. */
  lemma GetOrCreateFrame(db: Db, key: SlotKey)
    requires IdsBelowNext(db)
    ensures var r := GetOrCreate(db, key);
      && IdsBelowNext(r.0)
      && (forall id :: id in db.slots ==> id in r.0.slots && r.0.slots[id] == db.slots[id])
      && (forall id :: id in r.0.slots && id !in db.slots ==>
            id == db.nextSlotId && r.0.slots[id] == FreshSlot(id, key))
      && |r.0.slots| == |db.slots| + (if r.1 then 1 else 0)
  {
    if !Present(db.slots, key) {
      assert db.nextSlotId !in db.slots;
      var out := GetOrCreate(db, key).0;
      assert out.slots.Keys == db.slots.Keys + {db.nextSlotId};
    }
  }

  /** What a run does to the slot table: existing records, counters and
      flags included, are untouched; the inserted records are fresh, carry
      the command's defaults and a requested key; as many records are
      inserted as the next primary key moved. */
  lemma {:induction false} GenerateFrame(db: Db, keys: seq<SlotKey>)
    requires IdsBelowNext(db)
    ensures var r := Generate(db, keys);
      && IdsBelowNext(r)
      && (forall id :: id in db.slots ==> id in r.slots && r.slots[id] == db.slots[id])
      && (forall id :: id in r.slots && id !in db.slots ==>
            db.nextSlotId <= id && r.slots[id] == FreshSlot(id, KeyOf(r.slots[id]))
            && KeyOf(r.slots[id]) in keys)
      && |r.slots| == |db.slots| + (r.nextSlotId - db.nextSlotId)
  {
    if |keys| > 0 {
      var prefix := keys[..|keys| - 1];
      GenerateFrame(db, prefix);
      var mid := Generate(db, prefix);
      GetOrCreateFrame(mid, keys[|keys| - 1]);
      var out := Generate(db, keys);
      forall id | id in out.slots && id !in db.slots
        ensures db.nextSlotId <= id && out.slots[id] == FreshSlot(id, KeyOf(out.slots[id]))
        ensures KeyOf(out.slots[id]) in keys
      {
        if id in mid.slots {
          assert KeyOf(mid.slots[id]) in prefix;
        }
      }
    }
  }

  /** After a run every requested key has a record. */
  lemma {:induction false} GenerateCovers(db: Db, keys: seq<SlotKey>)
    requires IdsBelowNext(db)
    ensures forall k :: k in keys ==> Present(Generate(db, keys).slots, k)
  {
    if |keys| > 0 {
      var prefix := keys[..|keys| - 1];
      var last := keys[|keys| - 1];
      var mid := Generate(db, prefix);
      var out := Generate(db, keys);
      assert out == GetOrCreate(mid, last).0;
      assert forall k :: k in prefix ==> Present(mid.slots, k) by {
        GenerateCovers(db, prefix);
      }
      assert forall id :: id in mid.slots ==> id in out.slots && out.slots[id] == mid.slots[id] by {
        GenerateFrame(db, prefix);
        GetOrCreateFrame(mid, last);
      }
      assert Present(out.slots, last) by {
        GetOrCreateFinds(mid, last);
      }
      forall k | k in keys ensures Present(out.slots, k) {
        if k != last {
          assert k in prefix;
          var id :| id in mid.slots && KeyOf(mid.slots[id]) == k;
          assert out.slots[id] == mid.slots[id];
        }
      }
    }
  }

  /** When every requested key already has a record, a run inserts nothing
      and changes nothing. */
  lemma {:induction false} GenerateNoop(db: Db, keys: seq<SlotKey>)
    requires forall k :: k in keys ==> Present(db.slots, k)
    ensures Generate(db, keys) == db
  {
    if |keys| > 0 {
      GenerateNoop(db, keys[..|keys| - 1]);
    }
  }

  /** Running the command twice with the same inputs: the second run
      inserts nothing and leaves the store as the first run left it. */
  lemma RunTwice(db: Db, keys: seq<SlotKey>)
    requires IdsBelowNext(db)
    ensures var once := Generate(db, keys);
      Generate(once, keys) == once
  {
    GenerateCovers(db, keys);
    GenerateNoop(Generate(db, keys), keys);
  }

  /** One get_or_create keeps the store's integrity when the key names a
      known offering. */
  lemma GetOrCreateKeepsIntegrity(db: Db, key: SlotKey)
    requires Integrity(db) && key.holiday in HolidayIds(db.holidays)
    ensures Integrity(GetOrCreate(db, key).0)
  {
    var out := GetOrCreate(db, key).0;
    if !Present(db.slots, key) {
      var id := db.nextSlotId;
      assert id !in db.slots;
      assert forall b :: b in db.slots ==> KeyOf(db.slots[b]) != key;
      forall a, b | a in out.slots && b in out.slots && a != b
        ensures KeyOf(out.slots[a]) != KeyOf(out.slots[b])
      {
        if a != id && b != id {
          assert out.slots[a] == db.slots[a] && out.slots[b] == db.slots[b];
        }
      }
    }
  }

  /** A run keeps the store's integrity when every key names a known
      offering. */
  lemma {:induction false} GenerateKeepsIntegrity(db: Db, keys: seq<SlotKey>)
    requires Integrity(db)
    requires forall k :: k in keys ==> k.holiday in HolidayIds(db.holidays)
    ensures Integrity(Generate(db, keys))
  {
    if |keys| > 0 {
      var prefix := keys[..|keys| - 1];
      GenerateKeepsIntegrity(db, prefix);
      GetOrCreateKeepsIntegrity(Generate(db, prefix), keys[|keys| - 1]);
    }
  }

  /** A run keeps the booking ledger: a new record starts at zero bookings
      and no order refers to it. */
  lemma {:induction false} GenerateKeepsLedger(db: Db, keys: seq<SlotKey>)
    requires Integrity(db) && Ledger(db)
    requires forall k :: k in keys ==> k.holiday in HolidayIds(db.holidays)
    ensures Ledger(Generate(db, keys))
  {
    if |keys| > 0 {
      var prefix := keys[..|keys| - 1];
      GenerateKeepsLedger(db, prefix);
      GenerateKeepsIntegrity(db, prefix);
      var mid := Generate(db, prefix);
      var out := Generate(db, keys);
      if !Present(mid.slots, keys[|keys| - 1]) {
        var id := mid.nextSlotId;
        forall i | 0 <= i < |mid.orders| ensures mid.orders[i].holidayDate != id {
          assert mid.orders[i].holidayDate in mid.slots;
        }
        assert BookingsOf(mid.orders, id) == 0;
        forall x | x in out.slots ensures out.slots[x].currentBookings == BookingsOf(out.orders, x) {
          if x != id {
            assert out.slots[x] == mid.slots[x];
          }
        }
      }
    }
  }

  /** The runs's keys name offerings of the store. */
  lemma WorklistHolidaysKnown(holidays: seq<Holiday>, today: Date, days: int)
    ensures forall k :: k in Worklist(holidays, today, days) ==> k.holiday in HolidayIds(holidays)
  {
    forall k | k in Worklist(holidays, today, days) ensures k.holiday in HolidayIds(holidays) {
      WorklistMembers(holidays, today, days, k);
    }
  }

  /** `get_or_create` on the store. */
  method GetOrCreateSlot(db: Database, key: SlotKey) returns (created: bool)
    modifies db
    ensures (db.State(), created) == GetOrCreate(old(db.State()), key)
  {
    if exists id {:trigger KeyOf(db.slots[id])} :: id in db.slots && KeyOf(db.slots[id]) == key {
      created := false;
    } else {
      db.slots := db.slots[db.nextSlotId := FreshSlot(db.nextSlotId, key)];
      db.nextSlotId := db.nextSlotId + 1;
      created := true;
    }
  }

  /** Asking for one more key is one more get_or_create. */
  lemma GenerateAppend(db: Db, keys: seq<SlotKey>, key: SlotKey)
    ensures Generate(db, keys + [key]) == GetOrCreate(Generate(db, keys), key).0
  {
    assert (keys + [key])[..|keys|] == keys;
  }

  /** Asking for `a` then `b` is asking for `a + b`. */
  lemma {:induction false} GenerateConcat(db: Db, a: seq<SlotKey>, b: seq<SlotKey>)
    ensures Generate(db, a + b) == Generate(Generate(db, a), b)
    decreases |b|
  {
    if |b| == 0 {
      assert a + b == a;
    } else {
      var prefix := b[..|b| - 1];
      GenerateConcat(db, a, prefix);
      assert (a + b)[..|a + b| - 1] == a + prefix;
    }
  }

  // ---------------------------------------------------------------------
  // The runs of the three loops, step by step

  /** The run of the label loop on date `d` over the first `j` labels
      (start hours `hours`): each label that opens within business hours is
      one get_or_create. */
  ghost function RunDay(db: Db, holidayId: nat, d: Date, labels: seq<string>, hours: seq<int>, j: nat): (r: Db)
    requires |hours| == |labels| && j <= |labels|
    ensures r.holidays == db.holidays
  {
    if j == 0 then db
    else
      var prev := RunDay(db, holidayId, d, labels, hours, j - 1);
      if InBusinessHours(Weekday(d), hours[j - 1]) then GetOrCreate(prev, SlotKey(holidayId, d, labels[j - 1])).0
      else prev
  }

  /** Label by label is the same as asking for the day's keys in one go. */
  lemma {:induction false} RunDayIsGenerate(db: Db, holidayId: nat, d: Date, labels: seq<string>, hours: seq<int>, j: nat)
    requires |hours| == |labels| && j <= |labels|
    ensures RunDay(db, holidayId, d, labels, hours, j) == Generate(db, DayWork(holidayId, d, labels, hours, j))
  {
    if j > 0 {
      RunDayIsGenerate(db, holidayId, d, labels, hours, j - 1);
      var keys := DayWork(holidayId, d, labels, hours, j - 1);
      if InBusinessHours(Weekday(d), hours[j - 1]) {
        GenerateAppend(db, keys, SlotKey(holidayId, d, labels[j - 1]));
      } else {
        assert DayWork(holidayId, d, labels, hours, j) == keys;
      }
    }
  }

  /** The run of the date loop over the first `k` dates, date by date. */
  ghost function RunDays(db: Db, holidayId: nat, labels: seq<string>, hours: seq<int>, today: Date, k: nat): (r: Db)
    requires |hours| == |labels|
    ensures r.holidays == db.holidays
  {
    if k == 0 then db
    else RunDay(RunDays(db, holidayId, labels, hours, today, k - 1), holidayId, today + (k - 1), labels, hours, |labels|)
  }

  /** Date by date is the same as asking for all the dates' keys in one go. */
  lemma {:induction false} RunDaysIsGenerate(db: Db, holidayId: nat, labels: seq<string>, hours: seq<int>, today: Date, k: nat)
    requires |hours| == |labels|
    ensures RunDays(db, holidayId, labels, hours, today, k) == Generate(db, DaysWork(holidayId, labels, hours, today, k))
  {
    if k > 0 {
      var a := DaysWork(holidayId, labels, hours, today, k - 1);
      var b := DayWork(holidayId, today + (k - 1), labels, hours, |labels|);
      var mid := Generate(db, a);
      assert RunDays(db, holidayId, labels, hours, today, k - 1) == mid by {
        RunDaysIsGenerate(db, holidayId, labels, hours, today, k - 1);
      }
      assert RunDay(mid, holidayId, today + (k - 1), labels, hours, |labels|) == Generate(mid, b) by {
        RunDayIsGenerate(mid, holidayId, today + (k - 1), labels, hours, |labels|);
      }
      assert Generate(db, a + b) == Generate(mid, b) by {
        GenerateConcat(db, a, b);
      }
    }
  }

  /** The run of the offering loop over the first `i` offerings. */
  ghost function RunHolidays(db: Db, hs: seq<Holiday>, i: nat, today: Date, n: nat): (r: Db)
    requires i <= |hs|
    ensures r.holidays == db.holidays
  {
    if i == 0 then db
    else
      var fourHours := IsFourHours(hs[i - 1].duration);
      RunDays(RunHolidays(db, hs, i - 1, today, n), hs[i - 1].id, LabelsFor(fourHours), LabelHours(fourHours), today, n)
  }

  /** Offering by offering is the same as asking for the whole work list. */
  lemma {:induction false} RunHolidaysIsGenerate(db: Db, hs: seq<Holiday>, i: nat, today: Date, n: nat)
    requires i <= |hs|
    ensures RunHolidays(db, hs, i, today, n) == Generate(db, HolidaysWork(hs, i, today, n))
  {
    if i > 0 {
      var fourHours := IsFourHours(hs[i - 1].duration);
      var a := HolidaysWork(hs, i - 1, today, n);
      var b := DaysWork(hs[i - 1].id, LabelsFor(fourHours), LabelHours(fourHours), today, n);
      var mid := Generate(db, a);
      assert RunHolidays(db, hs, i - 1, today, n) == mid by {
        RunHolidaysIsGenerate(db, hs, i - 1, today, n);
      }
      assert RunDays(mid, hs[i - 1].id, LabelsFor(fourHours), LabelHours(fourHours), today, n) == Generate(mid, b) by {
        RunDaysIsGenerate(mid, hs[i - 1].id, LabelsFor(fourHours), LabelHours(fourHours), today, n);
      }
      assert Generate(db, a + b) == Generate(mid, b) by {
        GenerateConcat(db, a, b);
      }
    }
  }

  // ---------------------------------------------------------------------
  // The command

  /** `int(time_slot.split(':')[0])` on label `j` of the offering's list:
      the start hour the hour table gives. */
  method ParseStartHour(timeSlot: string, ghost fourHours: bool, ghost j: nat) returns (startHour: int)
    requires j < |LabelsFor(fourHours)| && timeSlot == LabelsFor(fourHours)[j]
    ensures startHour == LabelHours(fourHours)[j]
  {
    LabelHoursAreStartHours(fourHours, j);
    startHour := StartHour(timeSlot);
  }

  /** One turn of the label loop: label `j` of the offering's list on
      `currentDate` is skipped outside business hours and otherwise asked
      for with get_or_create, counted when it inserts. */
  method CreateLabelSlot(db: Database, ghost start: Db, holidayId: nat, ghost fourHours: bool, timeSlots: seq<string>,
                         currentDate: Date, j: nat, createdCount: nat) returns (newCount: nat)
    requires timeSlots == LabelsFor(fourHours) && j < |timeSlots|
    requires db.State() == RunDay(start, holidayId, currentDate, timeSlots, LabelHours(fourHours), j)
    modifies db
    ensures db.State() == RunDay(start, holidayId, currentDate, timeSlots, LabelHours(fourHours), j + 1)
    ensures newCount == createdCount + (db.nextSlotId - old(db.nextSlotId))
  {
    var weekday := Weekday(currentDate);
    var timeSlot := timeSlots[j];
    var startHour := ParseStartHour(timeSlot, fourHours, j);
    newCount := createdCount;
    // Every start hour lies in 10..18, so neither early return is ever taken.
    if weekday < 5 {
      if startHour < 9 || startHour >= 21 {
        assert false;
        return;
      }
    } else {
      if startHour < 10 || startHour >= 19 {
        assert false;
        return;
      }
    }
    var created := GetOrCreateSlot(db, SlotKey(holidayId, currentDate, timeSlot));
    if created {
      newCount := newCount + 1;
    }
  }

  /** The label loop for one offering on one date. */
  method CreateDaySlots(db: Database, holidayId: nat, ghost fourHours: bool, timeSlots: seq<string>, currentDate: Date)
    returns (createdCount: nat)
    requires timeSlots == LabelsFor(fourHours)
    modifies db
    ensures db.State() == RunDay(old(db.State()), holidayId, currentDate, timeSlots, LabelHours(fourHours), |timeSlots|)
    ensures createdCount == db.nextSlotId - old(db.nextSlotId)
  {
    ghost var start := db.State();
    createdCount := 0;
    for j := 0 to |timeSlots|
      invariant db.State() == RunDay(start, holidayId, currentDate, timeSlots, LabelHours(fourHours), j)
      invariant createdCount == db.nextSlotId - start.nextSlotId
    {
      createdCount := CreateLabelSlot(db, start, holidayId, fourHours, timeSlots, currentDate, j, createdCount);
    }
  }

  /** The date loop for one offering: every date from today to the end date. */
  method CreateHolidaySlots(db: Database, holiday: Holiday, today: Date, endDate: Date) returns (createdCount: nat)
    modifies db
    ensures var fourHours := IsFourHours(holiday.duration);
      db.State() ==
        RunDays(old(db.State()), holiday.id, LabelsFor(fourHours), LabelHours(fourHours), today, DayCount(endDate - today))
    ensures createdCount == db.nextSlotId - old(db.nextSlotId)
  {
    ghost var start := db.State();
    var isFourHours := IsFourHours(holiday.duration);
    var timeSlots := LabelsFor(isFourHours);
    createdCount := 0;
    var currentDate := today;
    ghost var k: nat := 0;  // the dates done so far
    while currentDate <= endDate
      invariant currentDate == today + k
      invariant currentDate <= endDate + 1 || k == 0
      invariant db.State() == RunDays(start, holiday.id, timeSlots, LabelHours(isFourHours), today, k)
      invariant createdCount == db.nextSlotId - start.nextSlotId
      decreases endDate - currentDate
    {
      var created := CreateDaySlots(db, holiday.id, isFourHours, timeSlots, currentDate);
      createdCount := createdCount + created;
      currentDate := currentDate + 1;
      k := k + 1;
    }
    assert k == DayCount(endDate - today);
  }

  /** `Command.handle`: the store afterwards is the run over the work list,
      and the count is the number of slot records the run inserted. */
  method Handle(db: Database, today: Date, days: int) returns (createdCount: nat)
    requires db.Valid()
    modifies db
    ensures db.Valid()
    ensures db.State() == Generate(old(db.State()), Worklist(old(db.holidays), today, days))
    ensures createdCount == |db.slots| - |old(db.slots)|
  {
    ghost var start := db.State();
    ghost var n := DayCount(days);
    var endDate := today + days;
    var holidays := ActiveHolidays(db.holidays);
    createdCount := 0;
    for i := 0 to |holidays|
      invariant db.State() == RunHolidays(start, holidays, i, today, n)
      invariant createdCount == db.nextSlotId - start.nextSlotId
    {
      var created := CreateHolidaySlots(db, holidays[i], today, endDate);
      createdCount := createdCount + created;
      assert db.State() == RunHolidays(start, holidays, i + 1, today, n) by {
        assert DayCount(endDate - today) == n;
      }
    }
    assert db.State() == Generate(start, Worklist(start.holidays, today, days)) && Integrity(db.State())
           && |db.slots| == |start.slots| + (db.nextSlotId - start.nextSlotId) by {
      HandleOutcome(start, today, days);
    }
  }

  /** The offering loop over the active offerings is the run over the work
      list; it keeps the store's integrity and inserts as many records as
      the next primary key moved. */
  lemma HandleOutcome(db: Db, today: Date, days: int)
    requires Integrity(db)
    ensures var active := ActiveHolidays(db.holidays);
      var r := RunHolidays(db, active, |active|, today, DayCount(days));
      && r == Generate(db, Worklist(db.holidays, today, days))
      && Integrity(r)
      && |r.slots| == |db.slots| + (r.nextSlotId - db.nextSlotId)
  {
    var active := ActiveHolidays(db.holidays);
    var keys := Worklist(db.holidays, today, days);
    RunHolidaysIsGenerate(db, active, |active|, today, DayCount(days));
    WorklistHolidaysKnown(db.holidays, today, days);
    GenerateKeepsIntegrity(db, keys);
    GenerateFrame(db, keys);
  }
}
