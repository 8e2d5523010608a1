/** The persistent store the views and the slot generator work on: the
    offerings, the slot records keyed by primary key, the next primary key
    the store hands out, and the orders in insertion order. */
module Store {
  import opened Common
  import opened Models

  /** The fields a valid `FullOrderForm` carries into the order. */
  datatype OrderForm = OrderForm(
    fullName: string,
    phone: string,
    email: string,
    childrenCount: int,
    ageOfChildren: string,
    notes: string)

  /** A `FullOrder` row: the offering and the slot record it was booked for. */
  datatype FullOrder = FullOrder(holiday: nat, holidayDate: nat, details: OrderForm)

  /** The (holiday, date, time_slot) triple that `unique_together` constrains. */
  datatype SlotKey = SlotKey(holiday: nat, date: Date, timeSlot: string)

  function KeyOf(s: HolidayDate): SlotKey {
    SlotKey(s.holiday, s.date, s.timeSlot)
  }

  /** `unique_together = ['holiday', 'date', 'time_slot']`. */
  ghost predicate UniqueTogether(slots: map<nat, HolidayDate>) {
    forall a, b :: a in slots && b in slots && KeyOf(slots[a]) == KeyOf(slots[b]) ==> a == b
  }

  /** The primary keys of the offerings. */
  function HolidayIds(holidays: seq<Holiday>): (ids: set<nat>)
    ensures forall h :: h in holidays ==> h.id in ids
    ensures forall id :: id in ids ==> exists h :: h in holidays && h.id == id
  {
    set h | h in holidays :: h.id
  }

  /** `Holiday.objects.get(id=id)`, `None` when no row has that key. */
  function FindHoliday(holidays: seq<Holiday>, id: nat): (r: Option<Holiday>)
    ensures r.Some? <==> id in HolidayIds(holidays)
    ensures r.Some? ==> r.value in holidays && r.value.id == id
  {
    if |holidays| == 0 then None
    else if holidays[0].id == id then Some(holidays[0])
    else FindHoliday(holidays[1..], id)
  }

  /** The store as a value. */
  datatype Db = Db(
    holidays: seq<Holiday>,
    slots: map<nat, HolidayDate>,
    nextSlotId: nat,
    orders: seq<FullOrder>)

  /** What the database itself enforces: the uniqueness constraint, primary
      keys below the next key to hand out, and every foreign key pointing at
      an existing row. */
  ghost predicate Integrity(db: Db) {
    && UniqueTogether(db.slots)
    && (forall id :: id in db.slots ==>
          db.slots[id].id == id && id < db.nextSlotId && db.slots[id].holiday in HolidayIds(db.holidays))
    && (forall i :: 0 <= i < |db.orders| ==>
          db.orders[i].holidayDate in db.slots && db.orders[i].holiday in HolidayIds(db.holidays))
  }

  // ---------------------------------------------------------------------
  // The booking ledger's own invariants (not enforced by the database)

  /** Every counter lies between zero and its limit. */
  ghost predicate Bounded(slots: map<nat, HolidayDate>) {
    forall id :: id in slots ==> 0 <= slots[id].currentBookings <= slots[id].maxBookings
  }

  /** No record is open once its counter has reached its limit. */
  ghost predicate ClosedWhenFull(slots: map<nat, HolidayDate>) {
    forall id :: id in slots && slots[id].currentBookings >= slots[id].maxBookings ==> !slots[id].available
  }

  /** The number of orders booked against slot record `id`. */
  function BookingsOf(orders: seq<FullOrder>, id: nat): (n: nat)
    ensures n <= |orders|
    ensures n == 0 <==> forall i :: 0 <= i < |orders| ==> orders[i].holidayDate != id
  {
    if |orders| == 0 then 0
    else BookingsOf(orders[..|orders| - 1], id) + (if orders[|orders| - 1].holidayDate == id then 1 else 0)
  }

  /** Each counter equals the number of orders booked against its record. */
  ghost predicate CountersMatchOrders(db: Db) {
    forall id :: id in db.slots ==> db.slots[id].currentBookings == BookingsOf(db.orders, id)
  }

  /** The three ledger invariants together. */
  ghost predicate Ledger(db: Db) {
    Bounded(db.slots) && ClosedWhenFull(db.slots) && CountersMatchOrders(db)
  }

  /** Under the ledger invariants no slot record ever holds more orders than
      its limit. */
  lemma LedgerWithinLimits(db: Db, id: nat)
    requires Ledger(db) && id in db.slots
    ensures BookingsOf(db.orders, id) <= db.slots[id].maxBookings
    ensures BookingsOf(db.orders, id) == db.slots[id].maxBookings ==> !IsAvailable(db.slots[id])
  {
  }

  /** The database behind the site. Its tables are fields that the views and
      the generator reassign. */
  class Database {
    var holidays: seq<Holiday>
    var slots: map<nat, HolidayDate>
    var nextSlotId: nat
    var orders: seq<FullOrder>

    function State(): Db
      reads this
    {
      Db(holidays, slots, nextSlotId, orders)
    }

    ghost predicate Valid()
      reads this
    {
      Integrity(State())
    }

    constructor (holidays: seq<Holiday>)
      ensures Valid()
      ensures State() == Db(holidays, map[], 0, [])
    {
      this.holidays := holidays;
      slots := map[];
      nextSlotId := 0;
      orders := [];
    }
  }
}
