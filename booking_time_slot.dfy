/** express_server/schemas/bookingTimeSlot.js: the fixed table of a day's booking slots and
    the bulk upsert that makes sure every slot is stored without touching stored ones. */
module BookingTimeSlot {
  import opened JsNumbers
  import opened Utils

  datatype TimeSlot = TimeSlot(slotId: nat, startTime: string, endTime: string)

  /** What an upsert filters on: `{startTime, endTime}`. */
  datatype SlotKey = SlotKey(startTime: string, endTime: string)

  function KeyOf(slot: TimeSlot): SlotKey {
    SlotKey(slot.startTime, slot.endTime)
  }

  /** `timeSlots` */
  const TimeSlots: seq<TimeSlot> := [
    TimeSlot(1, "9:00 AM", "9:30 AM"),
    TimeSlot(2, "9:30 AM", "10:00 AM"),
    TimeSlot(3, "10:00 AM", "10:30 AM"),
    TimeSlot(4, "10:30 AM", "11:30 AM"),
    TimeSlot(5, "11:30 AM", "12:00 PM"),
    TimeSlot(6, "1:00 PM", "1:30 PM"),
    TimeSlot(7, "1:30 PM", "2:00 PM"),
    TimeSlot(8, "2:00 PM", "2:30 PM"),
    TimeSlot(9, "2:30 PM", "3:00 PM"),
    TimeSlot(10, "3:00 PM", "3:30 PM"),
    TimeSlot(11, "3:30 PM", "4:00 PM"),
    TimeSlot(12, "4:00 PM", "4:30 PM"),
    TimeSlot(13, "4:30 PM", "5:00 PM"),
    TimeSlot(14, "5:00 PM", "5:30 PM")
  ]

  /** Fourteen slots numbered 1..14 in table order. */
  lemma TableNumbering()
    ensures |TimeSlots| == 14
    ensures forall i :: 0 <= i < |TimeSlots| ==> TimeSlots[i].slotId == i + 1
  {
  }

  /** Each slot ends where the next begins, except over the lunch break between slot 5
      (ending 12:00 PM) and slot 6 (starting 1:00 PM); slot 4 lasts an hour. */
  lemma TableChaining()
    ensures forall i :: 0 <= i < |TimeSlots| - 1 && i != 4 ==>
              TimeSlots[i].endTime == TimeSlots[i + 1].startTime
    ensures TimeSlots[4].endTime == "12:00 PM" && TimeSlots[5].startTime == "1:00 PM"
    ensures TimeSlots[3] == TimeSlot(4, "10:30 AM", "11:30 AM")
  {
  }

  /** The value of a decimal digit character. */
  function DigitValue(c: char): int {
    c as int - '0' as int
  }

  /** The hour of a table time on the 24-hour clock: 12 AM is hour 0, 12 PM hour 12. */
  function Hour24(hour: int, pm: bool): int {
    if hour == 12 then (if pm then 12 else 0) else if pm then hour + 12 else hour
  }

  /** Minutes past midnight of a table time written "h:mm AM" or "hh:mm PM". */
  function ClockMinutes(t: string): int {
    if |t| == 7 then
      Hour24(DigitValue(t[0]), t[5] == 'P') * 60 + DigitValue(t[2]) * 10 + DigitValue(t[3])
    else if |t| == 8 then
      Hour24(DigitValue(t[0]) * 10 + DigitValue(t[1]), t[6] == 'P') * 60 + DigitValue(t[3]) * 10 + DigitValue(t[4])
    else 0
  }

  /** A text `isValidTime` accepts whose meridiem is written "AM" or "PM". */
  predicate UpperClockText(s: string) {
    IsValidTime(s) && (s[|s| - 2..] == "AM" || s[|s| - 2..] == "PM")
  }

  /** On every text `isValidTime` accepts with an upper-case meridiem, ClockMinutes reads the
      same time of day as Utils.ReadClock: the clock's hour on the 24-hour clock, then its
      minute. */
  lemma ClockMinutesAgreesWithReadClock(s: string)
    requires UpperClockText(s)
    ensures var t := ReadClock(s);
      ClockMinutes(s) == Hour24(t.hour, t.meridiem == "PM") * 60 + t.minute
  {
    var t := ReadClock(s);
    var h, m := HourText(t), PadZeros(DecimalText(t.minute), 2);
    TwoDigitText(t.minute);
    assert s == h + ":" + m + [t.gap] + t.meridiem;
    assert t.meridiem == s[|s| - 2..];
    if t.hour >= 10 {
      assert DecimalText(t.hour) == DecimalText(t.hour / 10) + [DigitChar(t.hour % 10)];
      assert DecimalText(t.hour / 10) == [DigitChar(1)];
    }
  }

  /** The start times of the table, in minutes past midnight. */
  function StartMinutes(): seq<int> {
    seq(|TimeSlots|, i requires 0 <= i < |TimeSlots| => ClockMinutes(TimeSlots[i].startTime))
  }

  /** The end times of the table, in minutes past midnight. */
  function EndMinutes(): seq<int> {
    seq(|TimeSlots|, i requires 0 <= i < |TimeSlots| => ClockMinutes(TimeSlots[i].endTime))
  }

  lemma StartMinutesValues()
    ensures StartMinutes() == [540, 570, 600, 630, 690, 780, 810, 840, 870, 900, 930, 960, 990, 1020]
  {
  }

  lemma EndMinutesValues()
    ensures EndMinutes() == [570, 600, 630, 690, 720, 810, 840, 870, 900, 930, 960, 990, 1020, 1050]
  {
  }

  /** Every slot lasts 30 minutes except slot 4, which lasts 60. */
  lemma SlotDurations()
    ensures forall i :: 0 <= i < |TimeSlots| ==>
              EndMinutes()[i] - StartMinutes()[i] == (if i == 3 then 60 else 30)
  {
    StartMinutesValues();
    EndMinutesValues();
  }

  /** A sequence whose neighbours increase is increasing throughout. */
  lemma {:induction false} AdjacentIncreasing(s: seq<int>, i: int, j: int)
    requires forall k :: 0 <= k < |s| - 1 ==> s[k] < s[k + 1]
    requires 0 <= i < j < |s|
    ensures s[i] < s[j]
  {
    if j > i + 1 {
      AdjacentIncreasing(s, i, j - 1);
    }
  }

  /** No two slots start at the same time, so no two share a filter. */
  lemma TableKeysDistinct()
    ensures forall i, j :: 0 <= i < j < |TimeSlots| ==> TimeSlots[i].startTime != TimeSlots[j].startTime
  {
    StartMinutesValues();
    var starts := StartMinutes();
    assert forall k :: 0 <= k < |starts| - 1 ==> starts[k] < starts[k + 1];
    forall i, j | 0 <= i < j < |TimeSlots|
      ensures TimeSlots[i].startTime != TimeSlots[j].startTime
    {
      AdjacentIncreasing(starts, i, j);
    }
  }

  // ---------------------------------------------------------------------------
  // saveBookingSlots

  /** `{updateOne: {filter, update: {$setOnInsert}, upsert}}` */
  datatype UpsertOp = UpdateOne(filter: SlotKey, setOnInsert: TimeSlot, upsert: bool)

  /** The operation built for one slot. */
  function UpsertFor(slot: TimeSlot): UpsertOp {
    UpdateOne(KeyOf(slot), slot, true)
  }

  /** One upsert per slot, in table order. */
  predicate IsUpsertPlan(ops: seq<UpsertOp>, slots: seq<TimeSlot>) {
    |ops| == |slots| && forall i :: 0 <= i < |ops| ==> ops[i] == UpsertFor(slots[i])
  }

  /** The part of `saveBookingSlots` that builds `bulkOps`; the `bulkWrite` call itself is
      `ApplyBulk` below. */
  method SaveBookingSlots() returns (bulkOps: seq<UpsertOp>)
    ensures IsUpsertPlan(bulkOps, TimeSlots)
  {
    bulkOps := [];
    var i := 0;
    while i < |TimeSlots|
      invariant 0 <= i <= |TimeSlots|
      invariant IsUpsertPlan(bulkOps, TimeSlots[..i])
    {
      var timeSlot := TimeSlots[i];
      var upsertDocument := UpdateOne(SlotKey(timeSlot.startTime, timeSlot.endTime), timeSlot, true);
      bulkOps := bulkOps + [upsertDocument];
      i := i + 1;
    }
    assert TimeSlots[..i] == TimeSlots;
  }

  // ---------------------------------------------------------------------------
  // The collection, keyed by the filter fields

  type Store = map<SlotKey, TimeSlot>

  /** An `updateOne` with `$setOnInsert`: a matching document is left as it is; without one,
      an upsert inserts the `$setOnInsert` document and a plain update does nothing. */
  function ApplyOp(store: Store, op: UpsertOp): Store {
    if op.filter in store then store
    else if op.upsert then store[op.filter := op.setOnInsert]
    else store
  }

  /** `bulkWrite(ops)`: the operations applied in order. */
  function ApplyBulk(store: Store, ops: seq<UpsertOp>): Store
    decreases |ops|
  {
    if ops == [] then store else ApplyBulk(ApplyOp(store, ops[0]), ops[1..])
  }

  /** Entries already stored keep their key and their value. */
  lemma {:induction false} ApplyBulkKeepsExisting(store: Store, ops: seq<UpsertOp>)
    ensures forall k :: k in store ==> k in ApplyBulk(store, ops) && ApplyBulk(store, ops)[k] == store[k]
    decreases |ops|
  {
    if ops != [] {
      ApplyBulkKeepsExisting(ApplyOp(store, ops[0]), ops[1..]);
    }
  }

  /** The keys after the write are the stored ones plus the filters of the upserts. */
  lemma {:induction false} ApplyBulkKeys(store: Store, ops: seq<UpsertOp>)
    ensures ApplyBulk(store, ops).Keys
         == store.Keys + set i | 0 <= i < |ops| && ops[i].upsert :: ops[i].filter
    decreases |ops|
  {
    if ops != [] {
      ApplyBulkKeys(ApplyOp(store, ops[0]), ops[1..]);
      var rest := set i | 0 <= i < |ops[1..]| && ops[1..][i].upsert :: ops[1..][i].filter;
      var all := set i | 0 <= i < |ops| && ops[i].upsert :: ops[i].filter;
      assert all == (if ops[0].upsert then {ops[0].filter} else {}) + rest by {
        forall k | k in all ensures k in (if ops[0].upsert then {ops[0].filter} else {}) + rest {
          var i :| 0 <= i < |ops| && ops[i].upsert && ops[i].filter == k;
          if i > 0 {
            assert ops[1..][i - 1] == ops[i];
          }
        }
        forall k | k in rest ensures k in all {
          var i :| 0 <= i < |ops[1..]| && ops[1..][i].upsert && ops[1..][i].filter == k;
          assert ops[i + 1] == ops[1..][i];
        }
      }
    }
  }

  /** When every operation is a no-op on a store, the write leaves it unchanged. */
  lemma {:induction false} ApplyBulkNoOp(store: Store, ops: seq<UpsertOp>)
    requires forall i :: 0 <= i < |ops| ==> ops[i].filter in store || !ops[i].upsert
    ensures ApplyBulk(store, ops) == store
    decreases |ops|
  {
    if ops != [] {
      assert ApplyOp(store, ops[0]) == store;
      ApplyBulkNoOp(store, ops[1..]);
    }
  }

  /** Running the same bulk write twice has the effect of running it once. */
  lemma ApplyBulkIdempotent(store: Store, ops: seq<UpsertOp>)
    ensures ApplyBulk(ApplyBulk(store, ops), ops) == ApplyBulk(store, ops)
  {
    var once := ApplyBulk(store, ops);
    ApplyBulkKeys(store, ops);
    forall i | 0 <= i < |ops| && ops[i].upsert
      ensures ops[i].filter in once
    {
      assert ops[i].filter in set j | 0 <= j < |ops| && ops[j].upsert :: ops[j].filter;
    }
    ApplyBulkNoOp(once, ops);
  }

  /** Writing the plan of the slot table: every slot's key is then stored, slots already
      stored keep their document, and nothing but the table's keys is added. */
  lemma SlotPlanEffect(store: Store, ops: seq<UpsertOp>)
    requires IsUpsertPlan(ops, TimeSlots)
    ensures forall i :: 0 <= i < |TimeSlots| ==> KeyOf(TimeSlots[i]) in ApplyBulk(store, ops)
    ensures forall k :: k in store ==> k in ApplyBulk(store, ops) && ApplyBulk(store, ops)[k] == store[k]
    ensures forall k :: k in ApplyBulk(store, ops) ==>
              k in store || exists i :: 0 <= i < |TimeSlots| && k == KeyOf(TimeSlots[i])
  {
    ApplyBulkKeepsExisting(store, ops);
    ApplyBulkKeys(store, ops);
    forall i | 0 <= i < |TimeSlots|
      ensures KeyOf(TimeSlots[i]) in ApplyBulk(store, ops)
    {
      assert ops[i].filter == KeyOf(TimeSlots[i]) && ops[i].upsert;
    }
  }

  /** A slot missing from the store is inserted as the table's document, because the keys
      of distinct operations never coincide. */
  lemma {:induction false} ApplyBulkInserts(store: Store, ops: seq<UpsertOp>, slots: seq<TimeSlot>, i: int)
    requires IsUpsertPlan(ops, slots) && 0 <= i < |slots|
    requires forall a, b :: 0 <= a < b < |slots| ==> KeyOf(slots[a]) != KeyOf(slots[b])
    requires KeyOf(slots[i]) !in store
    ensures KeyOf(slots[i]) in ApplyBulk(store, ops) && ApplyBulk(store, ops)[KeyOf(slots[i])] == slots[i]
    decreases |ops|
  {
    var next := ApplyOp(store, ops[0]);
    if i == 0 {
      assert next == store[KeyOf(slots[0]) := slots[0]];
      ApplyBulkKeepsExisting(next, ops[1..]);
    } else {
      assert KeyOf(slots[i]) != KeyOf(slots[0]);
      assert IsUpsertPlan(ops[1..], slots[1..]);
      assert forall a, b :: 0 <= a < b < |slots[1..]| ==> KeyOf(slots[1..][a]) != KeyOf(slots[1..][b]) by {
        forall a, b | 0 <= a < b < |slots[1..]|
          ensures KeyOf(slots[1..][a]) != KeyOf(slots[1..][b])
        {
          assert slots[1..][a] == slots[a + 1] && slots[1..][b] == slots[b + 1];
        }
      }
      ApplyBulkInserts(next, ops[1..], slots[1..], i - 1);
    }
  }

  /** The table's slots that were missing are stored exactly as the table writes them. */
  lemma SlotPlanInserts(store: Store, ops: seq<UpsertOp>, i: int)
    requires IsUpsertPlan(ops, TimeSlots) && 0 <= i < |TimeSlots|
    requires KeyOf(TimeSlots[i]) !in store
    ensures KeyOf(TimeSlots[i]) in ApplyBulk(store, ops)
    ensures ApplyBulk(store, ops)[KeyOf(TimeSlots[i])] == TimeSlots[i]
  {
    TableKeysDistinct();
    ApplyBulkInserts(store, ops, TimeSlots, i);
  }
}
