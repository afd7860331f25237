/** The booking slot reservation of the in-memory store, as a function of the bookings table
    and the set of claimed slot keys, with the queries it consults and what it guarantees. */
module Reservation {
  import opened Wrappers
  import opened OrderedMap
  import opened Sorting
  import opened Schema

  /** The error both conflict paths throw: `Error("Time slot already booked")`. */
  datatype BookingError = TimeSlotAlreadyBooked

  /** The claim key of a slot: the date, a colon, and the time, concatenated. */
  function SlotKey(date: string, time: string): (key: string)
    ensures |key| == |date| + 1 + |time|
    ensures key[..|date|] == date && key[|date|] == ':' && key[|date| + 1..] == time
  {
    date + ":" + time
  }

  function KeyOf(b: Booking): string {
    SlotKey(b.date, b.time)
  }

  // ---------------------------------------------------------------- the invariant

  /** Every stored booking's slot key has been claimed. */
  ghost predicate SlotsClaimed(e: map<string, Booking>, locks: set<string>) {
    forall id :: id in e ==> KeyOf(e[id]) in locks
  }

  /** Bookings stored under different ids have different slot keys. */
  ghost predicate SlotKeysDistinct(e: map<string, Booking>) {
    forall i, j :: i in e && j in e && i != j ==> KeyOf(e[i]) != KeyOf(e[j])
  }

  ghost predicate BookingInvariant(e: map<string, Booking>, locks: set<string>) {
    SlotsClaimed(e, locks) && SlotKeysDistinct(e)
  }

  /** Some stored booking is for this date and time. */
  ghost predicate SlotTaken(e: map<string, Booking>, date: string, time: string) {
    exists id :: id in e && e[id].date == date && e[id].time == time
  }

  /** The invariant rules out double booking: distinct bookings differ in date or time. */
  lemma NoDoubleBooking(e: map<string, Booking>, locks: set<string>, i: string, j: string)
    requires BookingInvariant(e, locks)
    requires i in e && j in e && i != j
    ensures e[i].date != e[j].date || e[i].time != e[j].time
  {
  }

  /** Where the invariant holds, an unclaimed key means the slot is free, so the check that
      follows the claim never finds the slot taken. */
  lemma UnclaimedSlotIsFree(e: map<string, Booking>, locks: set<string>, date: string, time: string)
    requires SlotsClaimed(e, locks)
    requires SlotKey(date, time) !in locks
    ensures !SlotTaken(e, date, time)
  {
  }

  // ---------------------------------------------------------------- queries

  /** `bookings.filter(b => b.date === date)` */
  function OnDate(s: seq<Booking>, date: string): (r: seq<Booking>)
    ensures forall b :: multiset(r)[b] == if b.date == date then multiset(s)[b] else 0
  {
    if s == [] then []
    else
      assert s == [s[0]] + s[1..];
      (if s[0].date == date then [s[0]] else []) + OnDate(s[1..], date)
  }

  /** The comparator `a.time.localeCompare(b.time)` is at most 0. */
  predicate ByTime(a: Booking, b: Booking) {
    StrLe(a.time, b.time)
  }

  lemma ByTimeIsPreorder(s: seq<Booking>)
    ensures TotalPreorderOn(s, ByTime)
  {
    forall x, y | x in s && y in s ensures ByTime(x, y) || ByTime(y, x) {
      StrLeTotal(x.time, y.time);
    }
    forall x, y, z | x in s && y in s && z in s && ByTime(x, y) && ByTime(y, z)
      ensures ByTime(x, z)
    {
      StrLeTransitive(x.time, y.time, z.time);
    }
  }

  /** `getBookingsByDate`: the bookings of `s` on `date`, each as often as in `s`,
      in ascending order of time. */
  function BookingsOn(s: seq<Booking>, date: string): (r: seq<Booking>)
    ensures forall b :: multiset(r)[b] == if b.date == date then multiset(s)[b] else 0
    ensures forall i, j :: 0 <= i < j < |r| ==> StrLe(r[i].time, r[j].time)
  {
    var d := OnDate(s, date);
    ByTimeIsPreorder(d);
    SortSorted(d, ByTime);
    Sort(d, ByTime)
  }

  /** `bookings.some(b => b.time === time)` */
  function HasTime(s: seq<Booking>, time: string): (r: bool)
    ensures r <==> exists b :: b in s && b.time == time
  {
    if s == [] then false
    else
      assert forall b :: b in s <==> b == s[0] || b in s[1..];
      s[0].time == time || HasTime(s[1..], time)
  }

  /** A booking is listed for a date exactly when it is in the input and on that date. */
  lemma ListedOn(s: seq<Booking>, date: string, b: Booking)
    ensures b in BookingsOn(s, date) <==> b in s && b.date == date
  {
    var r := BookingsOn(s, date);
    assert b in r <==> multiset(r)[b] > 0;
    assert b in s <==> multiset(s)[b] > 0;
  }

  /** A value is among the table's values exactly when some key holds it. */
  lemma InValues(bookings: OMap<Booking>, b: Booking)
    requires Valid(bookings)
    ensures b in Values(bookings) <==> b in bookings.entries.Values
  {
    var vals := Values(bookings);
    if b in vals {
      var i :| 0 <= i < |vals| && vals[i] == b;
      assert bookings.order[i] in bookings.entries;
    }
    if b in bookings.entries.Values {
      var id :| id in bookings.entries && bookings.entries[id] == b;
      var i :| 0 <= i < |bookings.order| && bookings.order[i] == id;
      assert vals[i] == b;
    }
  }

  /** The check createBooking performs after the claim asks exactly whether the slot is taken. */
  lemma TakenIffListed(bookings: OMap<Booking>, date: string, time: string)
    requires Valid(bookings)
    ensures HasTime(BookingsOn(Values(bookings), date), time)
        <==> SlotTaken(bookings.entries, date, time)
  {
    var vals := Values(bookings);
    var listed := BookingsOn(vals, date);
    if HasTime(listed, time) {
      var b :| b in listed && b.time == time;
      ListedOn(vals, date, b);
      InValues(bookings, b);
      var id :| id in bookings.entries && bookings.entries[id] == b;
    }
    if SlotTaken(bookings.entries, date, time) {
      var id :| id in bookings.entries && bookings.entries[id].date == date
                && bookings.entries[id].time == time;
      var b := bookings.entries[id];
      InValues(bookings, b);
      ListedOn(vals, date, b);
    }
  }

  /** Two positions holding the same element make it occur at least twice. */
  lemma RepeatedElement<T>(s: seq<T>, i: int, j: int)
    requires 0 <= i < j < |s| && s[i] == s[j]
    ensures multiset(s)[s[i]] >= 2
  {
    assert s == s[..j] + s[j..];
    assert s[i] in s[..j];
    assert s[j] in s[j..];
  }

  /** A stored booking is listed once for its date. */
  lemma OnceOnDate(bookings: OMap<Booking>, date: string, b: Booking)
    requires Valid(bookings) && Injective(bookings.entries)
    ensures multiset(BookingsOn(Values(bookings), date))[b] <= 1
  {
    ValuesCount(bookings);
  }

  /** On a date, the invariant makes the listed times strictly ascending. */
  lemma BookingsOnStrictlyAscending(bookings: OMap<Booking>, locks: set<string>, date: string)
    requires Valid(bookings) && Injective(bookings.entries)
    ensures BookingInvariant(bookings.entries, locks) ==>
      var r := BookingsOn(Values(bookings), date);
      forall i, j :: 0 <= i < j < |r| ==> r[i].time != r[j].time
  {
    var vals := Values(bookings);
    var r := BookingsOn(vals, date);
    forall i, j | BookingInvariant(bookings.entries, locks) && 0 <= i < j < |r|
      ensures r[i].time != r[j].time
    {
      if r[i].time == r[j].time {
        ListedOn(vals, date, r[i]);
        ListedOn(vals, date, r[j]);
        InValues(bookings, r[i]);
        InValues(bookings, r[j]);
        var k1 :| k1 in bookings.entries && bookings.entries[k1] == r[i];
        var k2 :| k2 in bookings.entries && bookings.entries[k2] == r[j];
        if k1 == k2 {
          OnceOnDate(bookings, date, r[i]);
          RepeatedElement(r, i, j);
        } else {
          NoDoubleBooking(bookings.entries, locks, k1, k2);
        }
      }
    }
  }

  // ---------------------------------------------------------------- the reservation

  /** The bookings table, the claimed keys and what the call returned or threw. */
  datatype Outcome = Outcome(bookings: OMap<Booking>, locks: set<string>,
                             result: Result<Booking, BookingError>)

  /** `createBooking`: reject a claimed key; otherwise claim it, and if a stored booking
      already has the date and time release the claim and reject; otherwise store a
      pending booking under `id` and keep the claim. */
  ghost function Reserve(bookings: OMap<Booking>, locks: set<string>, input: InsertBooking,
                         id: string, now: int): (o: Outcome)
    requires Valid(bookings)
    ensures Valid(o.bookings)
  {
    var key := SlotKey(input.date, input.time);
    if key in locks then Outcome(bookings, locks, Failure(TimeSlotAlreadyBooked))
    else if SlotTaken(bookings.entries, input.date, input.time) then
      Outcome(bookings, (locks + {key}) - {key}, Failure(TimeSlotAlreadyBooked))
    else
      var b := NewBooking(input, id, now);
      Outcome(Put(bookings, id, b), locks + {key}, Success(b))
  }

  /** The call fails exactly when the key is claimed or the slot is taken, and a failed
      call leaves the table and the claims as they were (no claim is left behind). */
  lemma ReserveFailure(bookings: OMap<Booking>, locks: set<string>, input: InsertBooking,
                       id: string, now: int)
    requires Valid(bookings)
    ensures var o := Reserve(bookings, locks, input, id, now);
      && (o.result.Failure? <==> SlotKey(input.date, input.time) in locks
                                 || SlotTaken(bookings.entries, input.date, input.time))
      && (o.result.Failure? ==> o.bookings == bookings && o.locks == locks)
  {
  }

  /** A successful call stores the input as a pending booking under `id`, changes no other
      entry, grows the table by one when `id` is fresh, and keeps the key claimed. */
  lemma ReserveSuccess(bookings: OMap<Booking>, locks: set<string>, input: InsertBooking,
                       id: string, now: int)
    requires Valid(bookings)
    ensures var o := Reserve(bookings, locks, input, id, now);
      o.result.Success? ==>
        && o.result.value.id == id && o.result.value.createdAt == now
        && o.result.value.status == "pending"
        && BookingPayload(o.result.value) == input
        && o.bookings.entries == bookings.entries[id := o.result.value]
        && (id !in bookings.entries ==> |o.bookings.order| == |bookings.order| + 1)
        && o.locks == locks + {SlotKey(input.date, input.time)}
  {
  }

  /** The reservation keeps the invariant. */
  lemma ReservePreservesInvariant(bookings: OMap<Booking>, locks: set<string>,
                                  input: InsertBooking, id: string, now: int)
    requires Valid(bookings)
    requires BookingInvariant(bookings.entries, locks)
    ensures var o := Reserve(bookings, locks, input, id, now);
      BookingInvariant(o.bookings.entries, o.locks)
  {
    var o := Reserve(bookings, locks, input, id, now);
    var key := SlotKey(input.date, input.time);
    if o.result.Success? {
      var e := o.bookings.entries;
      forall i, j | i in e && j in e && i != j ensures KeyOf(e[i]) != KeyOf(e[j]) {
        if i == id {
          assert KeyOf(e[j]) in locks;
        } else if j == id {
          assert KeyOf(e[i]) in locks;
        }
      }
    }
  }

  /** Where the invariant holds, the call succeeds exactly when the key is unclaimed. */
  lemma ReserveSucceedsIffUnclaimed(bookings: OMap<Booking>, locks: set<string>,
                                    input: InsertBooking, id: string, now: int)
    requires Valid(bookings)
    requires BookingInvariant(bookings.entries, locks)
    ensures Reserve(bookings, locks, input, id, now).result.Success?
        <==> SlotKey(input.date, input.time) !in locks
  {
    if SlotKey(input.date, input.time) !in locks {
      UnclaimedSlotIsFree(bookings.entries, locks, input.date, input.time);
    }
  }

  // ---------------------------------------------------------------- sequences of calls

  /** One call to createBooking: its payload and the id and time it is given. */
  datatype Request = Request(input: InsertBooking, id: string, now: int)

  function RequestKey(q: Request): string {
    SlotKey(q.input.date, q.input.time)
  }

  /** Calls made one after another: the final table and claims, and each call's result. */
  ghost function Run(bookings: OMap<Booking>, locks: set<string>, reqs: seq<Request>): (r: Outcomes)
    requires Valid(bookings)
    ensures Valid(r.bookings) && |r.results| == |reqs|
    decreases |reqs|
  {
    if reqs == [] then Outcomes(bookings, locks, [])
    else
      var o := Reserve(bookings, locks, reqs[0].input, reqs[0].id, reqs[0].now);
      var rest := Run(o.bookings, o.locks, reqs[1..]);
      Outcomes(rest.bookings, rest.locks, [o.result] + rest.results)
  }

  datatype Outcomes = Outcomes(bookings: OMap<Booking>, locks: set<string>,
                               results: seq<Result<Booking, BookingError>>)

  /** Runs keep the invariant. */
  lemma {:induction false} RunPreservesInvariant(bookings: OMap<Booking>, locks: set<string>,
                                                 reqs: seq<Request>)
    requires Valid(bookings)
    requires BookingInvariant(bookings.entries, locks)
    ensures var r := Run(bookings, locks, reqs); BookingInvariant(r.bookings.entries, r.locks)
    decreases |reqs|
  {
    if reqs != [] {
      var q := reqs[0];
      var o := Reserve(bookings, locks, q.input, q.id, q.now);
      ReservePreservesInvariant(bookings, locks, q.input, q.id, q.now);
      RunPreservesInvariant(o.bookings, o.locks, reqs[1..]);
    }
  }

  /** Once a key is claimed, every further call for it fails and changes nothing. */
  lemma {:induction false} RunOnClaimedKey(bookings: OMap<Booking>, locks: set<string>,
                                           reqs: seq<Request>, key: string)
    requires Valid(bookings)
    requires key in locks
    requires forall i :: 0 <= i < |reqs| ==> RequestKey(reqs[i]) == key
    ensures var r := Run(bookings, locks, reqs);
      && r.bookings == bookings && r.locks == locks
      && forall i :: 0 <= i < |reqs| ==> r.results[i] == Failure(TimeSlotAlreadyBooked)
    decreases |reqs|
  {
    if reqs != [] {
      RunOnClaimedKey(bookings, locks, reqs[1..], key);
    }
  }

  /** Of several calls for one free slot, the first succeeds and every other one fails with
      "Time slot already booked"; afterwards exactly one booking holds that slot. */
  lemma SameSlotOnlyFirstSucceeds(bookings: OMap<Booking>, locks: set<string>,
                                  reqs: seq<Request>, date: string, time: string)
    requires Valid(bookings)
    requires BookingInvariant(bookings.entries, locks)
    requires |reqs| >= 1 && SlotKey(date, time) !in locks
    requires forall i :: 0 <= i < |reqs| ==> reqs[i].input.date == date && reqs[i].input.time == time
    ensures var r := Run(bookings, locks, reqs);
      && r.results[0].Success?
      && (forall i :: 1 <= i < |reqs| ==> r.results[i] == Failure(TimeSlotAlreadyBooked))
      && reqs[0].id in r.bookings.entries
      && r.bookings.entries[reqs[0].id].date == date
      && r.bookings.entries[reqs[0].id].time == time
      && (forall id :: (id in r.bookings.entries && r.bookings.entries[id].date == date
                        && r.bookings.entries[id].time == time) ==> id == reqs[0].id)
  {
    var q := reqs[0];
    var key := SlotKey(date, time);
    var o := Reserve(bookings, locks, q.input, q.id, q.now);
    ReserveSucceedsIffUnclaimed(bookings, locks, q.input, q.id, q.now);
    ReservePreservesInvariant(bookings, locks, q.input, q.id, q.now);
    assert o.bookings.entries[q.id].date == date && o.bookings.entries[q.id].time == time;
    assert key in o.locks;
    RunOnClaimedKey(o.bookings, o.locks, reqs[1..], key);
    var r := Run(bookings, locks, reqs);
    assert r.bookings == o.bookings;
    forall id | id in r.bookings.entries && r.bookings.entries[id].date == date
                && r.bookings.entries[id].time == time
      ensures id == q.id
    {
      if id != q.id {
        NoDoubleBooking(o.bookings.entries, o.locks, id, q.id);
      }
    }
  }

  /** Calls whose slot keys are pairwise different and unclaimed all succeed. */
  lemma {:induction false} DistinctKeysAllSucceed(bookings: OMap<Booking>, locks: set<string>,
                                                  reqs: seq<Request>)
    requires Valid(bookings)
    requires BookingInvariant(bookings.entries, locks)
    requires forall i :: 0 <= i < |reqs| ==> RequestKey(reqs[i]) !in locks
    requires forall i, j :: 0 <= i < j < |reqs| ==> RequestKey(reqs[i]) != RequestKey(reqs[j])
    ensures forall i :: 0 <= i < |reqs| ==> Run(bookings, locks, reqs).results[i].Success?
    decreases |reqs|
  {
    if reqs != [] {
      var q := reqs[0];
      var o := Reserve(bookings, locks, q.input, q.id, q.now);
      ReserveSucceedsIffUnclaimed(bookings, locks, q.input, q.id, q.now);
      ReservePreservesInvariant(bookings, locks, q.input, q.id, q.now);
      var tail := reqs[1..];
      forall i | 0 <= i < |tail| ensures RequestKey(tail[i]) !in o.locks {
        assert tail[i] == reqs[i + 1];
      }
      forall i, j | 0 <= i < j < |tail| ensures RequestKey(tail[i]) != RequestKey(tail[j]) {
        assert tail[i] == reqs[i + 1] && tail[j] == reqs[j + 1];
      }
      DistinctKeysAllSucceed(o.bookings, o.locks, tail);
      var r := Run(bookings, locks, reqs);
      forall i | 0 <= i < |reqs| ensures r.results[i].Success? {
        if i > 0 {
          assert r.results[i] == Run(o.bookings, o.locks, tail).results[i - 1];
        }
      }
    }
  }

  /** A caller turned away for one slot succeeds with another time on the same date whose
      key is unclaimed. */
  lemma RetryWithOtherTime(bookings: OMap<Booking>, locks: set<string>, first: InsertBooking,
                           retry: InsertBooking, id: string, id2: string, now: int, now2: int)
    requires Valid(bookings)
    requires BookingInvariant(bookings.entries, locks)
    requires Reserve(bookings, locks, first, id, now).result.Failure?
    requires retry.date == first.date && SlotKey(retry.date, retry.time) !in locks
    ensures var o := Reserve(bookings, locks, first, id, now);
      Reserve(o.bookings, o.locks, retry, id2, now2).result.Success?
  {
    ReserveFailure(bookings, locks, first, id, now);
    ReserveSucceedsIffUnclaimed(bookings, locks, retry, id2, now2);
  }

  /** Because the key is a plain concatenation, a date containing ':' can collide with
      another date and time: after booking 10:00 on 2025-08-01, a request for time "00" on
      date "2025-08-01:10" is refused although no booking is on that date. */
  lemma KeyCollisionRefusesFreeSlot(input: InsertBooking, other: InsertBooking)
    requires input.date == "2025-08-01" && input.time == "10:00"
    requires other.date == "2025-08-01:10" && other.time == "00"
    ensures var o := Reserve(Empty(), {}, input, "id-1", 1);
      && o.result.Success?
      && !SlotTaken(o.bookings.entries, other.date, other.time)
      && Reserve(o.bookings, o.locks, other, "id-2", 2).result == Failure(TimeSlotAlreadyBooked)
  {
    var o := Reserve(Empty(), {}, input, "id-1", 1);
    assert SlotKey(other.date, other.time) == SlotKey(input.date, input.time);
    assert o.bookings.entries.Keys == {"id-1"};
    assert o.bookings.entries["id-1"].date != other.date;
  }
}
