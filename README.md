# Travel-site store and insert schemas, modelled in Dafny

This project models the in-memory store `MemStorage` behind the site's API, together with the
insert-schema rules its records follow.

The store keeps six tables: consultations, email leads, waitlist entries, bookings, partners and
testimonials. It also keeps a set of claimed booking slot keys. Its centre is `createBooking`:
1. It builds the key `date + ":" + time`.
2. It refuses the request when that key is already claimed.
3. Otherwise it claims the key and looks at the bookings already stored for the date.
4. If one of them has the same time, it releases the key and refuses the request.
5. Otherwise it stores a `pending` booking and keeps the key claimed.

Both refusals carry the message "Time slot already booked".

Modules:
- `Wrappers`: `Option` and `Result`.
- `OrderedMap`: a JavaScript `Map` with string keys. It keeps insertion order, because
  `Array.from(map.values())` yields values in that order and the sorts that follow keep
  tied values in it.
- `Sorting`: `Array.prototype.sort` with a comparator, written as an insertion sort. Also a
  lexicographic string order that stands for `localeCompare`.
- `Schema`: the tables as records, the checks of each insert schema (with their exact messages),
  and the column defaults.
- `Reservation`: the reservation as a ghost function `Reserve` of the bookings table and the
  claimed keys. It also holds the booking invariant, the queries the reservation consults, and
  lemmas about single calls and about sequences of calls (`Run`).
- `Storage`: the class `MemStorage`, whose methods update its map fields and its lock set in
  place, and whose reads are functions. Also the orderings (newest first, by numeric `order`)
  and the merges behind `updatePartner`/`updateTestimonial`.

Ids (`randomUUID()`) and creation times (`new Date()`, as milliseconds) are parameters of each
create method. A create given an id already in use overwrites that entry, as `Map.set` does; the
growth-by-one property is stated for a fresh id.

The booking invariant has two parts: every stored booking's slot key is claimed, and no two
stored bookings share a slot key. It is kept as a separate predicate `Reserved()`; the class
invariant `Valid()` only says each table is well formed. `CreateBooking` preserves
`Reserved()`, and where it holds the "taken after claiming" branch (server/storage.ts:124-127)
can never run.

The slot key is the plain concatenation written at server/storage.ts:113. So a date that
contains ':' can collide with another date and time. `KeyCollisionRefusesFreeSlot` shows a
request refused for a slot on which nothing is booked.

## Model

| member | source | states |
|---|---|---|
| OrderedMap.Empty | server/storage.ts:48-53 | `new Map()`: no entries, no keys, well formed |
| OrderedMap.Get | server/storage.ts:75 | `map.get(k)`: a value iff the key is present, and then the value stored under it |
| OrderedMap.Put | server/storage.ts:64 | `map.set`: the key maps to the new value and nothing else changes; a new key goes to the end of the insertion order, a present key keeps its place; the map stays well formed |
| OrderedMap.Remove | server/storage.ts:179 | `map.delete`: the key is gone, every other entry stays, and the order loses exactly that key |
| OrderedMap.Values | server/storage.ts:69 | `Array.from(map.values())` lists, position by position, the value of each key in insertion order |
| OrderedMap.ValuesCount | server/storage.ts:69 | when records carry their own key, the values list holds each stored record exactly once and nothing else |
| OrderedMap.GetAfterPut | server/storage.ts:64-75 | reading a key right after setting it gives the value set; other keys read as before |
| Sorting.Insert | server/storage.ts:69-71 | the insertion step of the sort adds its element and loses none |
| Sorting.Sort | server/storage.ts:69-71 | the sort returns a permutation of its input |
| Sorting.SortSorted | server/storage.ts:69-71 | with a comparator that is total and transitive on the input, the result is ordered by it |
| Sorting.SortKeepsTies | server/storage.ts:164-166 | when the comparator calls every pair equal, the sort returns its input unchanged |
| Sorting.StrLe | server/storage.ts:149 | the order standing for `a.time.localeCompare(b.time) <= 0`: lexicographic by character code; its properties are the three StrLe lemmas below |
| Sorting.StrLeTotal | server/storage.ts:149 | the string order used for `localeCompare` relates any two strings one way or the other |
| Sorting.StrLeTransitive | server/storage.ts:149 | the string order is transitive |
| Sorting.StrLeAntisymmetric | server/storage.ts:149 | two strings ordered both ways are equal |
| Schema.ConsultationIssues | shared/schema.ts:16-24 | no issue iff name has length at least 2, the email is valid, a service is chosen and the message has 10 or more characters; the list holds exactly one issue per failed check, with its field and message, and nothing else |
| Schema.NewConsultation | server/storage.ts:59-63 | the stored consultation is the payload with the given id and creation time |
| Schema.EmailLeadIssues | shared/schema.ts:37-43 | no issue iff the email is valid and the source is non-empty; the list holds exactly one issue per failed check, with its field and message, and nothing else |
| Schema.NewEmailLead | server/storage.ts:80-84 | the stored lead is the payload with the given id and creation time |
| Schema.WaitlistIssues | shared/schema.ts:57-63 | no issue iff the email is valid and the name has length at least 2; the list holds exactly one issue per failed check, with its field and message, and nothing else |
| Schema.NewWaitlist | server/storage.ts:97-101 | the stored entry is the payload with the given id and creation time |
| Schema.BookingIssues | shared/schema.ts:81-91 | no issue iff name length is at least 2, the email is valid, and service, date and time are non-empty; the list holds exactly one issue per failed check, with its field and message, and nothing else |
| Schema.BookingOptionalFields | shared/schema.ts:72-76 | acceptance of a booking does not depend on the nullable phone and message |
| Schema.NewBooking | server/storage.ts:129-135 | the stored booking is the payload (which has no id, createdAt or status) with the given id and time, and status "pending", the column default |
| Schema.PartnerIssues | shared/schema.ts:107-113 | no issue iff name length is at least 2 and the logo URL is valid; the list holds exactly one issue per failed check, with its field and message, and nothing else |
| Schema.NewPartner | server/storage.ts:154-158 | the stored partner is the payload with the given id and creation time |
| Schema.PartnerColumnDefaults | shared/schema.ts:102-103 | a database row would hold the supplied order and isActive, or "0" and "true" when they are omitted |
| Schema.RatingPattern | shared/schema.ts:136 | the regex `^[1-5]$`; what it admits is stated by RatingPatternValues |
| Schema.RatingPatternValues | shared/schema.ts:136 | the rating pattern admits exactly "1" to "5", and the column default "5" is among them |
| Schema.TestimonialIssues | shared/schema.ts:129-137 | no issue iff name and title have length at least 2, content at least 10, and the rating matches the pattern; the list holds exactly one issue per failed check, with its field and message, and nothing else |
| Schema.NewTestimonial | server/storage.ts:184-188 | the stored testimonial is the payload with the given id and creation time |
| Reservation.SlotKey | server/storage.ts:113 | the key is the date, one ':' and the time, in that order; KeyCollisionRefusesFreeSlot and UnclaimedSlotIsFree state what follows from it |
| Reservation.BookingError | server/storage.ts:116 | the `Error("Time slot already booked")` thrown on both conflict paths (lines 116 and 126); ReserveFailure states when it is returned |
| Reservation.NoDoubleBooking | server/storage.ts:113-137 | under the booking invariant, two different stored bookings differ in date or time |
| Reservation.UnclaimedSlotIsFree | server/storage.ts:119-127 | when every booking's key is claimed, an unclaimed key means no booking has that date and time, so the refusal at line 124 cannot happen |
| Reservation.OnDate | server/storage.ts:148 | the filter keeps each booking on the date as often as it occurs and drops all others |
| Reservation.ByTime | server/storage.ts:149 | the comparator `a.time.localeCompare(b.time)` is at most 0; ByTimeIsPreorder states it is total and transitive |
| Reservation.ByTimeIsPreorder | server/storage.ts:149 | comparing by time is total and transitive, so sorting by it orders the list |
| Reservation.BookingsOn | server/storage.ts:146-150 | the bookings of the date, each as often as in the input, none from other dates, in ascending order of time |
| Reservation.HasTime | server/storage.ts:122 | `some(b => b.time === time)` holds iff some listed booking has that time |
| Reservation.ListedOn | server/storage.ts:147-148 | a booking is listed for a date iff it is in the input and on that date |
| Reservation.InValues | server/storage.ts:147 | a booking is among the table's values iff some id holds it |
| Reservation.TakenIffListed | server/storage.ts:121-122 | the check after the claim is true iff a stored booking has the requested date and time |
| Reservation.OnceOnDate | server/storage.ts:147-148 | a stored booking is listed at most once for a date |
| Reservation.BookingsOnStrictlyAscending | server/storage.ts:146-150 | under the booking invariant, the times listed for a date are pairwise different |
| Reservation.Reserve | server/storage.ts:112-138 | the reservation keeps the bookings table well formed |
| Reservation.ReserveFailure | server/storage.ts:113-127 | the call fails iff the key is claimed or the slot is taken; a failed call leaves the table and the claimed keys as they were |
| Reservation.ReserveSuccess | server/storage.ts:129-137 | on success, the booking is the input with the given id and time and status "pending"; the table gains exactly it (one more entry for a fresh id); the key stays claimed |
| Reservation.ReservePreservesInvariant | server/storage.ts:113-137 | the reservation preserves the booking invariant |
| Reservation.ReserveSucceedsIffUnclaimed | server/storage.ts:113-127 | under the invariant, the call succeeds iff its key is unclaimed |
| Reservation.Run | server/storage.ts:112-138 | a sequence of calls yields one result per call and a well-formed table |
| Reservation.RunPreservesInvariant | server/storage.ts:113-137 | any sequence of calls preserves the booking invariant |
| Reservation.RunOnClaimedKey | server/storage.ts:115-117 | once a key is claimed, every later call for it fails and changes nothing |
| Reservation.SameSlotOnlyFirstSucceeds | server/storage.ts:112-138 | of several calls for one free slot, the first succeeds and the others fail; afterwards exactly one booking holds the slot |
| Reservation.DistinctKeysAllSucceed | server/storage.ts:112-138 | calls whose keys are pairwise different and unclaimed all succeed |
| Reservation.RetryWithOtherTime | server/storage.ts:113-127 | a refused caller succeeds on the same date with a time whose key is unclaimed: a refusal leaves no claim behind |
| Reservation.KeyCollisionRefusesFreeSlot | server/storage.ts:113 | after booking 10:00 on "2025-08-01", a request for "00" on "2025-08-01:10" is refused although that slot is free |
| Storage.NewestFirst | server/storage.ts:69-71 | `sort((a, b) => b.createdAt - a.createdAt)` returns a permutation with creation times not increasing |
| Storage.ParseOrder | server/storage.ts:165 | `parseInt(order)` gives a number iff the order is present and a digit string, and that number is not negative; ParseNumeral states which number |
| Storage.ParseNumeral | server/storage.ts:165 | parsing the decimal numeral of n gives n |
| Storage.OrderDefaultParses | shared/schema.ts:102 | the column default order "0" parses to 0 |
| Storage.OrderLe | server/storage.ts:165 | the comparator `parseInt(a.order) - parseInt(b.order)` is at most 0, a NaN result counting as 0; NumericOrdersSort states the order it produces |
| Storage.ByOrder | server/storage.ts:164-166 | a permutation of the partners, ascending by numeric order when every order parses |
| Storage.NumericOrdersSort | server/storage.ts:164-166 | when every order parses, sorting by the order comparator leaves the orders non-decreasing |
| Storage.ByOrderKeepsUnordered | server/storage.ts:164-166 | when no partner's order parses (every comparison is NaN), the partners come back in insertion order |
| Storage.MergePartner | server/storage.ts:173 | `{ ...partner, ...updates }`: each supplied field replaces the old one, others including id and createdAt stay |
| Storage.MergePartnerIdempotent | server/storage.ts:173 | applying an update twice equals applying it once; the empty update changes nothing |
| Storage.MergeTestimonial | server/storage.ts:203 | each supplied field replaces the old one, the others including id and createdAt stay |
| Storage.MergeTestimonialIdempotent | server/storage.ts:203 | applying an update twice equals applying it once; the empty update changes nothing |
| Storage.MemStorage.constructor | server/storage.ts:47-55 | all tables and the lock set start empty; the class and booking invariants hold |
| Storage.MemStorage.CreateConsultation | server/storage.ts:57-66 | stores and returns the new consultation under its id, changes only the consultations table, and `getConsultation(id)` then returns it |
| Storage.MemStorage.GetAllConsultations | server/storage.ts:68-72 | every stored consultation exactly once, nothing else, newest first |
| Storage.MemStorage.GetConsultation | server/storage.ts:74-76 | the consultation stored under the id, absent iff no such id; it carries that id |
| Storage.MemStorage.CreateEmailLead | server/storage.ts:78-87 | stores and returns the new lead under its id; only the leads table changes |
| Storage.MemStorage.GetAllEmailLeads | server/storage.ts:89-93 | every stored lead exactly once, nothing else, newest first |
| Storage.MemStorage.CreateWaitlistEntry | server/storage.ts:95-104 | stores and returns the new entry under its id; only the waitlist table changes |
| Storage.MemStorage.GetAllWaitlist | server/storage.ts:106-110 | every stored entry exactly once, nothing else, newest first |
| Storage.MemStorage.IsTimeSlotTaken | server/storage.ts:121-122 | the check made after the claim (the date's bookings, then `some` on the time) is true iff a stored booking has that date and time; it changes nothing |
| Storage.MemStorage.CreateBooking | server/storage.ts:112-138 | result, new table and claimed keys are those of `Reserve`; only the bookings table and the lock set change; the booking invariant is preserved |
| Storage.MemStorage.GetAllBookings | server/storage.ts:140-144 | every stored booking exactly once, nothing else, newest first |
| Storage.MemStorage.GetBookingsByDate | server/storage.ts:146-150 | exactly the stored bookings on the date, each once, ascending by time; under the booking invariant no two share a time |
| Storage.MemStorage.CreatePartner | server/storage.ts:152-161 | stores and returns the new partner under its id; only the partners table changes |
| Storage.MemStorage.GetAllPartners | server/storage.ts:163-167 | every stored partner exactly once, nothing else; ascending by numeric order when every order parses |
| Storage.MemStorage.UpdatePartner | server/storage.ts:169-176 | an absent id returns nothing and changes nothing; otherwise that entry becomes the merge of the old record and the update, in its old place, and no other entry changes |
| Storage.MemStorage.DeletePartner | server/storage.ts:178-180 | returns whether the id was present; afterwards it is absent and every other entry stays |
| Storage.MemStorage.CreateTestimonial | server/storage.ts:182-191 | stores and returns the new testimonial under its id; only the testimonials table changes |
| Storage.MemStorage.GetAllTestimonials | server/storage.ts:193-197 | every stored testimonial exactly once, nothing else, newest first |
| Storage.MemStorage.UpdateTestimonial | server/storage.ts:199-206 | an absent id returns nothing and changes nothing; otherwise that entry becomes the merge, in its old place, and no other entry changes |
| Storage.MemStorage.DeleteTestimonial | server/storage.ts:208-210 | returns whether the id was present; afterwards it is absent and every other entry stays |

## Left out

- Concurrency: each method is one atomic step. The suspension at `await` (server/storage.ts:121) and the interleavings it allows are not modelled, so `SameSlotOnlyFirstSucceeds` is about calls made one after another.
- The `async`/`Promise` wrapping: results are returned directly, and a thrown `Error("Time slot already booked")` is the `Failure(TimeSlotAlreadyBooked)` result.
- `randomUUID()` and `new Date()`: they are the `id` and `now` parameters (milliseconds as an integer). Uniqueness of generated ids is not assumed; a reused id overwrites, as `Map.set` does.
- Storage.MemStorage.GetBookingsByDate: `localeCompare` is modelled as lexicographic order by character code, because locale collation is outside this model.
- ParseOrder: only strings made entirely of decimal digits parse. Any other string, including "-3", " 7" and "12abc" (which `parseInt` handles), counts as NaN, as does an absent `order`, because the rest of `parseInt`'s grammar is a JavaScript numeric detail. A digit string is read as an exact integer, whereas `parseInt` returns a double: above 2^53 two different orders ("9007199254740993" and "9007199254740992") round to the same double and compare equal in the source, but not in the model.
- Storage.MemStorage.GetAllPartners: numeric order is promised only when every stored order is a digit string. Otherwise `NaN` comparator results count as "equal", and the model's insertion sort gives only a permutation (the input order itself when no order parses), while the order an engine produces for an inconsistent comparator is implementation-defined.
- Sorting.Sort: `Array.prototype.sort` is modelled by one particular insertion sort. Its general stability (equal elements keep their input order) is not stated; only the all-ties case is (`SortKeepsTies`). Ordering and permutation are proved, and for a consistent comparator every stable sort gives the same result.
- Email and URL format checks (zod's `.email()` and `.url()`): they are the `isEmail` and `isUrl` parameters.
- Schema.ConsultationIssues (and the other `*Issues`): payloads are typed records, so zod's reports for missing or non-string fields are not modelled. A string's length is counted in characters, not in UTF-16 code units as `min` does.
- The drizzle/zod schema derivation (`createInsertSchema`, `.omit`, `.extend`) is taken as its result: one Dafny record per insert payload, with nullable or defaulted columns as `Option` fields.
- `null` and an absent field are both `None`.
- In a `Partial<...>` update, a key present with the value `undefined` (which the spread would copy) is not modelled; an update field is either supplied or left out.
- The store does not apply column defaults (`order` "0", `isActive` "true", `rating` "5"): a record keeps an omitted optional field absent, as `MemStorage` does; `PartnerColumnDefaults` states what a database row would hold.
- server/routes.ts (HTTP glue), server/email.ts (mail sending and templating) and the client code (UI, and a booking calendar that writes to an external database) are not part of this model.
- There is no availability operation: the source has none, so none is modelled.
- The conflict error is the source's `Error("Time slot already booked")`, not a separately named conflict condition. The lock is released only on the "taken after claiming" path (server/storage.ts:125): that is the only failure path that has claimed the key, because nothing between the claim and the store can throw in the model.
