/** The in-memory store behind the site's API: six tables and the set of claimed booking
    slots. Ids and creation times come from the caller (they stand for `randomUUID()` and
    `new Date()` in milliseconds). */
module Storage {
  import opened Wrappers
  import opened OrderedMap
  import opened Sorting
  import opened Schema
  import opened Reservation

  // ---------------------------------------------------------------- orderings

  /** `sort((a, b) => b.createdAt - a.createdAt)`: every element kept, newest first, ties in
      their input order. */
  function NewestFirst<T>(s: seq<T>, createdAt: T -> int): (r: seq<T>)
    ensures multiset(r) == multiset(s)
    ensures forall i, j :: 0 <= i < j < |r| ==> createdAt(r[i]) >= createdAt(r[j])
  {
    var le := (a: T, b: T) => createdAt(a) >= createdAt(b);
    assert TotalPreorderOn(s, le);
    SortSorted(s, le);
    Sort(s, le)
  }

  /** A non-empty string of decimal digits. */
  predicate Digits(s: string) {
    |s| > 0 && forall i :: 0 <= i < |s| ==> '0' <= s[i] <= '9'
  }

  function DigitsValue(s: string): nat
    requires forall i :: 0 <= i < |s| ==> '0' <= s[i] <= '9'
  {
    if s == [] then 0 else DigitsValue(s[..|s| - 1]) * 10 + (s[|s| - 1] - '0') as nat
  }

  /** `parseInt(order)` for an order that is a digit string; `None` stands for NaN
      (an absent order, and every other string, which this model does not parse). */
  function ParseOrder(order: Option<string>): (r: Option<int>)
    ensures r.Some? <==> order.Some? && Digits(order.value)
    ensures r.Some? ==> r.value >= 0
  {
    match order
    case Some(s) => if Digits(s) then Some(DigitsValue(s)) else None
    case None => None
  }

  /** The decimal numeral of `n`, used to state what `ParseOrder` computes. */
  function Numeral(n: nat): (s: string)
    ensures Digits(s)
  {
    var d := [(n % 10) as char + '0'];
    if n < 10 then d else Numeral(n / 10) + d
  }

  /** Parsing a numeral gives back its number. */
  lemma {:induction false} ParseNumeral(n: nat)
    ensures ParseOrder(Some(Numeral(n))) == Some(n)
  {
    var s := Numeral(n);
    var d := [(n % 10) as char + '0'];
    assert (d[0] - '0') as nat == n % 10;
    if n < 10 {
      assert s == d && s[..|s| - 1] == [];
      assert DigitsValue(s) == DigitsValue([]) * 10 + n % 10;
    } else {
      ParseNumeral(n / 10);
      var t := Numeral(n / 10);
      assert s == t + d;
      assert s[|s| - 1] == d[0] && s[..|s| - 1] == t;
      assert n == (n / 10) * 10 + n % 10;
      assert DigitsValue(s) == DigitsValue(t) * 10 + n % 10;
    }
    assert Digits(s);
  }

  /** The column default of `order` parses to 0. */
  lemma OrderDefaultParses()
    ensures ParseOrder(Some(OrderDefault)) == Some(0)
  {
    assert OrderDefault == Numeral(0);
    ParseNumeral(0);
  }

  /** `parseInt(a.order) - parseInt(b.order)` is at most 0; a NaN difference counts as 0. */
  predicate OrderLe(a: Partner, b: Partner) {
    match (ParseOrder(a.order), ParseOrder(b.order))
    case (Some(x), Some(y)) => x <= y
    case _ => true
  }

  /** Every order parses and the numbers do not decrease. */
  predicate NumericallyAscending(r: seq<Partner>) {
    forall i, j :: 0 <= i < j < |r| ==>
      ParseOrder(r[i].order).Some? && ParseOrder(r[j].order).Some? &&
      ParseOrder(r[i].order).value <= ParseOrder(r[j].order).value
  }

  /** `getAllPartners`' sort: when every order parses, ascending by numeric order. */
  function ByOrder(s: seq<Partner>): (r: seq<Partner>)
    ensures multiset(r) == multiset(s)
    ensures (forall p :: p in s ==> ParseOrder(p.order).Some?) ==> NumericallyAscending(r)
  {
    if forall p :: p in s ==> ParseOrder(p.order).Some? then
      NumericOrdersSort(s);
      Sort(s, OrderLe)
    else
      Sort(s, OrderLe)
  }

  lemma NumericOrdersSort(s: seq<Partner>)
    requires forall p :: p in s ==> ParseOrder(p.order).Some?
    ensures NumericallyAscending(Sort(s, OrderLe))
  {
    SortSorted(s, OrderLe);
    var r := Sort(s, OrderLe);
    assert forall i :: 0 <= i < |r| ==> r[i] in multiset(s);
  }

  /** When no order parses (every comparison is NaN), the partners stay in insertion order. */
  lemma ByOrderKeepsUnordered(s: seq<Partner>)
    requires forall p :: p in s ==> ParseOrder(p.order).None?
    ensures ByOrder(s) == s
  {
    forall i, j | 0 <= i < |s| && 0 <= j < |s| ensures OrderLe(s[i], s[j]) {
      assert s[i] in s;
    }
    SortKeepsTies(s, OrderLe);
  }

  // ---------------------------------------------------------------- updates

  /** `Partial<InsertPartner>`: `None` is a key the update leaves out. */
  datatype PartnerUpdate = PartnerUpdate(
    name: Option<string>, logoUrl: Option<string>, description: Option<Option<string>>,
    website: Option<Option<string>>, order: Option<string>, isActive: Option<string>)

  /** `{ ...partner, ...updates }`: supplied fields replace, the others stay. */
  function MergePartner(p: Partner, u: PartnerUpdate): (r: Partner)
    ensures r.id == p.id && r.createdAt == p.createdAt
    ensures r.name == u.name.GetOr(p.name) && r.logoUrl == u.logoUrl.GetOr(p.logoUrl)
    ensures r.description == u.description.GetOr(p.description)
    ensures r.website == u.website.GetOr(p.website)
    ensures r.order == (if u.order.Some? then u.order else p.order)
    ensures r.isActive == (if u.isActive.Some? then u.isActive else p.isActive)
  {
    p.(name := u.name.GetOr(p.name), logoUrl := u.logoUrl.GetOr(p.logoUrl),
       description := u.description.GetOr(p.description), website := u.website.GetOr(p.website),
       order := if u.order.Some? then u.order else p.order,
       isActive := if u.isActive.Some? then u.isActive else p.isActive)
  }

  /** Applying the same update twice is applying it once; an empty update changes nothing. */
  lemma MergePartnerIdempotent(p: Partner, u: PartnerUpdate)
    ensures MergePartner(MergePartner(p, u), u) == MergePartner(p, u)
    ensures MergePartner(p, PartnerUpdate(None, None, None, None, None, None)) == p
  {
  }

  /** `Partial<InsertTestimonial>` */
  datatype TestimonialUpdate = TestimonialUpdate(
    name: Option<string>, title: Option<string>, content: Option<string>,
    rating: Option<string>, imageUrl: Option<Option<string>>, isActive: Option<string>)

  /** `{ ...testimonial, ...updates }` */
  function MergeTestimonial(t: Testimonial, u: TestimonialUpdate): (r: Testimonial)
    ensures r.id == t.id && r.createdAt == t.createdAt
    ensures r.name == u.name.GetOr(t.name) && r.title == u.title.GetOr(t.title)
    ensures r.content == u.content.GetOr(t.content) && r.rating == u.rating.GetOr(t.rating)
    ensures r.imageUrl == u.imageUrl.GetOr(t.imageUrl)
    ensures r.isActive == (if u.isActive.Some? then u.isActive else t.isActive)
  {
    t.(name := u.name.GetOr(t.name), title := u.title.GetOr(t.title),
       content := u.content.GetOr(t.content), rating := u.rating.GetOr(t.rating),
       imageUrl := u.imageUrl.GetOr(t.imageUrl),
       isActive := if u.isActive.Some? then u.isActive else t.isActive)
  }

  lemma MergeTestimonialIdempotent(t: Testimonial, u: TestimonialUpdate)
    ensures MergeTestimonial(MergeTestimonial(t, u), u) == MergeTestimonial(t, u)
    ensures MergeTestimonial(t, TestimonialUpdate(None, None, None, None, None, None)) == t
  {
  }

  // ---------------------------------------------------------------- the store

  /** A table: a well-formed map whose records are stored under their own id. */
  ghost predicate ConsultationTable(m: OMap<Consultation>) {
    OrderedMap.Valid(m) && forall k :: k in m.entries ==> m.entries[k].id == k
  }

  ghost predicate EmailLeadTable(m: OMap<EmailLead>) {
    OrderedMap.Valid(m) && forall k :: k in m.entries ==> m.entries[k].id == k
  }

  ghost predicate WaitlistTable(m: OMap<Waitlist>) {
    OrderedMap.Valid(m) && forall k :: k in m.entries ==> m.entries[k].id == k
  }

  ghost predicate BookingTable(m: OMap<Booking>) {
    OrderedMap.Valid(m) && forall k :: k in m.entries ==> m.entries[k].id == k
  }

  /** Storing a booking under its own id keeps the bookings table well formed. */
  lemma PutBooking(m: OMap<Booking>, b: Booking)
    requires BookingTable(m)
    ensures BookingTable(Put(m, b.id, b))
  {
  }

  ghost predicate PartnerTable(m: OMap<Partner>) {
    OrderedMap.Valid(m) && forall k :: k in m.entries ==> m.entries[k].id == k
  }

  ghost predicate TestimonialTable(m: OMap<Testimonial>) {
    OrderedMap.Valid(m) && forall k :: k in m.entries ==> m.entries[k].id == k
  }

  class MemStorage {
    var consultations: OMap<Consultation>
    var emailLeads: OMap<EmailLead>
    var waitlistEntries: OMap<Waitlist>
    var bookings: OMap<Booking>
    var partners: OMap<Partner>
    var testimonials: OMap<Testimonial>
    var bookingLocks: set<string>

    /** Each table is a well-formed map whose records are stored under their own id. */
    ghost predicate Valid()
      reads this`consultations, this`emailLeads, this`waitlistEntries, this`bookings
      reads this`partners, this`testimonials
    {
      && ConsultationTable(consultations)
      && EmailLeadTable(emailLeads)
      && WaitlistTable(waitlistEntries)
      && BookingTable(bookings)
      && PartnerTable(partners)
      && TestimonialTable(testimonials)
    }

    /** Every booking's slot key is claimed and no two bookings share a slot key. */
    ghost predicate Reserved()
      reads this
    {
      BookingInvariant(bookings.entries, bookingLocks)
    }

    constructor ()
      ensures Valid() && Reserved()
      ensures consultations.entries == map[] && emailLeads.entries == map[]
      ensures waitlistEntries.entries == map[] && bookings.entries == map[]
      ensures partners.entries == map[] && testimonials.entries == map[]
      ensures bookingLocks == {}
    {
      consultations := Empty();
      emailLeads := Empty();
      waitlistEntries := Empty();
      bookings := Empty();
      partners := Empty();
      testimonials := Empty();
      bookingLocks := {};
    }

    // -------------------------------------------------------------- consultations

    method CreateConsultation(c: InsertConsultation, id: string, now: int)
      returns (r: Consultation)
      requires Valid()
      modifies this`consultations
      ensures Valid()
      ensures r == NewConsultation(c, id, now)
      ensures consultations == Put(old(consultations), id, r)
      ensures GetConsultation(id) == Some(r)
    {
      r := NewConsultation(c, id, now);
      consultations := Put(consultations, id, r);
    }

    /** Every stored consultation once, newest first. */
    function GetAllConsultations(): (r: seq<Consultation>)
      reads this
      requires Valid()
      ensures forall x :: multiset(r)[x] == if x in consultations.entries.Values then 1 else 0
      ensures forall i, j :: 0 <= i < j < |r| ==> r[i].createdAt >= r[j].createdAt
    {
      ValuesCount(consultations);
      NewestFirst(Values(consultations), (x: Consultation) => x.createdAt)
    }

    /** The consultation stored under `id`, if any; it carries that id. */
    function GetConsultation(id: string): (r: Option<Consultation>)
      reads this
      requires Valid()
      ensures r.Some? <==> id in consultations.entries
      ensures r.Some? ==> r.value == consultations.entries[id] && r.value.id == id
    {
      Get(consultations, id)
    }

    // -------------------------------------------------------------- email leads

    method CreateEmailLead(l: InsertEmailLead, id: string, now: int) returns (r: EmailLead)
      requires Valid()
      modifies this`emailLeads
      ensures Valid()
      ensures r == NewEmailLead(l, id, now)
      ensures emailLeads == Put(old(emailLeads), id, r)
    {
      r := NewEmailLead(l, id, now);
      emailLeads := Put(emailLeads, id, r);
    }

    function GetAllEmailLeads(): (r: seq<EmailLead>)
      reads this
      requires Valid()
      ensures forall x :: multiset(r)[x] == if x in emailLeads.entries.Values then 1 else 0
      ensures forall i, j :: 0 <= i < j < |r| ==> r[i].createdAt >= r[j].createdAt
    {
      ValuesCount(emailLeads);
      NewestFirst(Values(emailLeads), (x: EmailLead) => x.createdAt)
    }

    // -------------------------------------------------------------- waitlist

    method CreateWaitlistEntry(w: InsertWaitlist, id: string, now: int) returns (r: Waitlist)
      requires Valid()
      modifies this`waitlistEntries
      ensures Valid()
      ensures r == NewWaitlist(w, id, now)
      ensures waitlistEntries == Put(old(waitlistEntries), id, r)
    {
      r := NewWaitlist(w, id, now);
      waitlistEntries := Put(waitlistEntries, id, r);
    }

    function GetAllWaitlist(): (r: seq<Waitlist>)
      reads this
      requires Valid()
      ensures forall x :: multiset(r)[x] == if x in waitlistEntries.entries.Values then 1 else 0
      ensures forall i, j :: 0 <= i < j < |r| ==> r[i].createdAt >= r[j].createdAt
    {
      ValuesCount(waitlistEntries);
      NewestFirst(Values(waitlistEntries), (x: Waitlist) => x.createdAt)
    }

    // -------------------------------------------------------------- bookings

    /** Claim the slot key, check the bookings of the date, then store a pending booking;
        both conflict paths fail with "Time slot already booked". */
    method CreateBooking(input: InsertBooking, id: string, now: int)
      returns (r: Result<Booking, BookingError>)
      requires Valid()
      modifies this`bookings, this`bookingLocks
      ensures Valid()
      ensures var o := Reserve(old(bookings), old(bookingLocks), input, id, now);
        r == o.result && bookings == o.bookings && bookingLocks == o.locks
      ensures old(Reserved()) ==> Reserved()
    {
      if Reserved() {
        ReservePreservesInvariant(bookings, bookingLocks, input, id, now);
      }
      var slotKey := SlotKey(input.date, input.time);
      if slotKey in bookingLocks {
        return Failure(TimeSlotAlreadyBooked);
      }
      bookingLocks := bookingLocks + {slotKey};
      var isTimeSlotTaken := IsTimeSlotTaken(input.date, input.time);
      if isTimeSlotTaken {
        bookingLocks := bookingLocks - {slotKey};
        return Failure(TimeSlotAlreadyBooked);
      }
      var booking := NewBooking(input, id, now);
      PutBooking(bookings, booking);
      bookings := Put(bookings, id, booking);
      return Success(booking);
    }

    /** The check `createBooking` makes once it holds the claim: whether some booking listed
        for the date has the time. It holds exactly when the slot is taken. */
    method IsTimeSlotTaken(date: string, time: string) returns (taken: bool)
      requires Valid()
      ensures taken <==> SlotTaken(bookings.entries, date, time)
    {
      var existingBookings := GetBookingsByDate(date);
      taken := HasTime(existingBookings, time);
      TakenIffListed(bookings, date, time);
    }

    /** Every stored booking once, newest first. */
    function GetAllBookings(): (r: seq<Booking>)
      reads this
      requires Valid()
      ensures forall x :: multiset(r)[x] == if x in bookings.entries.Values then 1 else 0
      ensures forall i, j :: 0 <= i < j < |r| ==> r[i].createdAt >= r[j].createdAt
    {
      ValuesCount(bookings);
      NewestFirst(Values(bookings), (x: Booking) => x.createdAt)
    }

    /** Exactly the stored bookings on `date`, each once, ascending by time; where the
        booking invariant holds, the times are strictly ascending. */
    function GetBookingsByDate(date: string): (r: seq<Booking>)
      reads this
      requires Valid()
      ensures forall x :: multiset(r)[x]
                       == if x in bookings.entries.Values && x.date == date then 1 else 0
      ensures forall i, j :: 0 <= i < j < |r| ==> StrLe(r[i].time, r[j].time)
      ensures Reserved() ==> forall i, j :: 0 <= i < j < |r| ==> r[i].time != r[j].time
    {
      ValuesCount(bookings);
      BookingsOnStrictlyAscending(bookings, bookingLocks, date);
      BookingsOn(Values(bookings), date)
    }

    // -------------------------------------------------------------- partners

    method CreatePartner(p: InsertPartner, id: string, now: int) returns (r: Partner)
      requires Valid()
      modifies this`partners
      ensures Valid()
      ensures r == NewPartner(p, id, now)
      ensures partners == Put(old(partners), id, r)
    {
      r := NewPartner(p, id, now);
      partners := Put(partners, id, r);
    }

    /** Every stored partner once; ascending by numeric order when every order parses. */
    function GetAllPartners(): (r: seq<Partner>)
      reads this
      requires Valid()
      ensures forall x :: multiset(r)[x] == if x in partners.entries.Values then 1 else 0
      ensures (forall p :: p in partners.entries.Values ==> ParseOrder(p.order).Some?) ==>
        NumericallyAscending(r)
    {
      ValuesCount(partners);
      var vals := Values(partners);
      assert forall p :: p in vals ==> p in partners.entries.Values;
      ByOrder(vals)
    }

    /** An absent id gives `None` and changes nothing; otherwise the partner becomes the
        merge of the old record and the update, in its old place. */
    method UpdatePartner(id: string, u: PartnerUpdate) returns (r: Option<Partner>)
      requires Valid()
      modifies this`partners
      ensures Valid()
      ensures id !in old(partners.entries) ==> r == None && partners == old(partners)
      ensures id in old(partners.entries) ==>
        && r == Some(MergePartner(old(partners.entries[id]), u))
        && partners.entries == old(partners.entries)[id := r.value]
        && partners.order == old(partners.order)
    {
      var partner := Get(partners, id);
      if partner.None? {
        return None;
      }
      var updated := MergePartner(partner.value, u);
      partners := Put(partners, id, updated);
      return Some(updated);
    }

    /** Returns whether `id` was present; afterwards it is absent and nothing else changed. */
    method DeletePartner(id: string) returns (deleted: bool)
      requires Valid()
      modifies this`partners
      ensures Valid()
      ensures deleted == (id in old(partners.entries))
      ensures partners.entries == old(partners.entries) - {id}
      ensures partners.order == RemoveKey(old(partners.order), id)
    {
      deleted := id in partners.entries;
      partners := Remove(partners, id);
    }

    // -------------------------------------------------------------- testimonials

    method CreateTestimonial(t: InsertTestimonial, id: string, now: int)
      returns (r: Testimonial)
      requires Valid()
      modifies this`testimonials
      ensures Valid()
      ensures r == NewTestimonial(t, id, now)
      ensures testimonials == Put(old(testimonials), id, r)
    {
      r := NewTestimonial(t, id, now);
      testimonials := Put(testimonials, id, r);
    }

    function GetAllTestimonials(): (r: seq<Testimonial>)
      reads this
      requires Valid()
      ensures forall x :: multiset(r)[x] == if x in testimonials.entries.Values then 1 else 0
      ensures forall i, j :: 0 <= i < j < |r| ==> r[i].createdAt >= r[j].createdAt
    {
      ValuesCount(testimonials);
      NewestFirst(Values(testimonials), (x: Testimonial) => x.createdAt)
    }

    method UpdateTestimonial(id: string, u: TestimonialUpdate) returns (r: Option<Testimonial>)
      requires Valid()
      modifies this`testimonials
      ensures Valid()
      ensures id !in old(testimonials.entries) ==> r == None && testimonials == old(testimonials)
      ensures id in old(testimonials.entries) ==>
        && r == Some(MergeTestimonial(old(testimonials.entries[id]), u))
        && testimonials.entries == old(testimonials.entries)[id := r.value]
        && testimonials.order == old(testimonials.order)
    {
      var testimonial := Get(testimonials, id);
      if testimonial.None? {
        return None;
      }
      var updated := MergeTestimonial(testimonial.value, u);
      testimonials := Put(testimonials, id, updated);
      return Some(updated);
    }

    method DeleteTestimonial(id: string) returns (deleted: bool)
      requires Valid()
      modifies this`testimonials
      ensures Valid()
      ensures deleted == (id in old(testimonials.entries))
      ensures testimonials.entries == old(testimonials.entries) - {id}
      ensures testimonials.order == RemoveKey(old(testimonials.order), id)
    {
      deleted := id in testimonials.entries;
      testimonials := Remove(testimonials, id);
    }
  }
}
