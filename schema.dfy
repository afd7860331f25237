/** The tables of the site's data model and the checks their insert schemas apply.
    An insert payload is a row without `id` and `createdAt` (and, for a booking, without
    `status`); a nullable column is an optional field. The email and URL format checks
    are library checks and are taken as parameters `isEmail` and `isUrl`. */
module Schema {
  import opened Wrappers

  // Column defaults (a database insert fills these in; the in-memory store does not).
  const StatusDefault: string := "pending"
  const OrderDefault: string := "0"
  const IsActiveDefault: string := "true"
  const RatingDefault: string := "5"

  // Messages of the insert schemas' checks.
  const MsgEmail: string := "Please enter a valid email address"
  const MsgName: string := "Name must be at least 2 characters"
  const MsgService: string := "Please select a service"
  const MsgDetails: string := "Please provide more details (at least 10 characters)"
  const MsgSource: string := "Source is required"
  const MsgDate: string := "Please select a date"
  const MsgTime: string := "Please select a time"
  const MsgUrl: string := "Must be a valid URL"
  const MsgTitle: string := "Title is required"
  const MsgContent: string := "Content must be at least 10 characters"
  const MsgRating: string := "Rating must be between 1 and 5"

  /** One failed check: the field it concerns and its message. */
  datatype Issue = Issue(path: string, message: string)

  /** The issue a failed check reports, or nothing. */
  function Check(ok: bool, path: string, message: string): seq<Issue> {
    if ok then [] else [Issue(path, message)]
  }

  // ---------------------------------------------------------------- consultations

  datatype InsertConsultation = InsertConsultation(
    name: string, email: string, phone: Option<string>, serviceInterest: string, message: string)

  datatype Consultation = Consultation(
    id: string, name: string, email: string, phone: Option<string>, serviceInterest: string,
    message: string, createdAt: int)

  predicate ConsultationAccepted(c: InsertConsultation, isEmail: string -> bool) {
    |c.name| >= 2 && isEmail(c.email) && |c.serviceInterest| >= 1 && |c.message| >= 10
  }

  /** The issues `insertConsultationSchema.parse` reports, in the order of the columns. */
  function ConsultationIssues(c: InsertConsultation, isEmail: string -> bool): (r: seq<Issue>)
    ensures r == [] <==> ConsultationAccepted(c, isEmail)
    ensures Issue("name", MsgName) in r <==> |c.name| < 2
    ensures Issue("email", MsgEmail) in r <==> !isEmail(c.email)
    ensures Issue("serviceInterest", MsgService) in r <==> |c.serviceInterest| < 1
    ensures Issue("message", MsgDetails) in r <==> |c.message| < 10
    ensures |r| == (if |c.name| < 2 then 1 else 0) + (if isEmail(c.email) then 0 else 1)
                 + (if |c.serviceInterest| < 1 then 1 else 0) + (if |c.message| < 10 then 1 else 0)
  {
    Check(|c.name| >= 2, "name", MsgName)
    + Check(isEmail(c.email), "email", MsgEmail)
    + Check(|c.serviceInterest| >= 1, "serviceInterest", MsgService)
    + Check(|c.message| >= 10, "message", MsgDetails)
  }

  /** The stored record: the payload with an id and a creation time. */
  function NewConsultation(c: InsertConsultation, id: string, now: int): (r: Consultation)
    ensures r.id == id && r.createdAt == now && ConsultationPayload(r) == c
  {
    Consultation(id, c.name, c.email, c.phone, c.serviceInterest, c.message, now)
  }

  function ConsultationPayload(r: Consultation): InsertConsultation {
    InsertConsultation(r.name, r.email, r.phone, r.serviceInterest, r.message)
  }

  // ---------------------------------------------------------------- email leads

  datatype InsertEmailLead = InsertEmailLead(email: string, name: Option<string>, source: string)

  datatype EmailLead = EmailLead(
    id: string, email: string, name: Option<string>, source: string, createdAt: int)

  predicate EmailLeadAccepted(l: InsertEmailLead, isEmail: string -> bool) {
    isEmail(l.email) && |l.source| >= 1
  }

  function EmailLeadIssues(l: InsertEmailLead, isEmail: string -> bool): (r: seq<Issue>)
    ensures r == [] <==> EmailLeadAccepted(l, isEmail)
    ensures Issue("email", MsgEmail) in r <==> !isEmail(l.email)
    ensures Issue("source", MsgSource) in r <==> |l.source| < 1
    ensures |r| == (if isEmail(l.email) then 0 else 1) + (if |l.source| < 1 then 1 else 0)
  {
    Check(isEmail(l.email), "email", MsgEmail)
    + Check(|l.source| >= 1, "source", MsgSource)
  }

  function NewEmailLead(l: InsertEmailLead, id: string, now: int): (r: EmailLead)
    ensures r.id == id && r.createdAt == now && EmailLeadPayload(r) == l
  {
    EmailLead(id, l.email, l.name, l.source, now)
  }

  function EmailLeadPayload(r: EmailLead): InsertEmailLead {
    InsertEmailLead(r.email, r.name, r.source)
  }

  // ---------------------------------------------------------------- waitlist

  /** `name` is nullable in the table but the insert schema makes it a required string. */
  datatype InsertWaitlist = InsertWaitlist(
    email: string, name: string, destination: Option<string>, travelPeriod: Option<string>)

  datatype Waitlist = Waitlist(
    id: string, email: string, name: string, destination: Option<string>,
    travelPeriod: Option<string>, createdAt: int)

  predicate WaitlistAccepted(w: InsertWaitlist, isEmail: string -> bool) {
    isEmail(w.email) && |w.name| >= 2
  }

  function WaitlistIssues(w: InsertWaitlist, isEmail: string -> bool): (r: seq<Issue>)
    ensures r == [] <==> WaitlistAccepted(w, isEmail)
    ensures Issue("email", MsgEmail) in r <==> !isEmail(w.email)
    ensures Issue("name", MsgName) in r <==> |w.name| < 2
    ensures |r| == (if isEmail(w.email) then 0 else 1) + (if |w.name| < 2 then 1 else 0)
  {
    Check(isEmail(w.email), "email", MsgEmail)
    + Check(|w.name| >= 2, "name", MsgName)
  }

  function NewWaitlist(w: InsertWaitlist, id: string, now: int): (r: Waitlist)
    ensures r.id == id && r.createdAt == now && WaitlistPayload(r) == w
  {
    Waitlist(id, w.email, w.name, w.destination, w.travelPeriod, now)
  }

  function WaitlistPayload(r: Waitlist): InsertWaitlist {
    InsertWaitlist(r.email, r.name, r.destination, r.travelPeriod)
  }

  // ---------------------------------------------------------------- bookings

  /** No `id`, `createdAt` or `status`: the insert schema omits all three. */
  datatype InsertBooking = InsertBooking(
    name: string, email: string, phone: Option<string>, serviceInterest: string,
    date: string, time: string, message: Option<string>)

  datatype Booking = Booking(
    id: string, name: string, email: string, phone: Option<string>, serviceInterest: string,
    date: string, time: string, message: Option<string>, status: string, createdAt: int)

  predicate BookingAccepted(b: InsertBooking, isEmail: string -> bool) {
    && |b.name| >= 2 && isEmail(b.email) && |b.serviceInterest| >= 1
    && |b.date| >= 1 && |b.time| >= 1
  }

  function BookingIssues(b: InsertBooking, isEmail: string -> bool): (r: seq<Issue>)
    ensures r == [] <==> BookingAccepted(b, isEmail)
    ensures Issue("name", MsgName) in r <==> |b.name| < 2
    ensures Issue("email", MsgEmail) in r <==> !isEmail(b.email)
    ensures Issue("serviceInterest", MsgService) in r <==> |b.serviceInterest| < 1
    ensures Issue("date", MsgDate) in r <==> |b.date| < 1
    ensures Issue("time", MsgTime) in r <==> |b.time| < 1
    ensures |r| == (if |b.name| < 2 then 1 else 0) + (if isEmail(b.email) then 0 else 1)
                 + (if |b.serviceInterest| < 1 then 1 else 0) + (if |b.date| < 1 then 1 else 0)
                 + (if |b.time| < 1 then 1 else 0)
  {
    Check(|b.name| >= 2, "name", MsgName)
    + Check(isEmail(b.email), "email", MsgEmail)
    + Check(|b.serviceInterest| >= 1, "serviceInterest", MsgService)
    + Check(|b.date| >= 1, "date", MsgDate)
    + Check(|b.time| >= 1, "time", MsgTime)
  }

  /** Acceptance does not look at the optional `phone` and `message`. */
  lemma BookingOptionalFields(b: InsertBooking, phone: Option<string>, message: Option<string>,
                              isEmail: string -> bool)
    ensures BookingAccepted(b.(phone := phone, message := message), isEmail)
        == BookingAccepted(b, isEmail)
  {
  }

  /** The stored record: the payload, an id, a creation time and the status "pending". */
  function NewBooking(b: InsertBooking, id: string, now: int): (r: Booking)
    ensures r.id == id && r.createdAt == now && r.status == StatusDefault
    ensures BookingPayload(r) == b
  {
    Booking(id, b.name, b.email, b.phone, b.serviceInterest, b.date, b.time, b.message,
            "pending", now)
  }

  function BookingPayload(r: Booking): InsertBooking {
    InsertBooking(r.name, r.email, r.phone, r.serviceInterest, r.date, r.time, r.message)
  }

  // ---------------------------------------------------------------- partners

  /** `order` and `isActive` have column defaults, so the insert schema makes them optional. */
  datatype InsertPartner = InsertPartner(
    name: string, logoUrl: string, description: Option<string>, website: Option<string>,
    order: Option<string>, isActive: Option<string>)

  /** A stored partner keeps an omitted `order` or `isActive` absent. */
  datatype Partner = Partner(
    id: string, name: string, logoUrl: string, description: Option<string>,
    website: Option<string>, order: Option<string>, isActive: Option<string>, createdAt: int)

  predicate PartnerAccepted(p: InsertPartner, isUrl: string -> bool) {
    |p.name| >= 2 && isUrl(p.logoUrl)
  }

  function PartnerIssues(p: InsertPartner, isUrl: string -> bool): (r: seq<Issue>)
    ensures r == [] <==> PartnerAccepted(p, isUrl)
    ensures Issue("name", MsgName) in r <==> |p.name| < 2
    ensures Issue("logoUrl", MsgUrl) in r <==> !isUrl(p.logoUrl)
    ensures |r| == (if |p.name| < 2 then 1 else 0) + (if isUrl(p.logoUrl) then 0 else 1)
  {
    Check(|p.name| >= 2, "name", MsgName)
    + Check(isUrl(p.logoUrl), "logoUrl", MsgUrl)
  }

  function NewPartner(p: InsertPartner, id: string, now: int): (r: Partner)
    ensures r.id == id && r.createdAt == now && PartnerPayload(r) == p
  {
    Partner(id, p.name, p.logoUrl, p.description, p.website, p.order, p.isActive, now)
  }

  function PartnerPayload(r: Partner): InsertPartner {
    InsertPartner(r.name, r.logoUrl, r.description, r.website, r.order, r.isActive)
  }

  /** The `order` and `isActive` a database row would hold: the payload's, else the defaults. */
  function PartnerColumnDefaults(p: InsertPartner): (r: (string, string))
    ensures p.order.Some? ==> r.0 == p.order.value
    ensures p.order.None? ==> r.0 == "0"
    ensures p.isActive.Some? ==> r.1 == p.isActive.value
    ensures p.isActive.None? ==> r.1 == "true"
  {
    (p.order.GetOr(OrderDefault), p.isActive.GetOr(IsActiveDefault))
  }

  // ---------------------------------------------------------------- testimonials

  /** `rating` has a column default, but the insert schema replaces it by a required string. */
  datatype InsertTestimonial = InsertTestimonial(
    name: string, title: string, content: string, rating: string, imageUrl: Option<string>,
    isActive: Option<string>)

  datatype Testimonial = Testimonial(
    id: string, name: string, title: string, content: string, rating: string,
    imageUrl: Option<string>, isActive: Option<string>, createdAt: int)

  /** The pattern `^[1-5]$`: one character, a digit from 1 to 5. */
  predicate RatingPattern(r: string) {
    |r| == 1 && '1' <= r[0] <= '5'
  }

  /** The pattern admits exactly the five ratings, the column default among them. */
  lemma RatingPatternValues(r: string)
    ensures RatingPattern(r) <==> r == "1" || r == "2" || r == "3" || r == "4" || r == "5"
    ensures RatingPattern(RatingDefault)
  {
    if RatingPattern(r) {
      assert r == [r[0]];
    }
  }

  predicate TestimonialAccepted(t: InsertTestimonial) {
    |t.name| >= 2 && |t.title| >= 2 && |t.content| >= 10 && RatingPattern(t.rating)
  }

  function TestimonialIssues(t: InsertTestimonial): (r: seq<Issue>)
    ensures r == [] <==> TestimonialAccepted(t)
    ensures Issue("name", MsgName) in r <==> |t.name| < 2
    ensures Issue("title", MsgTitle) in r <==> |t.title| < 2
    ensures Issue("content", MsgContent) in r <==> |t.content| < 10
    ensures Issue("rating", MsgRating) in r <==> !RatingPattern(t.rating)
    ensures |r| == (if |t.name| < 2 then 1 else 0) + (if |t.title| < 2 then 1 else 0)
                 + (if |t.content| < 10 then 1 else 0) + (if RatingPattern(t.rating) then 0 else 1)
  {
    Check(|t.name| >= 2, "name", MsgName)
    + Check(|t.title| >= 2, "title", MsgTitle)
    + Check(|t.content| >= 10, "content", MsgContent)
    + Check(RatingPattern(t.rating), "rating", MsgRating)
  }

  function NewTestimonial(t: InsertTestimonial, id: string, now: int): (r: Testimonial)
    ensures r.id == id && r.createdAt == now && TestimonialPayload(r) == t
  {
    Testimonial(id, t.name, t.title, t.content, t.rating, t.imageUrl, t.isActive, now)
  }

  function TestimonialPayload(r: Testimonial): InsertTestimonial {
    InsertTestimonial(r.name, r.title, r.content, r.rating, r.imageUrl, r.isActive)
  }
}
