/** The records stored by the dashboard: companies, communication methods and
    logged communication events, plus the integer time model that stands in for
    JavaScript `Date` values and date-fns/moment day arithmetic. */
module Time {
  /** A point in time: milliseconds since the epoch, as `Date.getTime()` gives. */
  type Timestamp = int

  /** Milliseconds in one day. */
  const DAY: int := 86_400_000

  /** date-fns `addDays(t, n)`, on whole days of fixed length. */
  function AddDays(t: Timestamp, n: int): Timestamp {
    t + n * DAY
  }

  /** The calendar day that `t` falls on, counted from the epoch (floor division). */
  function DayOf(t: Timestamp): int {
    t / DAY
  }

  /** date-fns `isSameDay`. */
  predicate SameDay(a: Timestamp, b: Timestamp) {
    DayOf(a) == DayOf(b)
  }

  /** Later instants never fall on earlier days. */
  lemma DayOfMonotone(a: Timestamp, b: Timestamp)
    requires a <= b
    ensures DayOf(a) <= DayOf(b)
  {
    assert a == DayOf(a) * DAY + a % DAY;
    assert b == DayOf(b) * DAY + b % DAY;
  }

  /** Adding n days moves the calendar day by exactly n. */
  lemma DayOfAddDays(t: Timestamp, n: int)
    ensures DayOf(AddDays(t, n)) == DayOf(t) + n
    ensures AddDays(t, n) % DAY == t % DAY
  {
    var q, r := t / DAY, t % DAY;
    assert t == q * DAY + r && 0 <= r < DAY;
    assert AddDays(t, n) == (q + n) * DAY + r;
  }
}

module Entities {
  import opened Wrappers
  import opened Time

  /** Record identifiers: the uuid strings the hooks generate. */
  type Id = string

  /** A company on the roster. The last three fields are the scheduling cache that
      logging and editing a communication rewrite. */
  datatype Company = Company(
    id: Id,
    name: string,
    location: string,
    linkedInProfile: Option<string>,
    emails: seq<string>,
    phoneNumbers: seq<string>,
    comments: string,
    communicationPeriodicity: int,
    lastCommunication: Option<Timestamp>,
    nextCommunication: Option<Timestamp>,
    nextCommunicationType: Option<Id>)

  /** An entry of the communication-method catalog. */
  datatype CommunicationMethod = CommunicationMethod(
    id: Id,
    name: string,
    description: string,
    sequence: int,
    mandatory: bool)

  /** A logged communication event. */
  datatype Communication = Communication(
    id: Id,
    companyId: Id,
    communicationType: Id,
    date: Timestamp,
    notes: string)

  /** The `{communicationType, date, notes}` object the action dialog hands to the
      engine. `date` is None when the string does not parse to a valid date. */
  datatype CommunicationInput = CommunicationInput(
    communicationType: Id,
    date: Option<Timestamp>,
    notes: string)

  function CompanyKey(c: Company): Id { c.id }
  function MethodKey(m: CommunicationMethod): Id { m.id }
  function CommunicationKey(e: Communication): Id { e.id }
}
