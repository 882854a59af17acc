/** The scheduling engine of the user hook: the communication log, the per-company
    scheduling cache that logging and editing rewrite, and the queries that derive
    due dates, overdue/due-today flags and the five-date projection from a company. */
module UserModule {
  import opened Wrappers
  import opened Time
  import opened Lists
  import opened Entities

  /** Raised when the communication's date string does not parse. */
  datatype EngineError = InvalidDate

  // ---------------------------------------------------------------------------
  // The scheduling cache

  /** The two companies agree on every field outside the scheduling cache. */
  predicate SameProfile(a: Company, b: Company) {
    a.(lastCommunication := None, nextCommunication := None, nextCommunicationType := None) ==
    b.(lastCommunication := None, nextCommunication := None, nextCommunicationType := None)
  }

  /** `{...company, lastCommunication, nextCommunication, nextCommunicationType}` for a
      communication of type `kind` dated `date`. */
  function Contacted(c: Company, date: Timestamp, kind: Id): (r: Company)
    ensures SameProfile(r, c)
    ensures r.lastCommunication == Some(date) && r.nextCommunicationType == Some(kind)
    ensures r.nextCommunication == Some(AddDays(date, c.communicationPeriodicity))
    ensures Coherent(r)
  {
    c.(lastCommunication := Some(date),
       nextCommunication := Some(AddDays(date, c.communicationPeriodicity)),
       nextCommunicationType := Some(kind))
  }

  /** The companies update of logCommunication and updateCommunication: every company
      whose id is `companyId` gets its cache rewritten from `date` and `kind`, whatever
      the cache held before; every other company is left as it was. */
  function RecordContact(cs: seq<Company>, companyId: Id, date: Timestamp, kind: Id): (r: seq<Company>)
    ensures |r| == |cs|
    ensures forall i :: 0 <= i < |cs| && cs[i].id != companyId ==> r[i] == cs[i]
    ensures forall i :: 0 <= i < |cs| && cs[i].id == companyId ==>
              && SameProfile(r[i], cs[i])
              && r[i].lastCommunication == Some(date)
              && r[i].nextCommunication == Some(AddDays(date, cs[i].communicationPeriodicity))
              && r[i].nextCommunicationType == Some(kind)
  {
    MapWhere(cs, (c: Company) => c.id == companyId, c => Contacted(c, date, kind))
  }

  /** The cache is internally consistent: a next date, when present, lies exactly one
      period after a recorded last date. */
  predicate Coherent(c: Company) {
    c.nextCommunication.Some? ==>
      c.lastCommunication.Some? &&
      c.nextCommunication.value == AddDays(c.lastCommunication.value, c.communicationPeriodicity)
  }

  /** Recording a contact leaves every touched company coherent and keeps every other
      company as coherent as it was. */
  lemma RecordContactCoherent(cs: seq<Company>, companyId: Id, date: Timestamp, kind: Id)
    ensures forall c :: c in RecordContact(cs, companyId, date, kind) && c.id == companyId ==> Coherent(c)
    ensures (forall c :: c in cs ==> Coherent(c)) ==>
              forall c :: c in RecordContact(cs, companyId, date, kind) ==> Coherent(c)
  {
    var r := RecordContact(cs, companyId, date, kind);
    forall c | c in r
      ensures c.id == companyId ==> Coherent(c)
      ensures (forall c' :: c' in cs ==> Coherent(c')) ==> Coherent(c)
    {
      var i :| 0 <= i < |r| && r[i] == c;
      if cs[i].id != companyId {
        assert c == cs[i] && c in cs;
      }
    }
  }

  // ---------------------------------------------------------------------------
  // The communication log

  /** `{...comm, communicationType, notes, date}`: the edit updateCommunication applies. */
  function Revised(e: Communication, kind: Id, date: Timestamp, notes: string): (r: Communication)
    ensures r.id == e.id && r.companyId == e.companyId
    ensures r.communicationType == kind && r.date == date && r.notes == notes
  {
    e.(communicationType := kind, date := date, notes := notes)
  }

  /** The log update of updateCommunication: every event with the given id takes the new
      type, date and notes and keeps its own id and company; the others are untouched. */
  function ReviseEvents(comms: seq<Communication>, communicationId: Id, kind: Id, date: Timestamp, notes: string)
    : (r: seq<Communication>)
    ensures |r| == |comms|
    ensures forall i :: 0 <= i < |comms| ==> r[i].id == comms[i].id && r[i].companyId == comms[i].companyId
    ensures forall i :: 0 <= i < |comms| && comms[i].id == communicationId ==>
              r[i].communicationType == kind && r[i].date == date && r[i].notes == notes
    ensures forall i :: 0 <= i < |comms| && comms[i].id != communicationId ==> r[i] == comms[i]
  {
    MapWhere(comms, (e: Communication) => e.id == communicationId, e => Revised(e, kind, date, notes))
  }

  /** An edit aimed at an id the log does not hold changes nothing. */
  lemma ReviseEventsAbsent(comms: seq<Communication>, communicationId: Id, kind: Id, date: Timestamp, notes: string)
    requires forall e :: e in comms ==> e.id != communicationId
    ensures ReviseEvents(comms, communicationId, kind, date, notes) == comms
  {
    MapWhereNone(comms, (e: Communication) => e.id == communicationId, e => Revised(e, kind, date, notes));
  }

  /** `communications.filter(comm => comm.companyId === companyId)` */
  function EventsOf(comms: seq<Communication>, companyId: Id): (r: seq<Communication>)
    ensures forall e :: multiset(r)[e] == if e.companyId == companyId then multiset(comms)[e] else 0
    ensures forall e :: e in r <==> e in comms && e.companyId == companyId
  {
    KeepMultiset(comms, (e: Communication) => e.companyId == companyId);
    Keep(comms, (e: Communication) => e.companyId == companyId)
  }

  /** Appending an event to the log appends it to its own company's events and to no other. */
  lemma EventsOfAppend(comms: seq<Communication>, e: Communication, companyId: Id)
    ensures EventsOf(comms + [e], companyId) ==
            if e.companyId == companyId then EventsOf(comms, companyId) + [e] else EventsOf(comms, companyId)
  {
    KeepAppend(comms, [e], (x: Communication) => x.companyId == companyId);
    assert [e][1..] == [];
  }

  // ---------------------------------------------------------------------------
  // getCompanyCommunication

  /** Ordered by date, most recent first. */
  predicate NewestFirst(s: seq<Communication>) {
    forall i, j :: 0 <= i < j < |s| ==> s[i].date >= s[j].date
  }

  /** The head of a newest-first sequence is no earlier than any of its events, and the
      tail is newest-first too. */
  lemma HeadIsNewest(s: seq<Communication>)
    requires NewestFirst(s)
    ensures s != [] ==> forall x :: x in s ==> x.date <= s[0].date
    ensures s != [] ==> NewestFirst(s[1..])
  {
    forall x | x in s ensures x.date <= s[0].date {
      var k :| 0 <= k < |s| && s[k] == x;
    }
  }

  /** Putting an event no earlier than all of a newest-first sequence in front keeps it so. */
  lemma PrependNewest(x: Communication, t: seq<Communication>)
    requires NewestFirst(t)
    requires forall y :: y in t ==> y.date <= x.date
    ensures NewestFirst([x] + t)
  {
    forall i, j | 0 <= i < j < |[x] + t| ensures ([x] + t)[i].date >= ([x] + t)[j].date {
      assert ([x] + t)[j] == t[j - 1];
      if i > 0 {
        assert ([x] + t)[i] == t[i - 1];
      } else {
        assert t[j - 1] in t;
      }
    }
  }

  /** Insert `e` into a newest-first sequence, ahead of the events no later than it. */
  function InsertByDate(e: Communication, s: seq<Communication>): (r: seq<Communication>)
    requires NewestFirst(s)
    ensures multiset(r) == multiset(s) + multiset{e}
    ensures forall x :: x in r <==> x == e || x in s
    ensures NewestFirst(r)
  {
    if s == [] || s[0].date <= e.date then
      HeadIsNewest(s);
      PrependNewest(e, s);
      [e] + s
    else
      HeadIsNewest(s);
      var t := InsertByDate(e, s[1..]);
      assert s == [s[0]] + s[1..];
      PrependNewest(s[0], t);
      [s[0]] + t
  }

  /** A sort by date, most recent first, that keeps events of equal date in log order. */
  function SortByDateDesc(s: seq<Communication>): (r: seq<Communication>)
    ensures multiset(r) == multiset(s)
    ensures forall x :: x in r <==> x in s
    ensures NewestFirst(r)
  {
    if s == [] then []
    else
      assert s == [s[0]] + s[1..];
      InsertByDate(s[0], SortByDateDesc(s[1..]))
  }

  /** getCompanyCommunication: exactly the company's events, each as often as in the log,
      newest first. */
  function CompanyCommunication(comms: seq<Communication>, companyId: Id): (r: seq<Communication>)
    ensures forall e :: multiset(r)[e] == if e.companyId == companyId then multiset(comms)[e] else 0
    ensures forall e :: e in r <==> e in comms && e.companyId == companyId
    ensures NewestFirst(r)
  {
    SortByDateDesc(EventsOf(comms, companyId))
  }

  // ---------------------------------------------------------------------------
  // The cache as the log would derive it

  /** The date of the most recent event in `events`, if there is one. */
  function LatestDate(events: seq<Communication>): (r: Option<Timestamp>)
    ensures r.None? <==> events == []
    ensures r.Some? ==> (exists e :: e in events && e.date == r.value) &&
                        forall e :: e in events ==> e.date <= r.value
  {
    if events == [] then None
    else
      var init := events[..|events| - 1];
      var last := events[|events| - 1];
      assert events == init + [last];
      var rest := LatestDate(init);
      Some(if rest.Some? && rest.value > last.date then rest.value else last.date)
  }

  /** The head of a newest-first listing of a set of events carries their latest date. */
  lemma HeadIsLatest(r: seq<Communication>, evs: seq<Communication>)
    requires r != [] && NewestFirst(r)
    requires forall e :: e in r <==> e in evs
    ensures LatestDate(evs) == Some(r[0].date)
  {
    assert r[0] in evs;
    var latest := LatestDate(evs);
    var w :| w in evs && w.date == latest.value;
    var j :| 0 <= j < |r| && r[j] == w;
    assert r[0].date >= r[j].date;
  }

  /** The first event getCompanyCommunication lists is the company's most recent one. */
  lemma CompanyCommunicationHeadIsLatest(comms: seq<Communication>, companyId: Id)
    requires CompanyCommunication(comms, companyId) != []
    ensures LatestDate(EventsOf(comms, companyId)) == Some(CompanyCommunication(comms, companyId)[0].date)
  {
    HeadIsLatest(CompanyCommunication(comms, companyId), EventsOf(comms, companyId));
  }

  /** The company's cache is what the log implies: its last date is the date of its most
      recent event and its next date is one period later, or both are absent when it has
      no events. */
  predicate InSyncWithLog(c: Company, comms: seq<Communication>) {
    var latest := LatestDate(EventsOf(comms, c.id));
    && c.lastCommunication == latest
    && c.nextCommunication == (if latest.Some? then Some(AddDays(latest.value, c.communicationPeriodicity)) else None)
  }

  /** Logging an event that is no older than any of the company's events keeps the
      company's cache in sync with the log. */
  lemma {:induction false} LogLatestKeepsSync(c: Company, comms: seq<Communication>, e: Communication, kind: Id)
    requires InSyncWithLog(c, comms)
    requires e.companyId == c.id
    requires forall x :: x in EventsOf(comms, c.id) ==> x.date <= e.date
    ensures InSyncWithLog(Contacted(c, e.date, kind), comms + [e])
  {
    EventsOfAppend(comms, e, c.id);
    var evs := EventsOf(comms, c.id);
    var latest := LatestDate(evs + [e]);
    assert (evs + [e])[..|evs + [e]| - 1] == evs;
    assert latest == Some(e.date);
  }

  /** Logging a backdated event (older than one the company already has) desynchronises
      the cache: the write is unconditional, so the cache no longer reflects the most
      recent event. */
  lemma {:induction false} LogBackdatedBreaksSync(c: Company, comms: seq<Communication>, e: Communication, kind: Id)
    requires e.companyId == c.id
    requires exists x :: x in EventsOf(comms, c.id) && e.date < x.date
    ensures !InSyncWithLog(Contacted(c, e.date, kind), comms + [e])
  {
    EventsOfAppend(comms, e, c.id);
    var x :| x in EventsOf(comms, c.id) && e.date < x.date;
    assert x in EventsOf(comms + [e], c.id);
  }

  /** Logging an event for one company does not disturb another company's sync. */
  lemma LogKeepsOthersInSync(c: Company, comms: seq<Communication>, e: Communication)
    requires InSyncWithLog(c, comms)
    requires e.companyId != c.id
    ensures InSyncWithLog(c, comms + [e])
  {
    EventsOfAppend(comms, e, c.id);
  }

  /** Deleting a company's only event leaves a cached next date behind: the delete does
      not touch the companies, so the cache no longer matches the log. */
  lemma {:induction false} DeleteOnlyEventLeavesStaleCache(c: Company, comms: seq<Communication>, e: Communication)
    requires EventsOf(comms, c.id) == [e]
    requires c.nextCommunication.Some?
    ensures !InSyncWithLog(c, RemoveByKey(comms, CommunicationKey, e.id))
  {
  }

  // ---------------------------------------------------------------------------
  // The engine's state and its mutators

  class Engine {
    var companies: seq<Company>
    var communicationMethods: seq<CommunicationMethod>
    var communications: seq<Communication>

    /** Each collection is the stored list when there is one, and empty otherwise. */
    constructor (storedCompanies: Option<seq<Company>>, storedMethods: Option<seq<CommunicationMethod>>,
                 storedCommunications: Option<seq<Communication>>)
      ensures companies == storedCompanies.GetOr([])
      ensures communicationMethods == storedMethods.GetOr([])
      ensures communications == storedCommunications.GetOr([])
    {
      companies := storedCompanies.GetOr([]);
      communicationMethods := storedMethods.GetOr([]);
      communications := storedCommunications.GetOr([]);
    }

    /** logCommunication: append a new event and rewrite the owning company's cache.
        An unparseable date fails before anything changes. */
    method LogCommunication(companyId: Id, input: CommunicationInput, freshId: Id)
      returns (outcome: Outcome<EngineError>)
      modifies this
      ensures communicationMethods == old(communicationMethods)
      ensures input.date.None? ==>
                outcome == Fail(InvalidDate) &&
                companies == old(companies) && communications == old(communications)
      ensures input.date.Some? ==>
                && outcome == Pass
                && communications == old(communications) +
                     [Communication(freshId, companyId, input.communicationType, input.date.value, input.notes)]
                && companies == RecordContact(old(companies), companyId, input.date.value, input.communicationType)
      ensures (forall c :: c in old(companies) ==> Coherent(c)) ==> forall c :: c in companies ==> Coherent(c)
    {
      if input.date.None? {
        return Fail(InvalidDate);
      }
      var date := input.date.value;
      var event := Communication(freshId, companyId, input.communicationType, date, input.notes);
      communications := communications + [event];
      companies := RecordContact(companies, companyId, date, input.communicationType);
      RecordContactCoherent(old(companies), companyId, date, input.communicationType);
      outcome := Pass;
    }

    /** updateCommunication: rewrite the matching events, then rewrite the cache of the
        company that owned the event in the log as it was before the edit. An unknown id
        changes nothing; an unparseable date for a known id fails before anything changes. */
    method UpdateCommunication(communicationId: Id, input: CommunicationInput)
      returns (outcome: Outcome<EngineError>)
      modifies this
      ensures communicationMethods == old(communicationMethods)
      ensures var owner := FindByKey(old(communications), CommunicationKey, communicationId);
              owner.None? ==>
                outcome == Pass && companies == old(companies) && communications == old(communications)
      ensures var owner := FindByKey(old(communications), CommunicationKey, communicationId);
              owner.Some? && input.date.None? ==>
                outcome == Fail(InvalidDate) && companies == old(companies) && communications == old(communications)
      ensures var owner := FindByKey(old(communications), CommunicationKey, communicationId);
              owner.Some? && input.date.Some? ==>
                && outcome == Pass
                && communications == ReviseEvents(old(communications), communicationId,
                                                  input.communicationType, input.date.value, input.notes)
                && companies == RecordContact(old(companies), owner.value.companyId,
                                              input.date.value, input.communicationType)
      ensures (forall c :: c in old(companies) ==> Coherent(c)) ==> forall c :: c in companies ==> Coherent(c)
    {
      var owner := FindByKey(communications, CommunicationKey, communicationId);
      if owner.None? {
        return Pass;
      }
      if input.date.None? {
        return Fail(InvalidDate);
      }
      var date := input.date.value;
      communications := ReviseEvents(communications, communicationId, input.communicationType, date, input.notes);
      companies := RecordContact(companies, owner.value.companyId, date, input.communicationType);
      RecordContactCoherent(old(companies), owner.value.companyId, date, input.communicationType);
      outcome := Pass;
    }

    /** deleteCommunication: drop every event with the id, keeping the order of the rest.
        The companies, and so their caches, are not touched. */
    method DeleteCommunication(communicationId: Id)
      modifies this
      ensures communications == RemoveByKey(old(communications), CommunicationKey, communicationId)
      ensures companies == old(companies)
      ensures communicationMethods == old(communicationMethods)
    {
      communications := RemoveByKey(communications, CommunicationKey, communicationId);
    }
  }

  // ---------------------------------------------------------------------------
  // Queries on one company; `now` is the wall-clock reading

  /** getCompanyNextCommunication: the cached next date, or nothing (null). */
  function NextCommunication(c: Company): (r: Option<Timestamp>)
    ensures r.None? <==> c.nextCommunication.None?
    ensures r.Some? ==> r.value == c.nextCommunication.value
  {
    if c.nextCommunication.Some? then Some(c.nextCommunication.value) else None
  }

  /** isOverdue: the clock is strictly past the reference date, which is the cached next
      date or, without one, the clock itself. */
  function IsOverdue(c: Company, now: Timestamp): (r: bool)
    ensures r <==> c.nextCommunication.Some? && now > c.nextCommunication.value
  {
    now > c.nextCommunication.GetOr(now)
  }

  /** isDueToday: the clock and the same reference date fall on one calendar day. */
  function IsDueToday(c: Company, now: Timestamp): (r: bool)
    ensures r <==> c.nextCommunication.None? || SameDay(now, c.nextCommunication.value)
  {
    SameDay(now, c.nextCommunication.GetOr(now))
  }

  /** An overdue company's next date falls on or before today. */
  lemma OverdueDueNoLaterThanToday(c: Company, now: Timestamp)
    requires IsOverdue(c, now)
    ensures DayOf(c.nextCommunication.value) <= DayOf(now)
  {
    DayOfMonotone(c.nextCommunication.value, now);
  }

  /** A communication logged today for a company with a period of at least one day moves
      it to "scheduled in the future": neither overdue nor due today. */
  lemma LoggedTodayIsScheduledAhead(c: Company, date: Timestamp, kind: Id, now: Timestamp)
    requires c.communicationPeriodicity >= 1
    requires date <= now && SameDay(now, date)
    ensures !IsOverdue(Contacted(c, date, kind), now)
    ensures !IsDueToday(Contacted(c, date, kind), now)
  {
    DayOfAddDays(date, c.communicationPeriodicity);
    DayOfMonotone(now, AddDays(date, c.communicationPeriodicity));
  }

  /** getCompanyNextCommunications: five dates, starting at the cached next date (or the
      clock when there is none), each one period after the one before. */
  method NextCommunications(c: Company, now: Timestamp) returns (dates: seq<Timestamp>)
    ensures |dates| == 5
    ensures dates[0] == c.nextCommunication.GetOr(now)
    ensures forall k :: 0 < k < |dates| ==> dates[k] == AddDays(dates[k - 1], c.communicationPeriodicity)
  {
    dates := [];
    var nextDate := if c.nextCommunication.Some? then c.nextCommunication.value else now;
    for i := 0 to 5
      invariant |dates| == i
      invariant i == 0 ==> nextDate == c.nextCommunication.GetOr(now)
      invariant i > 0 ==> dates[0] == c.nextCommunication.GetOr(now)
      invariant i > 0 ==> nextDate == AddDays(dates[i - 1], c.communicationPeriodicity)
      invariant forall k :: 0 < k < i ==> dates[k] == AddDays(dates[k - 1], c.communicationPeriodicity)
    {
      dates := dates + [nextDate];
      nextDate := AddDays(nextDate, c.communicationPeriodicity);
    }
  }

  /** The k-th projected date lies exactly k periods after the first. */
  lemma {:induction false} ProjectionSpacing(dates: seq<Timestamp>, period: int, k: nat)
    requires forall j :: 0 < j < |dates| ==> dates[j] == AddDays(dates[j - 1], period)
    requires k < |dates|
    ensures dates[k] == AddDays(dates[0], k * period)
    ensures DayOf(dates[k]) == DayOf(dates[0]) + k * period
  {
    if k > 0 {
      ProjectionSpacing(dates, period, k - 1);
      assert (k - 1) * period + period == k * period;
    }
    DayOfAddDays(dates[0], k * period);
  }

  /** With a positive period the projected dates are strictly increasing. */
  lemma {:induction false} ProjectionIncreasing(dates: seq<Timestamp>, period: int, i: nat, j: nat)
    requires forall k :: 0 < k < |dates| ==> dates[k] == AddDays(dates[k - 1], period)
    requires period >= 1
    requires i < j < |dates|
    ensures dates[i] < dates[j]
  {
    if i < j - 1 {
      ProjectionIncreasing(dates, period, i, j - 1);
    }
  }

  // ---------------------------------------------------------------------------
  // isOverdue and isDueToday as written read the clock twice

  /** isOverdue as written: `refClock` is the `new Date()` that stands in for a missing
      next date, `cmpClock` the second `new Date()` that is compared against it. */
  function IsOverdueAsWritten(c: Company, refClock: Timestamp, cmpClock: Timestamp): (r: bool)
    ensures c.nextCommunication.Some? ==> (r <==> IsOverdue(c, cmpClock))
    ensures c.nextCommunication.None? ==> (r <==> cmpClock > refClock)
  {
    cmpClock > c.nextCommunication.GetOr(refClock)
  }

  /** isDueToday as written, with the same two clock readings. */
  function IsDueTodayAsWritten(c: Company, refClock: Timestamp, cmpClock: Timestamp): (r: bool)
    ensures c.nextCommunication.Some? ==> (r <==> IsDueToday(c, cmpClock))
    ensures c.nextCommunication.None? ==> (r <==> SameDay(cmpClock, refClock))
  {
    SameDay(cmpClock, c.nextCommunication.GetOr(refClock))
  }

  /** When the two readings coincide the code as written agrees with the single-clock model. */
  lemma AsWrittenAgreesOnOneReading(c: Company, now: Timestamp)
    ensures IsOverdueAsWritten(c, now, now) == IsOverdue(c, now)
    ensures IsDueTodayAsWritten(c, now, now) == IsDueToday(c, now)
  {
  }

  /** A company with no cache is reported overdue when the clock ticks between the two
      readings (refClock 0, cmpClock 1), though it has never been scheduled. */
  lemma UnscheduledOverdueAcrossTick(c: Company)
    requires c.nextCommunication.None?
    ensures IsOverdueAsWritten(c, 0, 1)
    ensures !IsOverdue(c, 1)
  {
  }

  /** A company with no cache is reported not due today when the two readings straddle
      midnight (DAY - 1 and DAY), though it is due today under either reading alone. */
  lemma UnscheduledNotDueAcrossMidnight(c: Company)
    requires c.nextCommunication.None?
    ensures !IsDueTodayAsWritten(c, DAY - 1, DAY)
    ensures IsDueToday(c, DAY - 1) && IsDueToday(c, DAY)
  {
  }

  /** With one clock reading, a company with no cache is never overdue and always due today. */
  lemma UnscheduledIsDueTodayNotOverdue(c: Company, now: Timestamp)
    requires c.nextCommunication.None?
    ensures !IsOverdue(c, now) && IsDueToday(c, now)
    ensures NextCommunication(c).None?
  {
  }
}
