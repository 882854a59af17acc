# Communication-tracking dashboard: the scheduling engine, admin CRUD and reports

This project models the core of a React dashboard for tracking communications with
client companies, and proves properties of that model in Dafny.

- **Scheduling engine.** This is the user hook, `useUserModule`. It keeps an append-only log of
  communication events and a per-company scheduling cache: the last contact date, the next due date
  and the next communication type. Logging or editing an event rewrites the owning company's cache
  to "last = this date, next = this date plus the company's periodicity in days". Queries derive the
  company's events newest first, the overdue and due-today flags, and a five-date projection from
  the cache.
- **Admin store.** This is the admin hook, `useAdminModule`. It keeps the company roster and the
  communication-method catalog. Each list is loaded from storage or seeded, then maintained by
  append with a fresh id, replace-by-id and filter-by-id.
- **Frequency report.** It tallies the logged communications per communication-method name. It
  also exports the tally as CSV rows.
- **Overdue trend.** For today and each of the six previous days, it counts the overdue companies
  whose next date is on or before that day. The chart shows the days oldest first.

Files:

- `wrappers.dfy` holds `Option` (null or undefined) and `Outcome` (a thrown error).
- `lists.dfy` holds the array operations the hooks use, as functions on sequences with their laws:
  `filter`, conditional `map`, `find` and `reverse`.
- `entities.dfy` holds the time model and the three record types.
- `user_module.dfy` holds the engine. It is a class `Engine`, with fields for the three collections
  and methods for the three mutators. The queries are functions.
- `admin_module.dfy` holds the admin store. It is a class `AdminStore`, with its six mutators.
- `frequency_report.dfy` holds the tally, as a method with the source's two loops, and the CSV rows.
- `overdue_trend.dfy` holds the seven-day counts and the chart.

Time model:

- A date is an integer number of milliseconds since the epoch.
- date-fns `addDays(t, n)` is `t + n * 86_400_000`.
- Two instants fall on the same calendar day when their floor division by one day agrees.
- The moment `'YYYY-MM-DD'` strings of the trend chart are these day numbers. For four-digit years,
  comparing the strings and comparing the day numbers give the same order.
- A date string that does not parse is `None` in `CommunicationInput.date`. `new Date(x).toISOString()`
  throws on such a string. On a valid date, normalising to an ISO string is the identity.
- The wall clock is the parameter `now`. The fresh uuid is the parameter `freshId`. The stored
  localStorage lists and the seed data are constructor parameters.

## Model

| member | source | states |
|---|---|---|
| `UserModule.Engine.constructor` | src/components/UserModule/useUserModule.js:9-29 | each collection is the stored list when storage has one, and empty otherwise |
| `UserModule.Engine.LogCommunication` | src/components/UserModule/useUserModule.js:42-68 | an invalid date fails with nothing changed; otherwise the event (fresh id, company, type, date, notes) is appended to the log, exactly the companies with that id get their cache rewritten from the event, the catalog is untouched, and coherent caches stay coherent |
| `UserModule.RecordContact` | src/components/UserModule/useUserModule.js:52-60 | only companies whose id matches change; each keeps every non-cache field and gets last = date, next = date + periodicity days, type = the communication type; length is preserved |
| `UserModule.Contacted` | src/components/UserModule/useUserModule.js:55-56 | the company keeps every non-cache field; last = the date, next = the date plus its periodicity in days, type = the communication type; the resulting cache is coherent |
| `UserModule.RecordContactCoherent` | src/components/UserModule/useUserModule.js:52-60 | every rewritten company has a next date exactly one period after its last date, and a roster of coherent caches stays coherent |
| `UserModule.Engine.UpdateCommunication` | src/components/UserModule/useUserModule.js:71-98 | with an unknown id nothing changes; with a known id and an invalid date it fails with nothing changed; otherwise the matching events take the new type, date and notes, and the cache of the company that owned the event before the edit is rewritten from the new date and type; coherence is preserved |
| `UserModule.ReviseEvents` | src/components/UserModule/useUserModule.js:74-81 | every event keeps its id and company; events with the id take the new type, date and notes; all other events are unchanged |
| `UserModule.Revised` | src/components/UserModule/useUserModule.js:77 | the edited event keeps its id and company and takes the new type, date and notes |
| `UserModule.ReviseEventsAbsent` | src/components/UserModule/useUserModule.js:74-81 | an edit aimed at an id absent from the log leaves the log unchanged |
| `Lists.FindByKey` | src/components/UserModule/useUserModule.js:84 | `None` exactly when no element carries the id; otherwise the first element that does |
| `UserModule.Engine.DeleteCommunication` | src/components/UserModule/useUserModule.js:100-112 | the log loses every event with the id and nothing else; companies, and so their caches, and the catalog are untouched |
| `Lists.RemoveByKey` | src/components/UserModule/useUserModule.js:104 | each element without the id keeps its multiplicity; elements with the id are gone |
| `UserModule.DeleteOnlyEventLeavesStaleCache` | src/components/UserModule/useUserModule.js:100-112 | deleting a company's only event leaves its cached next date behind, so the cache no longer matches the log |
| `UserModule.EventsOf` | src/components/UserModule/useUserModule.js:115 | exactly the company's events, each as often as in the log |
| `UserModule.EventsOfAppend` | src/components/UserModule/useUserModule.js:51 | appending an event extends its own company's events by it and leaves every other company's events unchanged |
| `UserModule.SortByDateDesc` | src/components/UserModule/useUserModule.js:115 | the result is a permutation of the input, ordered by date, most recent first |
| `UserModule.CompanyCommunication` | src/components/UserModule/useUserModule.js:114-116 | exactly the company's events, each with its multiplicity in the log, newest first |
| `UserModule.CompanyCommunicationHeadIsLatest` | src/components/UserModule/useUserModule.js:114-116 | the first listed event carries the latest date among the company's events |
| `UserModule.LatestDate` | src/components/UserModule/useUserModule.js:115 | `None` exactly for no events; otherwise a date some event has, and no event is later |
| `UserModule.LogLatestKeepsSync` | src/components/UserModule/useUserModule.js:42-60 | logging an event no older than the company's other events keeps its cache equal to the one its log implies |
| `UserModule.LogBackdatedBreaksSync` | src/components/UserModule/useUserModule.js:52-60 | logging a backdated event overwrites the cache unconditionally, so the cache no longer reflects the most recent event |
| `UserModule.LogKeepsOthersInSync` | src/components/UserModule/useUserModule.js:42-60 | logging for one company keeps every other company in sync with the log |
| `UserModule.NextCommunications` | src/components/UserModule/useUserModule.js:119-127 | five dates; the first is the cached next date, or the clock when there is none; each later date is one period after the previous one |
| `UserModule.ProjectionSpacing` | src/components/UserModule/useUserModule.js:119-127 | the k-th projected date is k periods after the first, and falls k periods of days later |
| `UserModule.ProjectionIncreasing` | src/components/UserModule/useUserModule.js:122-125 | with a period of at least one day the projected dates strictly increase |
| `UserModule.NextCommunication` | src/components/UserModule/useUserModule.js:130-132 | null exactly when the company has no cached next date, and that date otherwise |
| `UserModule.IsOverdue` | src/components/UserModule/useUserModule.js:134-137 | true exactly when a next date is cached and the clock is strictly past it |
| `UserModule.IsDueToday` | src/components/UserModule/useUserModule.js:139-142 | true exactly when no next date is cached, or the clock is on the same day as it |
| `UserModule.OverdueDueNoLaterThanToday` | src/components/UserModule/useUserModule.js:134-137 | an overdue company's next date falls on or before today |
| `UserModule.LoggedTodayIsScheduledAhead` | src/components/UserModule/useUserModule.js:52-60 | a contact logged earlier today, for a company with a period of at least one day, leaves it neither overdue nor due today |
| `UserModule.UnscheduledIsDueTodayNotOverdue` | src/components/UserModule/useUserModule.js:130-142 | with one clock reading, a company with no cached next date is due today, is not overdue, and has no next date |
| `UserModule.AsWrittenAgreesOnOneReading` | src/components/UserModule/useUserModule.js:134-142 | when its two clock readings coincide, the code as written agrees with `IsOverdue` and `IsDueToday` |
| `UserModule.UnscheduledOverdueAcrossTick` | src/components/UserModule/useUserModule.js:134-137 | as written, a company with no cache is reported overdue when the clock ticks between the two readings |
| `UserModule.UnscheduledNotDueAcrossMidnight` | src/components/UserModule/useUserModule.js:139-142 | as written, a company with no cache is reported not due today when the two readings straddle midnight |
| `UserModule.IsOverdueAsWritten` | src/components/UserModule/useUserModule.js:134-137 | with a cached next date it is `IsOverdue` at the comparison reading; without one it is true exactly when the comparison reading is later than the fallback reading |
| `UserModule.IsDueTodayAsWritten` | src/components/UserModule/useUserModule.js:139-142 | with a cached next date it is `IsDueToday` at the comparison reading; without one it is true exactly when the two readings fall on the same day |
| `Time.DayOfAddDays` | src/components/UserModule/useUserModule.js:124 | adding n days moves the calendar day by exactly n and keeps the time of day |
| `Time.DayOfMonotone` | src/components/UserModule/useUserModule.js:136 | a later instant never falls on an earlier day |
| `AdminModule.AdminStore.constructor` | src/components/AdminModule/useAdminModule.js:10-29 | each list is the stored one when storage has it, and the seed list otherwise |
| `AdminModule.AdminStore.AddCompany` | src/components/AdminModule/useAdminModule.js:42-45 | the roster gains the company under the fresh id at its end; the catalog is untouched |
| `AdminModule.AdminStore.UpdateCompany` | src/components/AdminModule/useAdminModule.js:48-54 | every company with the record's id becomes the record, the rest keep their places; an absent id changes nothing; the catalog is untouched |
| `AdminModule.AdminStore.DeleteCompany` | src/components/AdminModule/useAdminModule.js:58-60 | every company with the id is dropped, the rest keep their order; an absent id changes nothing; the catalog is untouched |
| `AdminModule.AdminStore.AddCommunicationMethod` | src/components/AdminModule/useAdminModule.js:63-66 | the catalog gains the method under the fresh id at its end; the roster is untouched |
| `AdminModule.AdminStore.UpdateCommunicationMethod` | src/components/AdminModule/useAdminModule.js:70-76 | every method with the record's id becomes the record; an absent id changes nothing; the roster is untouched |
| `AdminModule.AdminStore.DeleteCommunicationMethod` | src/components/AdminModule/useAdminModule.js:80-84 | every method with the id is dropped, the rest keep their order; an absent id changes nothing; the roster is untouched |
| `Lists.ReplaceByKey` | src/components/AdminModule/useAdminModule.js:49-52 | same length; each position holds the record when its key matches, and the old element otherwise |
| `Lists.ReplaceByKeyIdempotent` | src/components/AdminModule/useAdminModule.js:48-54 | applying the same update twice is applying it once, and the record is present afterwards exactly when its id was |
| `Lists.ReplaceByKeyAbsent` | src/components/AdminModule/useAdminModule.js:48-54 | updating with an id no element carries changes nothing |
| `Lists.RemoveByKeyAbsent` | src/components/AdminModule/useAdminModule.js:58-60 | deleting an id no element carries changes nothing |
| `Lists.RemoveByKeyIdempotent` | src/components/AdminModule/useAdminModule.js:58-60 | deleting twice is deleting once |
| `Lists.RemoveByKeyAppend` | src/components/AdminModule/useAdminModule.js:80-84 | deleting from a concatenation deletes from each part, so survivors keep their relative order |
| `Lists.Keep` | src/components/AdminModule/useAdminModule.js:59 | the survivors of a filter are exactly the elements of the input that satisfy it, and there are no more of them than of the input |
| `Lists.KeepMultiset` | src/components/AdminModule/useAdminModule.js:59 | each element satisfying the filter survives as often as it occurs; no other element survives |
| `Lists.KeepAppend` | src/components/AdminModule/useAdminModule.js:59 | filtering distributes over concatenation |
| `FrequencyReport.CommunicationCount` | src/components/ReportingModule/CommunicationFrequencyReport.jsx:20-29 | the keys are the distinct method names in first-appearance order; every name maps to the number of communications whose type resolves to a method of that name |
| `FrequencyReport.KeyStep` | src/components/ReportingModule/CommunicationFrequencyReport.jsx:21-23 | one turn of the first loop adds the next method name to the keys exactly when it is not a key yet, and always to the key set |
| `FrequencyReport.TallyStep` | src/components/ReportingModule/CommunicationFrequencyReport.jsx:24-28 | one pass of the second loop keeps every key equal to its frequency over one more communication |
| `FrequencyReport.MethodOf` | src/components/ReportingModule/CommunicationFrequencyReport.jsx:25 | `None` exactly when no method has the communication's type as its id; otherwise the first method that has it |
| `FrequencyReport.Frequency` | src/components/ReportingModule/CommunicationFrequencyReport.jsx:24-29 | a name is never counted more often than there are communications |
| `FrequencyReport.FrequencyStep` | src/components/ReportingModule/CommunicationFrequencyReport.jsx:25-28 | one more communication adds one to the name of the first method whose id is its type, and nothing to other names; an unknown type adds nothing |
| `FrequencyReport.FrequencyOfUnknownName` | src/components/ReportingModule/CommunicationFrequencyReport.jsx:21-29 | a name that no method carries is never counted |
| `FrequencyReport.DistinctNames` | src/components/ReportingModule/CommunicationFrequencyReport.jsx:21-23 | exactly the method names, each once, in the order their first carriers appear in the catalog |
| `FrequencyReport.CountsSumToKnown` | src/components/ReportingModule/CommunicationFrequencyReport.jsx:20-29 | the counts add up to the number of communications whose type is a known method id, even when names repeat |
| `FrequencyReport.CsvRows` | src/components/ReportingModule/CommunicationFrequencyReport.jsx:76-81 | one row per key, in key order, pairing the key with its count |
| `FrequencyReport.ColumnTotalIsSum` | src/components/ReportingModule/CommunicationFrequencyReport.jsx:76-81 | the frequency column adds up to the sum of the tallies of the keys |
| `FrequencyReport.CsvReportIsFaithful` | src/components/ReportingModule/CommunicationFrequencyReport.jsx:20-29 | for the computed tally, the CSV has a row for every method name and no other name, no name twice, each row holds its name's frequency, and the column total is the number of communications of a known type |
| `OverdueTrend.DaysAgo` | src/components/ReportingModule/OverdueCommunicationTrend.jsx:22 | i days before now is day number today minus i |
| `OverdueTrend.LastSevenDays` | src/components/ReportingModule/OverdueCommunicationTrend.jsx:22 | seven days: today, then each previous day in turn |
| `OverdueTrend.CountOnlyOverdue` | src/components/ReportingModule/OverdueCommunicationTrend.jsx:23-26 | a day's count covers only overdue companies, so it never exceeds their number |
| `OverdueTrend.CountMonotone` | src/components/ReportingModule/OverdueCommunicationTrend.jsx:23-26 | a later day counts at least as many companies as an earlier one |
| `OverdueTrend.TodayCountsAllOverdue` | src/components/ReportingModule/OverdueCommunicationTrend.jsx:22-26 | today's entry counts exactly the companies that are overdue now |
| `OverdueTrend.NextDueOnOrBefore` | src/components/ReportingModule/OverdueCommunicationTrend.jsx:25 | true exactly when a next date is cached and it falls on or before the day; with no next date ("Invalid date") it is false |
| `OverdueTrend.OverdueCount` | src/components/ReportingModule/OverdueCommunicationTrend.jsx:23-27 | seven counts; entry i is the number of overdue companies whose next date falls on or before the day i days ago |
| `OverdueTrend.TrendChart` | src/components/ReportingModule/OverdueCommunicationTrend.jsx:29-34 | seven labels and seven counts; position i is the day 6 - i days before today, beside that day's count |
| `OverdueTrend.TrendChartAligned` | src/components/ReportingModule/OverdueCommunicationTrend.jsx:22-34 | after both reversals, labels run over the seven days ending today, oldest first, and each count sits beside its own day; counts never decrease, none exceeds the overdue total, and the last equals it |
| `Lists.Reverse` | src/components/ReportingModule/OverdueCommunicationTrend.jsx:30-34 | same length; position i holds the element at the mirrored position |

## Left out

- Loading flags, `console.error`, and the chart and button rendering are React plumbing. They are
  not modelled.
- Storage is not modelled. The localStorage reads are constructor parameters. The effects that write
  the lists back to localStorage are left out, and so is a `JSON.parse` failure on corrupt storage.
- The contents of the seed data (`initialData.js`) are not part of this model. The seeds are
  constructor parameters.
- `uuidv4` is the parameter `freshId`. The model does not assume it is unique.
- Local time zones and daylight-saving time are not modelled. Days are fixed 24-hour UTC days.
- `UserModule.Engine.LogCommunication`: dates are unbounded integers. A JavaScript `Date` is valid only
  within ±8.64e15 ms of the epoch. When date plus periodicity leaves that range (a period of 10^8
  days or more), `addDays(...).toISOString()` throws inside the companies updater (useUserModule.js:55),
  after the new event was already queued (:51). The model instead returns `Pass` with
  `next = date + periodicity * DAY`.
- `UserModule.Engine.UpdateCommunication`: the same ±8.64e15 ms range is not modelled for the
  recomputed next date (useUserModule.js:86). The model returns `Pass` where the updater would throw.
- `UserModule.NextCommunications`: projected dates past ±8.64e15 ms are large integers in the
  model. The source returns Invalid Date objects for them (useUserModule.js:124).
- Every valid date is already in its normal form, so `toISOString` is the identity. `updateCommunication`
  stores the raw input date as `lastCommunication` (useUserModule.js:87), not the ISO string. That
  string-level difference is not captured.
- `UserModule.Engine.UpdateCommunication`: the invalid-date error is thrown inside React state
  updaters, at render time, outside the `try`. The model reports it as a failure that changes
  nothing, and does not capture how React would surface it.
- Operations are modelled as synchronous, in sequence. React's deferred updates are not modelled.
  `logCommunication` spreads the render-time `communications` rather than the latest list, so two
  logs in one render would lose one; the model has no stale closures. `updateCommunication` looks
  up the owner in the render-time list; the model uses the log as it was before the call.
- Each component that calls a hook gets its own copy of that hook's state. The model has one
  `Engine` and one `AdminStore`.
- Extra fields spread from `communicationData` into a logged event are not modelled. An event holds
  exactly id, company, type, date and notes.
- `UserModule.SortByDateDesc`: the JavaScript sort is stable. The contract states permutation and
  order, not stability.
- `FrequencyReport.CommunicationCount`: `Object.keys` lists integer-like keys first, in ascending
  order. The model lists names in insertion order.
- Building the CSV header from the first row (`csvData[0]`, CommunicationFrequencyReport.jsx:82)
  throws when the catalog is empty. That header, and the Blob download, are left out.
- `OverdueTrend.TrendChart` uses one clock reading `now`. The source reads the clock for every
  `moment()` call and twice in each `isOverdue` call.

## Findings

| source | as written | input that shows it | evidently intended | confidence | as-written member | corrected member |
|---|---|---|---|---|---|---|
| src/components/UserModule/useUserModule.js:134-137 | `isOverdue` reads the clock twice: once for the fallback of a missing next date, once for the comparison | a company with no `nextCommunication`; the clock reads 0 ms, then 1 ms; `isAfter(1, 0)` reports it overdue | a company with no scheduled date is never overdue (one clock reading) | not executed | `UserModule.UnscheduledOverdueAcrossTick` | `UserModule.IsOverdue` |
| src/components/UserModule/useUserModule.js:139-142 | `isDueToday` reads the clock twice in the same way | a company with no `nextCommunication`; the readings are 86 399 999 ms and 86 400 000 ms, on either side of midnight; `isSameDay` is false | a company with no scheduled date is always due today (one clock reading) | not executed | `UserModule.UnscheduledNotDueAcrossMidnight` | `UserModule.IsDueToday` |
