# Usage metering and invoice aggregation of the billing engine

A Dafny model of the local logic of `toolkit/billing_engine.py`:

- **Usage ledger** (`UsageTracker`, module `Usage`). The `usage_events`
  table is an immutable sequence of events. The event at index k has the
  AUTOINCREMENT id k + 1. `track_event` appends one event.
  `get_unbilled_usage` selects the customer's events, optionally from a start
  instant, and orders them by `created_at`. `calculate_total` sums their line
  totals. There is no billed flag and no mark-billed step: "unbilled" usage
  is every event of the customer in the window, and nothing ever changes a
  recorded event.
- **The window.** The model uses the corrected window: an inclusive,
  chronological lower bound. The source compares the start as text, and so
  drops every event dated on the start day. See Findings, and the
  `Usage.GetUnbilledUsage`, `Usage.CalculateTotal` and
  `Invoicing.GenerateInvoice` lines under Left out.
- **Invoice aggregation** (the local part of `BillingEngine.generate_invoice`,
  module `Invoicing`). An empty window gives the "No unbilled usage found"
  result. Otherwise the rows are grouped by service into the `line_items`
  dict. The dict's keys are in insertion order: the order in which the
  services first occur, which is also the order of the per-item processor
  calls. Each entry sums the service's quantities and line totals, and keeps
  the unit and unit price of the service's first row. Each entry's total is
  then converted to cents with `int(total * 100)`, which truncates toward
  zero.
- **Cost projection** (`CostProjector`, module `Projector`). Cost, revenue,
  profit and margin are computed, with the margin set to 0 when revenue is
  not positive. The verdict is "Viable" at a margin of at least 50% for API
  services and at least 60% for compute services.
- **Timestamps** (module `Clock`). An instant is the zero-padded date and
  time text that SQLite's CURRENT_TIMESTAMP stores. Its chronological order
  is the order of (date, time) pairs. The module also models how the code
  compares `created_at` with the start date; see Findings.

Amounts are exact `real`s instead of Python floats. The clock is a
parameter: `TrackEvent` takes the instant `now`, and `GenerateInvoice` takes
the period start that the code computes as `datetime.now() -
timedelta(days=billing_period_days)`.

Facts about the code that the model keeps:

- Quantity and unit price are never validated. A negative quantity is
  recorded as given.
- There is no billed flag. `generate_invoice` never marks events as billed.
  Calling it twice with no new usage bills the same events again.
- Mixed units within one service are not rejected. The first row's unit is
  kept.
- The window has a lower bound only. There is no upper bound.
- Rows with equal `created_at` come back in an order SQLite leaves open. The
  model sorts them in id order. No stated property depends on that choice,
  except `Invoicing.UnitDependsOnTieOrder`, which shows that the unit can.
- The projector has two fixed thresholds (50% and 60%) and two verdicts per
  service.

## Model

| member | source | states |
|---|---|---|
| `Usage.TrackEvent` | toolkit/billing_engine.py:60-76 | appends exactly one event with the given customer, service, quantity, unit, unit price and timestamp; every earlier event is unchanged; no quantity or price is rejected; the ledger's stamps stay well-formed exactly when the new one is |
| `Usage.TrackEventTotal` | toolkit/billing_engine.py:60-76 | after recording, a customer's total rises by quantity × unit price exactly when the new event is that customer's and falls in the window; otherwise it is unchanged |
| `Usage.TrackEventUsage` | toolkit/billing_engine.py:60-112 | after recording, every customer's usage keeps all its earlier rows and gains the new row, under the next id, exactly when the window selects it |
| `Usage.MatchingSound` | toolkit/billing_engine.py:84-97 | every row the WHERE clause yields is the record of an event of that customer at or after the start, under that event's id; ids increase |
| `Usage.MatchingComplete` | toolkit/billing_engine.py:84-97 | every event of the customer at or after the start (or at any time, without a start) is yielded |
| `Usage.SortByTime` | toolkit/billing_engine.py:89 | the result is ordered non-decreasingly by `created_at` and is a permutation of the input |
| `Usage.GetUnbilledUsage` | toolkit/billing_engine.py:78-112 | the result holds the record of event i exactly when event i is the customer's and not before the start; it is sorted by creation time; no event appears twice (ids are distinct); every row's line total is quantity × unit price |
| `Usage.UsageInStoredTextOrder` | toolkit/billing_engine.py:89 | on well-formed stamps, each row's stored `created_at` text is not below the text of any earlier row: the result is in the byte order ORDER BY uses |
| `Usage.CalculateTotal` | toolkit/billing_engine.py:114-118 | the total equals quantity × unit price summed over the ledger events the window selects, and is 0 when there are none |
| `Usage.MatchingTotal` | toolkit/billing_engine.py:99-109 | the line totals of the selected rows add up to the selected events' quantity × unit price |
| `Usage.LineTotalSumPermutation` | toolkit/billing_engine.py:118 | summed line totals and quantities do not depend on row order, so any order of equal timestamps gives the same total |
| `Invoicing.Aggregate` | toolkit/billing_engine.py:148-160 | one key per distinct service, each listed once, in the order the services first occur in the rows; each entry's quantity and total are the sums over that service's rows; unit and unit price come from the service's first row |
| `Invoicing.AddRowOrder` | toolkit/billing_engine.py:150-158 | a new service's key goes after every key already present, so the keys stay in first-appearance order |
| `Invoicing.AggregateConservesTotal` | toolkit/billing_engine.py:148-160 | the line items' totals add up to the rows' line totals: grouping neither loses nor invents money |
| `Invoicing.AggregateIgnoresTieOrder` | toolkit/billing_engine.py:148-160 | keys, quantities and totals of the line items are the same for any permutation of the rows |
| `Invoicing.UnitDependsOnTieOrder` | toolkit/billing_engine.py:152-158 | two rows of one service with equal timestamps and different units: the first one decides the unit; a later row never changes it |
| `Invoicing.GenerateInvoice` | toolkit/billing_engine.py:139-160 | the "no unbilled usage" result comes exactly when no event of the customer is at or after the period start; otherwise the keys are exactly the services of those events and the line items' totals add up to `calculate_total` for the same window |
| `Invoicing.UsageServices` | toolkit/billing_engine.py:143-146 | the fetched usage is empty exactly when no event is selected, and its services are those of the selected events |
| `Invoicing.TruncateToInt` | toolkit/billing_engine.py:187 | `int()` truncates toward zero: the result is within one below a non-negative argument and within one above a negative one |
| `Invoicing.CentsOverBound` | toolkit/billing_engine.py:183-188 | with non-negative totals, the cents requested never exceed 100 × the total, and fall short by less than one cent per line item |
| `Invoicing.GeneratedCentsBound` | toolkit/billing_engine.py:139-188 | when a customer's events have non-negative quantities and prices, the cents requested for the invoice are 100 × `calculate_total`, less under one cent per line item |
| `Projector.MarginPercent` | toolkit/billing_engine.py:308 | with positive revenue the margin times revenue is 100 × profit; otherwise the margin is 0 |
| `Projector.MarginThreshold` | toolkit/billing_engine.py:308-316 | a margin reaches a positive threshold exactly when revenue is positive and profit is at least the threshold's share of revenue |
| `Projector.Assess` | toolkit/billing_engine.py:307-316 | profit is revenue minus cost; the verdict is viable exactly when the margin reaches the threshold, and otherwise the service's fallback advice |
| `Projector.ProjectApiService` | toolkit/billing_engine.py:292-317 | cost is calls × cost per call; revenue is calls / 1000 × price per thousand; profit is revenue − cost; "Viable" exactly when the margin is at least 50, that is, when revenue is positive and cost is at most half of it; otherwise the thin-margins text |
| `Projector.ProjectComputeService` | toolkit/billing_engine.py:319-336 | cost is hours × hourly cost; revenue is hours × hourly rate; "Viable" exactly when the margin is at least 60, that is, when revenue is positive and cost is at most 40% of it; otherwise the increase-rate text |
| `Projector.ApiVerdictIgnoresVolume` | toolkit/billing_engine.py:305-316 | for a positive call volume the verdict is viable exactly when the price per thousand is positive and at least twice the cost of a thousand calls |
| `Projector.ComputeVerdictIgnoresVolume` | toolkit/billing_engine.py:324-335 | for a positive number of hours the verdict is viable exactly when the rate is positive and the hourly cost is at most 40% of it |
| `Projector.ApiDocumentedExample` | toolkit/billing_engine.py:298-303 | 50,000 calls at $0.002 priced at $5 per thousand give cost 100, revenue 250, profit 150, margin 60 and the text "Viable" |
| `Projector.ApiDemonstrationExample` | toolkit/billing_engine.py:350-354 | 100,000 calls at $0.002 priced at $10 per thousand give cost 200, revenue 1000, profit 800, margin 80 and the text "Viable" |
| `Clock.StoredTextOrderIsChronological` | toolkit/billing_engine.py:41 | for CURRENT_TIMESTAMP text, byte order is chronological order, so ORDER BY on the text sorts by time |
| `Clock.AtOrAfterTotalPreorder` | toolkit/billing_engine.py:89 | "at or after" is a total preorder on instants, which is what sorting by creation time needs |
| `Clock.AsWrittenInWindowIsLaterDay` | toolkit/billing_engine.py:84-90 | as written, an event passes the start-date test exactly when its date is a strictly later day than the start date |
| `Clock.AsWrittenDropsStartDay` | toolkit/billing_engine.py:84-90 | as written, no event dated on the start day passes the test, although one at or after the start time lies in the window |
| `Clock.AsWrittenDropsLaterSameDayEvent` | toolkit/billing_engine.py:84-90 | an event at 12:00 on the start day, with the window opening at 08:00 that day, is inside the window but is excluded |
| `Clock.CorrectedInWindowIsAtOrAfter` | toolkit/billing_engine.py:84-90 | with the start rendered like `created_at`, the text test is exactly the inclusive chronological lower bound |

## Findings

| source | as written | input that shows it | evidently intended | confidence | as-written member | corrected member |
|---|---|---|---|---|---|---|
| toolkit/billing_engine.py:84-90 | `created_at` holds CURRENT_TIMESTAMP text "YYYY-MM-DD HH:MM:SS". It is compared byte by byte with `start_date.isoformat()`, "YYYY-MM-DDTHH:MM:SS[.ffffff]". Since " " sorts before "T", every event on the start day fails `created_at >= ?`, whatever its time. | event at "2026-09-10 12:00:00", start "2026-09-10T08:00:00.123456" | the event is inside the window (inclusive lower bound on time) | medium: relies on SQLite comparing both values as text (the TIMESTAMP column has NUMERIC affinity and neither text reads as a number); not executed | `Clock.AsWrittenDropsStartDay` | `Clock.CorrectedInWindowIsAtOrAfter` |

`Clock.AsWrittenDropsLaterSameDayEvent` instantiates the as-written lemma
with the input in the table. The corrected test renders the start like
`created_at`. For well-formed stamps, `Clock.CorrectedInWindowIsAtOrAfter`
proves it equals `Clock.AtOrAfter`. The rest of the model uses
`Clock.AtOrAfter`: the window test `Usage.Selects` is built on it, and so
are everything downstream and the sort order.

## Left out

- Payment processor calls: customer lookup and creation, invoice and invoice
  item creation, finalize and send (toolkit/billing_engine.py:163-194), and
  the error result on a processor error (215-216). These are foreign network
  calls with opaque results. The returned `amount_cents` is the processor's
  `amount_due` and is not modelled. The model stops at the cents requested
  per line item.
- The per-item description text (toolkit/billing_engine.py:189). It is only
  passed to the processor.
- SQLite connection handling and the `invoices` table
  (toolkit/billing_engine.py:29-58, 196-205). This is persistence plumbing,
  and nothing reads that table back in the modelled logic.
- `datetime.now()` and `timedelta` (toolkit/billing_engine.py:139-140). The
  period start and the recording instant are parameters. CURRENT_TIMESTAMP
  is in UTC while `datetime.now()` is local time. The model assumes both
  stamps are in one time scale.
- The JSON `metadata` column (toolkit/billing_engine.py:74). It is never
  read back.
- `Usage.TrackEvent`: does not model the metadata argument. `json.dumps`
  runs before the INSERT (toolkit/billing_engine.py:73-74), so metadata that
  is not JSON-serialisable (a `datetime` value, say) raises `TypeError` and
  no event is recorded. The model has no such rejection path.
- Float arithmetic. Amounts are exact reals, so the model misses float
  effects. One example: `int(total * 100)` can lose a cent when the float
  product lands just below a whole number.
- `round(..., 2)` and `round(..., 1)` in the projector
  (toolkit/billing_engine.py:312-315, 331-334). This is presentation
  rounding. The verdict uses the unrounded margin, which is what the model
  states.
- `setup_recurring_billing` and `check_payment_status`
  (toolkit/billing_engine.py:218-286). These only delegate to the processor
  and update the `invoices` table. There is no local subscription state.
- toolkit/stripe_invoice.py. It is a thin processor wrapper plus a
  command-line entry point, with no local logic beyond a dollars-to-cents
  `int()`.
- `Usage.GetUnbilledUsage`: does not pin the order of rows with equal
  timestamps, because SQLite leaves that order unspecified. The model's sort
  keeps id order.
- `Usage.GetUnbilledUsage`: with a start date, models the corrected
  chronological window. The source compares the stored text with the ISO
  text of the start (toolkit/billing_engine.py:84-90) and drops every event
  dated on the start day; `Clock.AsWrittenDropsStartDay` states that
  behaviour.
- `Usage.CalculateTotal`: with a start date, sums over the corrected window.
  The source's total omits every event dated on the start day, for the same
  reason.
- `Invoicing.GenerateInvoice`: uses the corrected window from the period
  start. The source leaves out every event dated on the first day of the
  period, and refuses with "No unbilled usage found" when all the usage is
  on that day.
