/**
 * The usage ledger of `UsageTracker`: the `usage_events` table as an
 * in-memory sequence. The event at index k has the AUTOINCREMENT id k + 1.
 * There is no billed flag: "unbilled" usage is every event of the customer
 * in the window, and nothing ever removes or changes a recorded event.
 */
module Usage {
  import opened Clock

  /** One row of `usage_events` (the JSON metadata column is not modelled). */
  datatype Event = Event(
    customerId: string,
    service: string,
    quantity: real,
    unit: string,
    unitPrice: real,
    createdAt: Instant)

  /** One record `get_unbilled_usage` returns. */
  datatype UsageRow = UsageRow(
    id: nat,
    service: string,
    quantity: real,
    unit: string,
    unitPrice: real,
    createdAt: Instant,
    lineTotal: real)

  /** The optional `start_date` argument. */
  datatype StartBound = AnyTime | From(start: Instant)

  /** What one event is billed: quantity times unit price. */
  function Amount(e: Event): real {
    e.quantity * e.unitPrice
  }

  /** The record built from the event with the given id. */
  function RowOf(e: Event, id: nat): UsageRow {
    UsageRow(id, e.service, e.quantity, e.unit, e.unitPrice, e.createdAt, Amount(e))
  }

  /** The row's `line_total` is its quantity times its unit price. */
  predicate Priced(row: UsageRow) {
    row.lineTotal == row.quantity * row.unitPrice
  }

  /** The row is the record of the ledger event with its id. */
  predicate IsRecord(ledger: seq<Event>, row: UsageRow) {
    1 <= row.id <= |ledger| && row == RowOf(ledger[row.id - 1], row.id)
  }

  /** Every recorded stamp has the fixed CURRENT_TIMESTAMP width. */
  predicate StampsWellFormed(ledger: seq<Event>) {
    forall i :: 0 <= i < |ledger| ==> WellFormed(ledger[i].createdAt)
  }

  /** The WHERE clause: same customer and, with a start date, created at or
      after it (inclusive, no upper bound). */
  predicate Selects(e: Event, customerId: string, bound: StartBound) {
    e.customerId == customerId && (bound.AnyTime? || AtOrAfter(e.createdAt, bound.start))
  }

  // ---------------------------------------------------------------------
  // track_event

  /** Records one event stamped with the current instant `now`. No argument
      is validated: a negative quantity or price is recorded as given. */
  function TrackEvent(ledger: seq<Event>, customerId: string, service: string,
                      quantity: real, unit: string, unitPrice: real, now: Instant): (r: seq<Event>)
    ensures |r| == |ledger| + 1
    ensures r[..|ledger|] == ledger
    ensures r[|ledger|].customerId == customerId && r[|ledger|].service == service
    ensures r[|ledger|].quantity == quantity && r[|ledger|].unit == unit
    ensures r[|ledger|].unitPrice == unitPrice && r[|ledger|].createdAt == now
    ensures StampsWellFormed(r) <==> StampsWellFormed(ledger) && WellFormed(now)
  {
    ledger + [Event(customerId, service, quantity, unit, unitPrice, now)]
  }

  // ---------------------------------------------------------------------
  // get_unbilled_usage

  /** The rows the WHERE clause selects, in id order. */
  function Matching(ledger: seq<Event>, customerId: string, bound: StartBound): seq<UsageRow>
    decreases |ledger|
  {
    if |ledger| == 0 then []
    else
      var e := ledger[|ledger| - 1];
      Matching(ledger[..|ledger| - 1], customerId, bound)
        + (if Selects(e, customerId, bound) then [RowOf(e, |ledger|)] else [])
  }

  /** Every selected row is the record of a selected event, under that
      event's id, and ids increase along the sequence. */
  lemma {:induction false} MatchingSound(ledger: seq<Event>, customerId: string, bound: StartBound)
    ensures forall k :: 0 <= k < |Matching(ledger, customerId, bound)| ==>
              var row := Matching(ledger, customerId, bound)[k];
              1 <= row.id <= |ledger| && Selects(ledger[row.id - 1], customerId, bound)
              && row == RowOf(ledger[row.id - 1], row.id)
    ensures forall j, k :: 0 <= j < k < |Matching(ledger, customerId, bound)| ==>
              Matching(ledger, customerId, bound)[j].id < Matching(ledger, customerId, bound)[k].id
    decreases |ledger|
  {
    if |ledger| > 0 {
      var n := |ledger|;
      var earlier := Matching(ledger[..n - 1], customerId, bound);
      var tail := if Selects(ledger[n - 1], customerId, bound) then [RowOf(ledger[n - 1], n)] else [];
      var r := earlier + tail;
      assert r == Matching(ledger, customerId, bound);
      MatchingSound(ledger[..n - 1], customerId, bound);
      forall k | 0 <= k < |r|
        ensures 1 <= r[k].id <= n && Selects(ledger[r[k].id - 1], customerId, bound)
        ensures r[k] == RowOf(ledger[r[k].id - 1], r[k].id)
      {
        if k < |earlier| {
          assert r[k] == earlier[k];
          assert ledger[..n - 1][earlier[k].id - 1] == ledger[earlier[k].id - 1];
        } else {
          assert r[k] == RowOf(ledger[n - 1], n);
        }
      }
      forall j, k | 0 <= j < k < |r|
        ensures r[j].id < r[k].id
      {
        if k < |earlier| {
          assert r[k] == earlier[k] && r[j] == earlier[j];
        } else {
          assert r[k] == RowOf(ledger[n - 1], n) && r[j] == earlier[j];
        }
      }
    }
  }

  /** Every selected event appears, as its record under its id. */
  lemma {:induction false} MatchingComplete(ledger: seq<Event>, customerId: string, bound: StartBound)
    ensures forall i :: 0 <= i < |ledger| && Selects(ledger[i], customerId, bound) ==>
              RowOf(ledger[i], i + 1) in Matching(ledger, customerId, bound)
    decreases |ledger|
  {
    if |ledger| > 0 {
      var n := |ledger|;
      var earlier := Matching(ledger[..n - 1], customerId, bound);
      var tail := if Selects(ledger[n - 1], customerId, bound) then [RowOf(ledger[n - 1], n)] else [];
      assert Matching(ledger, customerId, bound) == earlier + tail;
      MatchingComplete(ledger[..n - 1], customerId, bound);
      assert forall i :: 0 <= i < n - 1 ==> ledger[..n - 1][i] == ledger[i];
    }
  }

  /** ORDER BY created_at: each row is at or after every row before it. */
  predicate SortedByTime(rows: seq<UsageRow>) {
    forall j, k :: 0 <= j < k < |rows| ==> AtOrAfter(rows[k].createdAt, rows[j].createdAt)
  }

  /** Inserts `row` into a time-sorted sequence, after every row that is not
      later than it. */
  function InsertByTime(sorted: seq<UsageRow>, row: UsageRow): (r: seq<UsageRow>)
    requires SortedByTime(sorted)
    ensures SortedByTime(r)
    ensures multiset(r) == multiset(sorted) + multiset{row}
    decreases |sorted|
  {
    if |sorted| == 0 then [row]
    else
      var last := sorted[|sorted| - 1];
      if AtOrAfter(row.createdAt, last.createdAt) then
        AppendAfterLast(sorted, row);
        sorted + [row]
      else
        var front := sorted[..|sorted| - 1];
        assert sorted == front + [last];
        var inserted := InsertByTime(front, row);
        AppendLast(sorted, row, inserted);
        inserted + [last]
  }

  /** Appending a row that is not earlier than the last one keeps the order. */
  lemma AppendAfterLast(sorted: seq<UsageRow>, row: UsageRow)
    requires SortedByTime(sorted) && |sorted| > 0
    requires AtOrAfter(row.createdAt, sorted[|sorted| - 1].createdAt)
    ensures SortedByTime(sorted + [row])
  {
    var last := sorted[|sorted| - 1];
    forall j | 0 <= j < |sorted|
      ensures AtOrAfter(row.createdAt, sorted[j].createdAt)
    {
      AtOrAfterTotalPreorder(row.createdAt, last.createdAt, sorted[j].createdAt);
    }
    AppendLater(sorted, row);
  }

  /** Appending a row that is at or after every row keeps the order. */
  lemma AppendLater(s: seq<UsageRow>, x: UsageRow)
    requires SortedByTime(s)
    requires forall j :: 0 <= j < |s| ==> AtOrAfter(x.createdAt, s[j].createdAt)
    ensures SortedByTime(s + [x])
  {
    var t := s + [x];
    forall j, k | 0 <= j < k < |t|
      ensures AtOrAfter(t[k].createdAt, t[j].createdAt)
    {
      if k < |s| {
        assert t[k] == s[k] && t[j] == s[j];
      } else {
        assert t[k] == x && t[j] == s[j];
      }
    }
  }

  /** When `row` goes before the last row, the last row still closes the
      sequence. */
  lemma AppendLast(sorted: seq<UsageRow>, row: UsageRow, inserted: seq<UsageRow>)
    requires SortedByTime(sorted) && |sorted| > 0
    requires !AtOrAfter(row.createdAt, sorted[|sorted| - 1].createdAt)
    requires SortedByTime(inserted)
    requires multiset(inserted) == multiset(sorted[..|sorted| - 1]) + multiset{row}
    ensures SortedByTime(inserted + [sorted[|sorted| - 1]])
  {
    var last := sorted[|sorted| - 1];
    var front := sorted[..|sorted| - 1];
    forall k | 0 <= k < |inserted|
      ensures AtOrAfter(last.createdAt, inserted[k].createdAt)
    {
      assert inserted[k] in multiset(inserted);
      if inserted[k] != row {
        assert inserted[k] in multiset(front);
        var j :| 0 <= j < |front| && front[j] == inserted[k];
        assert sorted[j] == front[j];
      } else {
        AtOrAfterTotalPreorder(row.createdAt, last.createdAt, last.createdAt);
      }
    }
    AppendLater(inserted, last);
  }

  /** Insertion sort by `created_at`. SQLite leaves the order of rows with
      equal timestamps open; this sort keeps id order among them, and no
      property below depends on that choice. */
  function SortByTime(rows: seq<UsageRow>): (r: seq<UsageRow>)
    ensures SortedByTime(r)
    ensures multiset(r) == multiset(rows)
    decreases |rows|
  {
    if |rows| == 0 then []
    else
      assert rows == rows[..|rows| - 1] + [rows[|rows| - 1]];
      InsertByTime(SortByTime(rows[..|rows| - 1]), rows[|rows| - 1])
  }

  /** The customer's events in the window, ordered by creation time. */
  function GetUnbilledUsage(ledger: seq<Event>, customerId: string, bound: StartBound): (r: seq<UsageRow>)
    ensures SortedByTime(r)
    ensures multiset(r) == multiset(Matching(ledger, customerId, bound))
    ensures forall i :: 0 <= i < |ledger| ==>
              (RowOf(ledger[i], i + 1) in r <==> Selects(ledger[i], customerId, bound))
    ensures forall row :: row in r ==>
              IsRecord(ledger, row) && Priced(row)
    ensures forall j, k :: 0 <= j < k < |r| ==> r[j].id != r[k].id
  {
    var matching := Matching(ledger, customerId, bound);
    MatchingMembers(ledger, customerId, bound);
    MatchingOnce(ledger, customerId, bound);
    var r := SortByTime(matching);
    SameElements(r, matching);
    DistinctIds(ledger, r, matching);
    r
  }

  /** No row is selected twice. */
  lemma {:induction false} MatchingOnce(ledger: seq<Event>, customerId: string, bound: StartBound)
    ensures forall x :: multiset(Matching(ledger, customerId, bound))[x] <= 1
    decreases |ledger|
  {
    if |ledger| > 0 {
      var n := |ledger|;
      var e := ledger[n - 1];
      var earlier := Matching(ledger[..n - 1], customerId, bound);
      var tail := if Selects(e, customerId, bound) then [RowOf(e, n)] else [];
      assert Matching(ledger, customerId, bound) == earlier + tail;
      MatchingOnce(ledger[..n - 1], customerId, bound);
      MatchingSound(ledger[..n - 1], customerId, bound);
      assert RowOf(e, n) !in earlier by {
        forall k | 0 <= k < |earlier|
          ensures earlier[k] != RowOf(e, n)
        {
          assert earlier[k].id <= n - 1;
        }
      }
    }
  }

  /** Records of the ledger in a sequence without repeated rows have
      distinct ids. */
  lemma DistinctIds(ledger: seq<Event>, r: seq<UsageRow>, m: seq<UsageRow>)
    requires multiset(r) == multiset(m)
    requires forall x :: multiset(m)[x] <= 1
    requires forall row :: row in r ==> IsRecord(ledger, row)
    ensures forall j, k :: 0 <= j < k < |r| ==> r[j].id != r[k].id
  {
    forall j, k | 0 <= j < k < |r|
      ensures r[j].id != r[k].id
    {
      if r[j].id == r[k].id {
        assert r[j] in r && r[k] in r;
        assert r[j] == r[k];
        CountedTwice(r, j, k);
        assert false;
      }
    }
  }

  /** A row at two positions is counted at least twice. */
  lemma CountedTwice(s: seq<UsageRow>, j: nat, k: nat)
    requires j < k < |s| && s[j] == s[k]
    ensures multiset(s)[s[j]] >= 2
  {
    assert s == s[..k] + [s[k]] + s[k + 1..];
    assert s[..k][j] == s[j];
    assert multiset(s[..k])[s[j]] >= 1;
  }

  /** On well-formed stamps the time order of the result is the byte order of
      the stored text, which is what ORDER BY created_at sorts by. */
  lemma UsageInStoredTextOrder(ledger: seq<Event>, customerId: string, bound: StartBound)
    requires StampsWellFormed(ledger)
    ensures forall j, k :: 0 <= j < k < |GetUnbilledUsage(ledger, customerId, bound)| ==>
              !TextLess(StoredText(GetUnbilledUsage(ledger, customerId, bound)[k].createdAt),
                        StoredText(GetUnbilledUsage(ledger, customerId, bound)[j].createdAt))
  {
    var r := GetUnbilledUsage(ledger, customerId, bound);
    forall j, k | 0 <= j < k < |r|
      ensures !TextLess(StoredText(r[k].createdAt), StoredText(r[j].createdAt))
    {
      assert r[j] in r && r[k] in r;
      assert WellFormed(ledger[r[j].id - 1].createdAt) && WellFormed(ledger[r[k].id - 1].createdAt);
      StoredTextOrderIsChronological(r[k].createdAt, r[j].createdAt);
    }
  }

  /** Membership in the selected rows, stated row by row. */
  lemma MatchingMembers(ledger: seq<Event>, customerId: string, bound: StartBound)
    ensures forall i :: 0 <= i < |ledger| ==>
              (RowOf(ledger[i], i + 1) in Matching(ledger, customerId, bound) <==> Selects(ledger[i], customerId, bound))
    ensures forall row :: row in Matching(ledger, customerId, bound) ==>
              IsRecord(ledger, row) && Priced(row)
  {
    MatchingRows(ledger, customerId, bound);
    MatchingComplete(ledger, customerId, bound);
    MatchingSelected(ledger, customerId, bound);
  }

  /** Every selected row is the record of a ledger event under its id. */
  lemma MatchingRows(ledger: seq<Event>, customerId: string, bound: StartBound)
    ensures forall row :: row in Matching(ledger, customerId, bound) ==>
              IsRecord(ledger, row) && Priced(row)
  {
    var matching := Matching(ledger, customerId, bound);
    MatchingSound(ledger, customerId, bound);
    forall row | row in matching
      ensures IsRecord(ledger, row) && Priced(row)
    {
      var k :| 0 <= k < |matching| && matching[k] == row;
    }
  }

  /** An event whose record is among the selected rows is selected. */
  lemma MatchingSelected(ledger: seq<Event>, customerId: string, bound: StartBound)
    ensures forall i :: 0 <= i < |ledger| && RowOf(ledger[i], i + 1) in Matching(ledger, customerId, bound) ==>
              Selects(ledger[i], customerId, bound)
  {
    var matching := Matching(ledger, customerId, bound);
    MatchingSound(ledger, customerId, bound);
    forall i | 0 <= i < |ledger| && RowOf(ledger[i], i + 1) in matching
      ensures Selects(ledger[i], customerId, bound)
    {
      var k :| 0 <= k < |matching| && matching[k] == RowOf(ledger[i], i + 1);
    }
  }

  /** Sequences that are permutations of each other have the same elements. */
  lemma SameElements(a: seq<UsageRow>, b: seq<UsageRow>)
    requires multiset(a) == multiset(b)
    ensures forall row :: row in a <==> row in b
  {
    forall row
      ensures row in a <==> row in b
    {
      assert row in a <==> row in multiset(a);
      assert row in b <==> row in multiset(b);
    }
  }

  // ---------------------------------------------------------------------
  // calculate_total

  /** Sum of `line_total` over the rows. */
  function LineTotalSum(rows: seq<UsageRow>): real
    decreases |rows|
  {
    if |rows| == 0 then 0.0 else LineTotalSum(rows[..|rows| - 1]) + rows[|rows| - 1].lineTotal
  }

  /** Sum of `quantity` over the rows. */
  function QuantitySum(rows: seq<UsageRow>): real
    decreases |rows|
  {
    if |rows| == 0 then 0.0 else QuantitySum(rows[..|rows| - 1]) + rows[|rows| - 1].quantity
  }

  /** Reference: quantity times unit price summed over the ledger's events
      that the window selects, in ledger order. */
  function WindowAmount(ledger: seq<Event>, customerId: string, bound: StartBound): real
    decreases |ledger|
  {
    if |ledger| == 0 then 0.0
    else
      var e := ledger[|ledger| - 1];
      WindowAmount(ledger[..|ledger| - 1], customerId, bound)
        + (if Selects(e, customerId, bound) then Amount(e) else 0.0)
  }

  /** The sum of `line_total` over `get_unbilled_usage`: the amount of every
      selected event, whatever order rows with equal timestamps come in. */
  function CalculateTotal(ledger: seq<Event>, customerId: string, bound: StartBound): (r: real)
    ensures r == WindowAmount(ledger, customerId, bound)
    ensures (forall i :: 0 <= i < |ledger| ==> !Selects(ledger[i], customerId, bound)) ==> r == 0.0
  {
    var rows := GetUnbilledUsage(ledger, customerId, bound);
    MatchingTotal(ledger, customerId, bound);
    LineTotalSumPermutation(rows, Matching(ledger, customerId, bound));
    NoneSelectedNoAmount(ledger, customerId, bound);
    LineTotalSum(rows)
  }

  // ---------------------------------------------------------------------
  // Lemmas

  lemma {:induction false} LineTotalSumAppend(a: seq<UsageRow>, b: seq<UsageRow>)
    ensures LineTotalSum(a + b) == LineTotalSum(a) + LineTotalSum(b)
    decreases |b|
  {
    if |b| == 0 {
      assert a + b == a;
    } else {
      assert (a + b)[..|a + b| - 1] == a + b[..|b| - 1];
      LineTotalSumAppend(a, b[..|b| - 1]);
    }
  }

  /** Dropping the row at index i removes exactly its contribution. */
  lemma {:induction false} RemoveAtSums(b: seq<UsageRow>, i: nat)
    requires i < |b|
    ensures LineTotalSum(b) == LineTotalSum(b[..i] + b[i + 1..]) + b[i].lineTotal
    ensures QuantitySum(b) == QuantitySum(b[..i] + b[i + 1..]) + b[i].quantity
    decreases |b|
  {
    var n := |b|;
    var rest := b[..i] + b[i + 1..];
    if i == n - 1 {
      assert rest == b[..n - 1];
    } else {
      var front := b[..n - 1];
      RemoveAtSums(front, i);
      var frontRest := front[..i] + front[i + 1..];
      assert rest == frontRest + [b[n - 1]];
      assert rest[..|rest| - 1] == frontRest;
    }
  }

  /** Dropping the row at index i removes one copy of it from the multiset. */
  lemma RemoveAtMultiset(b: seq<UsageRow>, i: nat)
    requires i < |b|
    ensures multiset(b[..i] + b[i + 1..]) == multiset(b) - multiset{b[i]}
  {
    assert b == b[..i] + [b[i]] + b[i + 1..];
    assert multiset(b) == multiset(b[..i]) + multiset{b[i]} + multiset(b[i + 1..]);
  }

  /** The sums do not depend on the order of the rows: any order SQLite
      picks for equal timestamps gives the same totals. */
  lemma {:induction false} LineTotalSumPermutation(a: seq<UsageRow>, b: seq<UsageRow>)
    requires multiset(a) == multiset(b)
    ensures LineTotalSum(a) == LineTotalSum(b)
    ensures QuantitySum(a) == QuantitySum(b)
    decreases |a|
  {
    if |a| == 0 {
      assert |b| == |multiset(b)| == 0;
    } else {
      var x := a[|a| - 1];
      var front := a[..|a| - 1];
      assert x in multiset(b) by {
        assert a == front + [x];
      }
      var i :| 0 <= i < |b| && b[i] == x;
      RemoveAtMultiset(a, |a| - 1);
      RemoveAtMultiset(b, i);
      assert a[..|a| - 1] + a[|a|..] == front;
      LineTotalSumPermutation(front, b[..i] + b[i + 1..]);
      RemoveAtSums(b, i);
    }
  }

  /** The selected rows in id order carry the reference amount. */
  lemma {:induction false} MatchingTotal(ledger: seq<Event>, customerId: string, bound: StartBound)
    ensures LineTotalSum(Matching(ledger, customerId, bound)) == WindowAmount(ledger, customerId, bound)
    decreases |ledger|
  {
    if |ledger| > 0 {
      var n := |ledger|;
      var e := ledger[n - 1];
      var earlier := Matching(ledger[..n - 1], customerId, bound);
      var tail := if Selects(e, customerId, bound) then [RowOf(e, n)] else [];
      assert Matching(ledger, customerId, bound) == earlier + tail;
      MatchingTotal(ledger[..n - 1], customerId, bound);
      LineTotalSumAppend(earlier, tail);
      SelectedRowSum(tail, e, n, Selects(e, customerId, bound));
    }
  }

  /** The zero-or-one-row tail an event contributes sums to its amount. */
  lemma SelectedRowSum(tail: seq<UsageRow>, e: Event, id: nat, selected: bool)
    requires tail == if selected then [RowOf(e, id)] else []
    ensures LineTotalSum(tail) == (if selected then Amount(e) else 0.0)
  {
    if selected {
      assert tail[..0] == [];
    }
  }

  lemma {:induction false} NoneSelectedNoAmount(ledger: seq<Event>, customerId: string, bound: StartBound)
    ensures (forall i :: 0 <= i < |ledger| ==> !Selects(ledger[i], customerId, bound))
            ==> WindowAmount(ledger, customerId, bound) == 0.0
    decreases |ledger|
  {
    if |ledger| > 0 {
      NoneSelectedNoAmount(ledger[..|ledger| - 1], customerId, bound);
    }
  }

  /** Tracking an event adds its amount to the customer's total exactly when
      it falls in the window, and leaves every other total as it was. */
  lemma TrackEventTotal(ledger: seq<Event>, customerId: string, service: string,
                        quantity: real, unit: string, unitPrice: real, now: Instant,
                        who: string, bound: StartBound)
    ensures CalculateTotal(TrackEvent(ledger, customerId, service, quantity, unit, unitPrice, now), who, bound)
            == CalculateTotal(ledger, who, bound)
               + (if who == customerId && (bound.AnyTime? || AtOrAfter(now, bound.start))
                  then quantity * unitPrice else 0.0)
  {
    var e := Event(customerId, service, quantity, unit, unitPrice, now);
    TrackedEvent(ledger, customerId, service, quantity, unit, unitPrice, now, who, bound);
    WindowAmountSnoc(ledger, e, who, bound);
  }

  /** The event `track_event` appends, and when the window selects it. */
  lemma TrackedEvent(ledger: seq<Event>, customerId: string, service: string,
                     quantity: real, unit: string, unitPrice: real, now: Instant,
                     who: string, bound: StartBound)
    ensures TrackEvent(ledger, customerId, service, quantity, unit, unitPrice, now)
            == ledger + [Event(customerId, service, quantity, unit, unitPrice, now)]
    ensures Selects(Event(customerId, service, quantity, unit, unitPrice, now), who, bound)
            <==> who == customerId && (bound.AnyTime? || AtOrAfter(now, bound.start))
    ensures Amount(Event(customerId, service, quantity, unit, unitPrice, now)) == quantity * unitPrice
  {
  }

  lemma WindowAmountSnoc(ledger: seq<Event>, e: Event, who: string, bound: StartBound)
    ensures WindowAmount(ledger + [e], who, bound)
            == WindowAmount(ledger, who, bound) + (if Selects(e, who, bound) then Amount(e) else 0.0)
  {
    assert (ledger + [e])[..|ledger|] == ledger;
  }

  lemma MatchingSnoc(ledger: seq<Event>, e: Event, who: string, bound: StartBound)
    ensures multiset(Matching(ledger + [e], who, bound))
            == multiset(Matching(ledger, who, bound))
               + (if Selects(e, who, bound) then multiset{RowOf(e, |ledger| + 1)} else multiset{})
  {
    assert (ledger + [e])[..|ledger|] == ledger;
    var tail := if Selects(e, who, bound) then [RowOf(e, |ledger| + 1)] else [];
    assert Matching(ledger + [e], who, bound) == Matching(ledger, who, bound) + tail;
  }

  /** Tracking an event keeps every earlier row of every customer's usage
      and adds the new row, with the next id, exactly when it is selected. */
  lemma TrackEventUsage(ledger: seq<Event>, customerId: string, service: string,
                        quantity: real, unit: string, unitPrice: real, now: Instant,
                        who: string, bound: StartBound)
    ensures multiset(GetUnbilledUsage(TrackEvent(ledger, customerId, service, quantity, unit, unitPrice, now), who, bound))
            == multiset(GetUnbilledUsage(ledger, who, bound))
               + (if who == customerId && (bound.AnyTime? || AtOrAfter(now, bound.start))
                  then multiset{UsageRow(|ledger| + 1, service, quantity, unit, unitPrice, now, quantity * unitPrice)}
                  else multiset{})
  {
    var e := Event(customerId, service, quantity, unit, unitPrice, now);
    TrackedEvent(ledger, customerId, service, quantity, unit, unitPrice, now, who, bound);
    MatchingSnoc(ledger, e, who, bound);
  }
}
