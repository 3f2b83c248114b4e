/**
 * The local part of `BillingEngine.generate_invoice`: fetch the customer's
 * usage since the period start, refuse when there is none, group the rows by
 * service, and convert each group's total to whole cents for the payment
 * processor. The processor calls themselves are not part of this model.
 */
module Invoicing {
  import opened Clock
  import opened Usage

  /** One entry of the `line_items` dict. */
  datatype LineItem = LineItem(quantity: real, unit: string, unitPrice: real, total: real)

  /** The `line_items` dict: its keys in insertion order, and its entries. */
  datatype LineItems = LineItems(order: seq<string>, items: map<string, LineItem>)

  /** The result of `generate_invoice` up to the processor calls. */
  datatype InvoiceDraft = NoUnbilledUsage | Draft(lineItems: LineItems)

  /** The order lists each key of the dict exactly once. */
  predicate WellKeyed(li: LineItems) {
    && (forall k :: 0 <= k < |li.order| ==> li.order[k] in li.items)
    && (forall s :: s in li.items ==> s in li.order)
    && (forall j, k :: 0 <= j < k < |li.order| ==> li.order[j] != li.order[k])
  }

  /** The services that occur in the rows. */
  function ServicesOf(rows: seq<UsageRow>): set<string> {
    set k | 0 <= k < |rows| :: rows[k].service
  }

  /** The rows of one service, in their order. */
  function OfService(rows: seq<UsageRow>, service: string): seq<UsageRow>
    decreases |rows|
  {
    if |rows| == 0 then []
    else
      var row := rows[|rows| - 1];
      OfService(rows[..|rows| - 1], service) + (if row.service == service then [row] else [])
  }

  /** Row i is the first row of the service. */
  predicate IsFirstOfService(rows: seq<UsageRow>, service: string, i: int) {
    0 <= i < |rows| && rows[i].service == service
    && forall j :: 0 <= j < i ==> rows[j].service != service
  }

  /** The keys are listed in the order their services first occur in the
      rows: the dict's insertion order. */
  predicate FirstAppearanceOrder(rows: seq<UsageRow>, order: seq<string>) {
    forall j, k, i, i' ::
      (0 <= j < k < |order| && 0 <= i < |rows| && 0 <= i' < |rows|
       && IsFirstOfService(rows, order[j], i) && IsFirstOfService(rows, order[k], i'))
      ==> i < i'
  }

  // ---------------------------------------------------------------------
  // Aggregation

  /** One iteration of the aggregation loop: a service seen for the first
      time gets an entry with zero sums and this row's unit and unit price;
      then the row's quantity and line total are added to its entry. */
  function AddRow(li: LineItems, row: UsageRow): LineItems {
    var s := row.service;
    var started := if s in li.items then li
                  else LineItems(li.order + [s], li.items[s := LineItem(0.0, row.unit, row.unitPrice, 0.0)]);
    var item := started.items[s];
    LineItems(started.order,
              started.items[s := item.(quantity := item.quantity + row.quantity,
                                      total := item.total + row.lineTotal)])
  }

  /** The `line_items` dict built from the rows, in the rows' order: one key
      per service, each entry summing that service's quantities and line
      totals and keeping the unit and unit price of the service's first row.
      Later rows never change the unit, even when theirs differs. */
  function Aggregate(rows: seq<UsageRow>): (r: LineItems)
    ensures WellKeyed(r)
    ensures r.items.Keys == ServicesOf(rows)
    ensures forall s :: s in r.items ==>
              r.items[s].quantity == QuantitySum(OfService(rows, s))
              && r.items[s].total == LineTotalSum(OfService(rows, s))
    ensures forall s :: s in r.items ==>
              exists i :: IsFirstOfService(rows, s, i)
                          && r.items[s].unit == rows[i].unit && r.items[s].unitPrice == rows[i].unitPrice
    ensures FirstAppearanceOrder(rows, r.order)
    decreases |rows|
  {
    if |rows| == 0 then LineItems([], map[])
    else
      var li := Aggregate(rows[..|rows| - 1]);
      AddRowKeys(rows, li);
      AddRowOrder(rows, li);
      var r := AddRow(li, rows[|rows| - 1]);
      forall s | s in r.items
        ensures r.items[s].quantity == QuantitySum(OfService(rows, s))
        ensures r.items[s].total == LineTotalSum(OfService(rows, s))
      {
        AddRowSums(rows, li, s);
      }
      AddRowFirst(rows, li, r);
      r
  }

  /** A loop iteration keeps one key per service seen so far. */
  lemma AddRowKeys(rows: seq<UsageRow>, li: LineItems)
    requires |rows| > 0
    requires WellKeyed(li)
    requires li.items.Keys == ServicesOf(rows[..|rows| - 1])
    ensures WellKeyed(AddRow(li, rows[|rows| - 1]))
    ensures AddRow(li, rows[|rows| - 1]).items.Keys == ServicesOf(rows)
  {
    var front := rows[..|rows| - 1];
    var row := rows[|rows| - 1];
    assert rows == front + [row];
    ServicesSnoc(front, row);
    var r := AddRow(li, row);
    if row.service !in li.items {
      assert row.service !in li.order;
      assert r.order == li.order + [row.service];
      assert forall k :: 0 <= k < |li.order| ==> r.order[k] == li.order[k];
    }
  }

  /** A loop iteration keeps each entry's sums equal to its service's rows'
      sums. */
  lemma AddRowSums(rows: seq<UsageRow>, li: LineItems, s: string)
    requires |rows| > 0
    requires s in li.items <==> s in ServicesOf(rows[..|rows| - 1])
    requires s in li.items ==>
               li.items[s].quantity == QuantitySum(OfService(rows[..|rows| - 1], s))
               && li.items[s].total == LineTotalSum(OfService(rows[..|rows| - 1], s))
    ensures var r := AddRow(li, rows[|rows| - 1]);
            s in r.items ==>
              r.items[s].quantity == QuantitySum(OfService(rows, s))
              && r.items[s].total == LineTotalSum(OfService(rows, s))
  {
    var front := rows[..|rows| - 1];
    var row := rows[|rows| - 1];
    assert rows == front + [row];
    var r := AddRow(li, row);
    OfServiceSnoc(front, row, s);
    if s == row.service {
      var before := if s in li.items then li.items[s] else LineItem(0.0, row.unit, row.unitPrice, 0.0);
      assert r.items[s].quantity == before.quantity + row.quantity;
      assert r.items[s].total == before.total + row.lineTotal;
      if s !in li.items {
        OfServiceAbsent(front, s);
      }
      SumsSnoc(OfService(front, s), row);
      assert OfService(rows, s) == OfService(front, s) + [row];
      assert QuantitySum(OfService(rows, s)) == before.quantity + row.quantity;
      assert LineTotalSum(OfService(rows, s)) == before.total + row.lineTotal;
    } else if s in r.items {
      assert r.items[s] == li.items[s];
      assert OfService(rows, s) == OfService(front, s);
    }
  }

  /** A loop iteration keeps each entry's unit and unit price those of its
      service's first row. */
  lemma AddRowFirst(rows: seq<UsageRow>, li: LineItems, r: LineItems)
    requires |rows| > 0 && r == AddRow(li, rows[|rows| - 1])
    requires li.items.Keys == ServicesOf(rows[..|rows| - 1])
    requires forall s :: s in li.items ==>
               exists i :: IsFirstOfService(rows[..|rows| - 1], s, i)
                           && li.items[s].unit == rows[i].unit && li.items[s].unitPrice == rows[i].unitPrice
    ensures forall s :: s in r.items ==>
              exists i :: IsFirstOfService(rows, s, i)
                          && r.items[s].unit == rows[i].unit && r.items[s].unitPrice == rows[i].unitPrice
  {
    var front := rows[..|rows| - 1];
    var row := rows[|rows| - 1];
    forall s | s in r.items
      ensures exists i :: IsFirstOfService(rows, s, i)
                          && r.items[s].unit == rows[i].unit && r.items[s].unitPrice == rows[i].unitPrice
    {
      if s in li.items {
        var i :| IsFirstOfService(front, s, i)
                 && li.items[s].unit == rows[i].unit && li.items[s].unitPrice == rows[i].unitPrice;
        assert IsFirstOfService(rows, s, i);
      } else {
        assert s == row.service;
        assert IsFirstOfService(rows, s, |front|) by {
          forall j | 0 <= j < |front|
            ensures rows[j].service != s
          {
            assert front[j].service in ServicesOf(front);
          }
        }
      }
    }
  }

  /** A loop iteration appends a new service after every service seen
      before, keeping the keys in first-appearance order. */
  lemma AddRowOrder(rows: seq<UsageRow>, li: LineItems)
    requires |rows| > 0
    requires WellKeyed(li)
    requires li.items.Keys == ServicesOf(rows[..|rows| - 1])
    requires FirstAppearanceOrder(rows[..|rows| - 1], li.order)
    ensures FirstAppearanceOrder(rows, AddRow(li, rows[|rows| - 1]).order)
  {
    var front := rows[..|rows| - 1];
    var row := rows[|rows| - 1];
    var r := AddRow(li, row);
    assert r.order == if row.service in li.items then li.order else li.order + [row.service];
    forall j, k, i, i' | 0 <= j < k < |r.order|
        && IsFirstOfService(rows, r.order[j], i) && IsFirstOfService(rows, r.order[k], i')
      ensures i < i'
    {
      assert r.order[j] == li.order[j] && li.order[j] in ServicesOf(front);
      FirstInPrefix(rows, r.order[j], i);
      FirstInPrefix(rows, r.order[k], i');
      if k < |li.order| {
        assert r.order[k] == li.order[k] && li.order[k] in ServicesOf(front);
      } else {
        assert r.order[k] == row.service && row.service !in ServicesOf(front);
      }
    }
  }

  /** The first row of a service lies in the prefix exactly when the service
      occurs there; otherwise it is the last row. */
  lemma FirstInPrefix(rows: seq<UsageRow>, s: string, i: int)
    requires |rows| > 0 && IsFirstOfService(rows, s, i)
    ensures s in ServicesOf(rows[..|rows| - 1]) ==>
              i < |rows| - 1 && IsFirstOfService(rows[..|rows| - 1], s, i)
    ensures s !in ServicesOf(rows[..|rows| - 1]) ==> i == |rows| - 1
  {
    var front := rows[..|rows| - 1];
    if s in ServicesOf(front) {
      var k :| 0 <= k < |front| && front[k].service == s;
      assert rows[k].service == s;
    }
  }

  lemma ServicesSnoc(front: seq<UsageRow>, row: UsageRow)
    ensures ServicesOf(front + [row]) == ServicesOf(front) + {row.service}
  {
    var rows := front + [row];
    forall s | s in ServicesOf(rows)
      ensures s in ServicesOf(front) + {row.service}
    {
      var k :| 0 <= k < |rows| && rows[k].service == s;
      if k < |front| {
        assert front[k] == rows[k];
      }
    }
    forall s | s in ServicesOf(front) + {row.service}
      ensures s in ServicesOf(rows)
    {
      if s in ServicesOf(front) {
        var k :| 0 <= k < |front| && front[k].service == s;
        assert rows[k] == front[k];
      } else {
        assert rows[|front|] == row;
      }
    }
  }

  lemma OfServiceSnoc(front: seq<UsageRow>, row: UsageRow, service: string)
    ensures OfService(front + [row], service)
            == OfService(front, service) + (if row.service == service then [row] else [])
  {
    assert (front + [row])[..|front|] == front;
  }

  /** A service that does not occur has no rows. */
  lemma {:induction false} OfServiceAbsent(rows: seq<UsageRow>, service: string)
    requires service !in ServicesOf(rows)
    ensures OfService(rows, service) == []
    decreases |rows|
  {
    if |rows| > 0 {
      var front := rows[..|rows| - 1];
      assert rows[|rows| - 1].service in ServicesOf(rows);
      assert ServicesOf(front) <= ServicesOf(rows) by {
        forall s | s in ServicesOf(front)
          ensures s in ServicesOf(rows)
        {
          var k :| 0 <= k < |front| && front[k].service == s;
          assert rows[k] == front[k];
        }
      }
      OfServiceAbsent(front, service);
    }
  }

  lemma SumsSnoc(rows: seq<UsageRow>, row: UsageRow)
    ensures QuantitySum(rows + [row]) == QuantitySum(rows) + row.quantity
    ensures LineTotalSum(rows + [row]) == LineTotalSum(rows) + row.lineTotal
  {
    assert (rows + [row])[..|rows|] == rows;
  }

  // ---------------------------------------------------------------------
  // Sums over the dict

  /** Sum of the entries' totals, over the keys in `order`. */
  function TotalOver(order: seq<string>, items: map<string, LineItem>): real
    requires forall k :: 0 <= k < |order| ==> order[k] in items
    decreases |order|
  {
    if |order| == 0 then 0.0
    else TotalOver(order[..|order| - 1], items) + items[order[|order| - 1]].total
  }

  /** The sum of `total` over all line items. */
  function InvoiceTotal(li: LineItems): real
    requires WellKeyed(li)
  {
    TotalOver(li.order, li.items)
  }

  /** Entries that agree on their totals give the same sum. */
  lemma {:induction false} TotalOverFrame(order: seq<string>, m1: map<string, LineItem>, m2: map<string, LineItem>)
    requires forall k :: 0 <= k < |order| ==> order[k] in m1 && order[k] in m2
    requires forall k :: 0 <= k < |order| ==> m1[order[k]].total == m2[order[k]].total
    ensures TotalOver(order, m1) == TotalOver(order, m2)
    decreases |order|
  {
    if |order| > 0 {
      TotalOverFrame(order[..|order| - 1], m1, m2);
    }
  }

  /** Changing the entry of a key listed once changes the sum by the
      difference of its totals. */
  lemma {:induction false} TotalOverUpdate(order: seq<string>, m: map<string, LineItem>, s: string, v: LineItem)
    requires forall k :: 0 <= k < |order| ==> order[k] in m
    requires forall j, k :: 0 <= j < k < |order| ==> order[j] != order[k]
    requires s in m
    ensures TotalOver(order, m[s := v])
            == TotalOver(order, m) + (if s in order then v.total - m[s].total else 0.0)
    decreases |order|
  {
    if |order| > 0 {
      var front := order[..|order| - 1];
      var last := order[|order| - 1];
      TotalOverUpdate(front, m, s, v);
      if last == s {
        assert s !in front by {
          forall k | 0 <= k < |front|
            ensures front[k] != s
          {
            assert front[k] == order[k];
          }
        }
      }
      assert s in order <==> s in front || s == last by {
        assert order == front + [last];
      }
    }
  }

  /** One loop iteration raises the sum of totals by the row's line total. */
  lemma AddRowTotal(li: LineItems, row: UsageRow)
    requires WellKeyed(li)
    ensures WellKeyed(AddRow(li, row))
    ensures InvoiceTotal(AddRow(li, row)) == InvoiceTotal(li) + row.lineTotal
  {
    if row.service in li.items {
      AddRowTotalSeen(li, row);
    } else {
      AddRowTotalNew(li, row);
    }
  }

  /** A row of a service already listed changes only that entry's total. */
  lemma AddRowTotalSeen(li: LineItems, row: UsageRow)
    requires WellKeyed(li) && row.service in li.items
    ensures WellKeyed(AddRow(li, row))
    ensures InvoiceTotal(AddRow(li, row)) == InvoiceTotal(li) + row.lineTotal
  {
    var s := row.service;
    var r := AddRow(li, row);
    assert r.order == li.order;
    assert r.items == li.items[s := r.items[s]];
    TotalOverUpdate(li.order, li.items, s, r.items[s]);
  }

  /** A row of a new service appends its key with the row's line total. */
  lemma AddRowTotalNew(li: LineItems, row: UsageRow)
    requires WellKeyed(li) && row.service !in li.items
    ensures WellKeyed(AddRow(li, row))
    ensures InvoiceTotal(AddRow(li, row)) == InvoiceTotal(li) + row.lineTotal
  {
    var s := row.service;
    var r := AddRow(li, row);
    AddRowNewKeys(li, row);
    assert r.items[s].total == row.lineTotal;
    forall k | 0 <= k < |li.order|
      ensures li.order[k] in r.items && r.items[li.order[k]].total == li.items[li.order[k]].total
    {
      assert li.order[k] != s;
    }
    TotalOverFrame(li.order, li.items, r.items);
    assert r.order[..|r.order| - 1] == li.order;
  }

  /** A row of a new service appends its key, listed once. */
  lemma AddRowNewKeys(li: LineItems, row: UsageRow)
    requires WellKeyed(li) && row.service !in li.items
    ensures AddRow(li, row).order == li.order + [row.service]
    ensures WellKeyed(AddRow(li, row))
  {
    var s := row.service;
    var r := AddRow(li, row);
    assert s !in li.order;
    assert forall k :: 0 <= k < |li.order| ==> r.order[k] == li.order[k];
  }

  /** Conservation: grouping by service neither loses nor invents money; the
      line items' totals add up to the rows' line totals. */
  lemma {:induction false} AggregateConservesTotal(rows: seq<UsageRow>)
    ensures InvoiceTotal(Aggregate(rows)) == LineTotalSum(rows)
    decreases |rows|
  {
    if |rows| > 0 {
      var front := rows[..|rows| - 1];
      var row := rows[|rows| - 1];
      var li := Aggregate(front);
      assert Aggregate(rows) == AddRow(li, row);
      assert LineTotalSum(rows) == LineTotalSum(front) + row.lineTotal;
      AggregateConservesTotal(front);
      AddRowTotal(li, row);
    }
  }

  // ---------------------------------------------------------------------
  // Order of rows with equal timestamps

  /** The rows of one service, counted in a multiset: the service's share
      of the rows' multiset. */
  lemma {:induction false} OfServiceMultiset(rows: seq<UsageRow>, service: string)
    ensures forall x :: multiset(OfService(rows, service))[x]
                        == (if x.service == service then multiset(rows)[x] else 0)
    decreases |rows|
  {
    if |rows| > 0 {
      var front := rows[..|rows| - 1];
      var row := rows[|rows| - 1];
      OfServiceMultiset(front, service);
      assert rows == front + [row];
      assert multiset(rows) == multiset(front) + multiset{row};
    }
  }

  /** Keys, quantities and totals of the line items do not depend on how
      rows with equal timestamps are ordered; only the unit and unit price
      (taken from a service's first row) can. */
  lemma AggregateIgnoresTieOrder(a: seq<UsageRow>, b: seq<UsageRow>)
    requires multiset(a) == multiset(b)
    ensures Aggregate(a).items.Keys == Aggregate(b).items.Keys
    ensures forall s :: s in Aggregate(a).items ==>
              Aggregate(a).items[s].quantity == Aggregate(b).items[s].quantity
              && Aggregate(a).items[s].total == Aggregate(b).items[s].total
  {
    ServicesPermutation(a, b);
    forall s | s in Aggregate(a).items
      ensures Aggregate(a).items[s].quantity == Aggregate(b).items[s].quantity
      ensures Aggregate(a).items[s].total == Aggregate(b).items[s].total
    {
      OfServicePermutation(a, b, s);
    }
  }

  lemma ServicesPermutation(a: seq<UsageRow>, b: seq<UsageRow>)
    requires multiset(a) == multiset(b)
    ensures ServicesOf(a) == ServicesOf(b)
  {
    SameElements(a, b);
    forall s | s in ServicesOf(a)
      ensures s in ServicesOf(b)
    {
      var k :| 0 <= k < |a| && a[k].service == s;
      assert a[k] in b;
    }
    forall s | s in ServicesOf(b)
      ensures s in ServicesOf(a)
    {
      var k :| 0 <= k < |b| && b[k].service == s;
      assert b[k] in a;
    }
  }

  lemma OfServicePermutation(a: seq<UsageRow>, b: seq<UsageRow>, s: string)
    requires multiset(a) == multiset(b)
    ensures QuantitySum(OfService(a, s)) == QuantitySum(OfService(b, s))
    ensures LineTotalSum(OfService(a, s)) == LineTotalSum(OfService(b, s))
  {
    OfServiceMultiset(a, s);
    OfServiceMultiset(b, s);
    assert multiset(OfService(a, s)) == multiset(OfService(b, s));
    LineTotalSumPermutation(OfService(a, s), OfService(b, s));
  }

  /** Two rows of one service with equal timestamps but different units:
      whichever comes first decides the line item's unit. */
  lemma UnitDependsOnTieOrder()
    ensures var t := Instant("2026-09-10", "12:00:00");
            var calls := UsageRow(1, "api", 10.0, "calls", 0.5, t, 5.0);
            var requests := UsageRow(2, "api", 4.0, "requests", 1.0, t, 4.0);
            && Aggregate([calls, requests]).items["api"] == LineItem(14.0, "calls", 0.5, 9.0)
            && Aggregate([requests, calls]).items["api"] == LineItem(14.0, "requests", 1.0, 9.0)
  {
    var t := Instant("2026-09-10", "12:00:00");
    var calls := UsageRow(1, "api", 10.0, "calls", 0.5, t, 5.0);
    var requests := UsageRow(2, "api", 4.0, "requests", 1.0, t, 4.0);
    assert [calls, requests][..1] == [calls];
    assert [requests, calls][..1] == [requests];
    assert [calls][..0] == [] && [requests][..0] == [];
  }

  // ---------------------------------------------------------------------
  // generate_invoice

  /** The invoice of the customer's usage since `periodStart`: refused when
      there is none, otherwise the usage grouped by service. Nothing in the
      ledger changes, so a second call bills the same events again. */
  function GenerateInvoice(ledger: seq<Event>, customerId: string, periodStart: Instant): (r: InvoiceDraft)
    ensures r.NoUnbilledUsage? <==>
              forall i :: 0 <= i < |ledger| ==> !Selects(ledger[i], customerId, From(periodStart))
    ensures r.Draft? ==> WellKeyed(r.lineItems)
    ensures r.Draft? ==>
              r.lineItems.items.Keys
              == set i | 0 <= i < |ledger| && Selects(ledger[i], customerId, From(periodStart)) :: ledger[i].service
    ensures r.Draft? ==> InvoiceTotal(r.lineItems) == CalculateTotal(ledger, customerId, From(periodStart))
  {
    var rows := GetUnbilledUsage(ledger, customerId, From(periodStart));
    UsageServices(ledger, customerId, From(periodStart));
    if |rows| == 0 then
      NoUnbilledUsage
    else
      AggregateConservesTotal(rows);
      Draft(Aggregate(rows))
  }

  /** The services of the fetched usage are those of the selected events,
      and the usage is empty exactly when no event is selected. */
  lemma UsageServices(ledger: seq<Event>, customerId: string, bound: StartBound)
    ensures var rows := GetUnbilledUsage(ledger, customerId, bound);
            ServicesOf(rows) == set i | 0 <= i < |ledger| && Selects(ledger[i], customerId, bound) :: ledger[i].service
    ensures |GetUnbilledUsage(ledger, customerId, bound)| == 0 <==>
              forall i :: 0 <= i < |ledger| ==> !Selects(ledger[i], customerId, bound)
  {
    UsageServicesSelected(ledger, customerId, bound);
    SelectedServicesInUsage(ledger, customerId, bound);
    UsageEmpty(ledger, customerId, bound);
  }

  lemma UsageServicesSelected(ledger: seq<Event>, customerId: string, bound: StartBound)
    ensures forall s :: s in ServicesOf(GetUnbilledUsage(ledger, customerId, bound)) ==>
              exists i :: 0 <= i < |ledger| && Selects(ledger[i], customerId, bound) && ledger[i].service == s
  {
    var rows := GetUnbilledUsage(ledger, customerId, bound);
    forall s | s in ServicesOf(rows)
      ensures exists i :: 0 <= i < |ledger| && Selects(ledger[i], customerId, bound) && ledger[i].service == s
    {
      var k :| 0 <= k < |rows| && rows[k].service == s;
      assert rows[k] in rows;
      var i := rows[k].id - 1;
      assert RowOf(ledger[i], i + 1) in rows;
    }
  }

  lemma SelectedServicesInUsage(ledger: seq<Event>, customerId: string, bound: StartBound)
    ensures forall i :: 0 <= i < |ledger| && Selects(ledger[i], customerId, bound) ==>
              ledger[i].service in ServicesOf(GetUnbilledUsage(ledger, customerId, bound))
  {
    var rows := GetUnbilledUsage(ledger, customerId, bound);
    forall i | 0 <= i < |ledger| && Selects(ledger[i], customerId, bound)
      ensures ledger[i].service in ServicesOf(rows)
    {
      assert RowOf(ledger[i], i + 1) in rows;
      var k :| 0 <= k < |rows| && rows[k] == RowOf(ledger[i], i + 1);
    }
  }

  lemma UsageEmpty(ledger: seq<Event>, customerId: string, bound: StartBound)
    ensures |GetUnbilledUsage(ledger, customerId, bound)| == 0 <==>
              forall i :: 0 <= i < |ledger| ==> !Selects(ledger[i], customerId, bound)
  {
    var rows := GetUnbilledUsage(ledger, customerId, bound);
    if |rows| > 0 {
      assert rows[0] in rows;
      var i := rows[0].id - 1;
      assert RowOf(ledger[i], i + 1) in rows;
    }
  }

  // ---------------------------------------------------------------------
  // Conversion to cents

  /** Python's `int()` on a float: truncation toward zero. */
  function TruncateToInt(x: real): (r: int)
    ensures 0.0 <= x ==> r as real <= x < r as real + 1.0
    ensures x < 0.0 ==> r as real - 1.0 < x <= r as real
  {
    if 0.0 <= x then x.Floor else -((-x).Floor)
  }

  /** The `amount` in cents sent for each line item, summed over the keys in
      `order`. */
  function CentsOver(order: seq<string>, items: map<string, LineItem>): int
    requires forall k :: 0 <= k < |order| ==> order[k] in items
    decreases |order|
  {
    if |order| == 0 then 0
    else CentsOver(order[..|order| - 1], items) + TruncateToInt(items[order[|order| - 1]].total * 100.0)
  }

  /** The cents requested for all line items of an invoice. */
  function RequestedCents(li: LineItems): int
    requires WellKeyed(li)
  {
    CentsOver(li.order, li.items)
  }

  /** With non-negative totals, truncating each line item to cents never
      overcharges, and undercharges by less than one cent per line item. */
  lemma {:induction false} CentsOverBound(order: seq<string>, items: map<string, LineItem>)
    requires forall k :: 0 <= k < |order| ==> order[k] in items
    requires forall k :: 0 <= k < |order| ==> items[order[k]].total >= 0.0
    ensures CentsOver(order, items) as real <= 100.0 * TotalOver(order, items)
    ensures |order| > 0 ==> 100.0 * TotalOver(order, items) - |order| as real < CentsOver(order, items) as real
    decreases |order|
  {
    if |order| > 0 {
      CentsOverBound(order[..|order| - 1], items);
    }
  }

  /** For a customer whose events in the period have non-negative quantities
      and prices, the cents requested are the period's total in cents, less
      under one cent per line item. */
  lemma GeneratedCentsBound(ledger: seq<Event>, customerId: string, periodStart: Instant)
    requires forall i :: 0 <= i < |ledger| && Selects(ledger[i], customerId, From(periodStart)) ==>
               ledger[i].quantity >= 0.0 && ledger[i].unitPrice >= 0.0
    ensures var r := GenerateInvoice(ledger, customerId, periodStart);
            r.Draft? ==>
              var total := CalculateTotal(ledger, customerId, From(periodStart));
              && RequestedCents(r.lineItems) as real <= 100.0 * total
              && 100.0 * total - |r.lineItems.order| as real < RequestedCents(r.lineItems) as real
  {
    var r := GenerateInvoice(ledger, customerId, periodStart);
    if r.Draft? {
      var rows := GetUnbilledUsage(ledger, customerId, From(periodStart));
      var li := r.lineItems;
      assert li == Aggregate(rows);
      UsageNonNegative(ledger, customerId, From(periodStart));
      ItemTotalsNonNegative(rows);
      CentsOverBound(li.order, li.items);
      assert |li.order| > 0 by {
        assert rows[0].service in ServicesOf(rows);
      }
    }
  }

  /** Events with non-negative quantities and prices give rows with
      non-negative line totals. */
  lemma UsageNonNegative(ledger: seq<Event>, customerId: string, bound: StartBound)
    requires forall i :: 0 <= i < |ledger| && Selects(ledger[i], customerId, bound) ==>
               ledger[i].quantity >= 0.0 && ledger[i].unitPrice >= 0.0
    ensures forall k :: 0 <= k < |GetUnbilledUsage(ledger, customerId, bound)| ==>
              GetUnbilledUsage(ledger, customerId, bound)[k].lineTotal >= 0.0
  {
    var rows := GetUnbilledUsage(ledger, customerId, bound);
    forall k | 0 <= k < |rows|
      ensures rows[k].lineTotal >= 0.0
    {
      assert rows[k] in rows;
      var e := ledger[rows[k].id - 1];
      assert RowOf(e, rows[k].id) in rows;
      NonNegativeAmount(e);
    }
  }

  /** Rows with non-negative line totals give line items with non-negative
      totals. */
  lemma ItemTotalsNonNegative(rows: seq<UsageRow>)
    requires forall k :: 0 <= k < |rows| ==> rows[k].lineTotal >= 0.0
    ensures forall k :: 0 <= k < |Aggregate(rows).order| ==>
              Aggregate(rows).items[Aggregate(rows).order[k]].total >= 0.0
  {
    var li := Aggregate(rows);
    forall k | 0 <= k < |li.order|
      ensures li.items[li.order[k]].total >= 0.0
    {
      OfServiceNonNegative(rows, li.order[k]);
    }
  }

  /** A service's rows have a non-negative sum when every row's line total
      is non-negative. */
  lemma {:induction false} OfServiceNonNegative(rows: seq<UsageRow>, service: string)
    requires forall k :: 0 <= k < |rows| ==> rows[k].lineTotal >= 0.0
    ensures LineTotalSum(OfService(rows, service)) >= 0.0
    decreases |rows|
  {
    if |rows| > 0 {
      var front := rows[..|rows| - 1];
      var row := rows[|rows| - 1];
      assert forall k :: 0 <= k < |front| ==> front[k] == rows[k];
      OfServiceNonNegative(front, service);
      if row.service == service {
        SumsSnoc(OfService(front, service), row);
      } else {
        assert OfService(rows, service) == OfService(front, service);
      }
    }
  }

  lemma NonNegativeAmount(e: Event)
    requires e.quantity >= 0.0 && e.unitPrice >= 0.0
    ensures Amount(e) >= 0.0
  {
  }
}
