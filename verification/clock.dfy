/**
 * Timestamps of the usage ledger and how the billing window compares them.
 *
 * The `created_at` column is filled by SQLite's CURRENT_TIMESTAMP, which
 * writes the text "YYYY-MM-DD HH:MM:SS". The column is declared TIMESTAMP,
 * which gives it NUMERIC affinity; neither that text nor the bound start date
 * reads as a number, so both stay text and `created_at >= ?` compares them
 * byte by byte (the BINARY collation). The bound start date is
 * `start_date.isoformat()`, which writes "YYYY-MM-DDTHH:MM:SS" followed by
 * ".ffffff" when the microseconds are not zero.
 */
module Clock {

  /** An instant as SQLite stores it: a zero-padded "YYYY-MM-DD" date and a
      zero-padded "HH:MM:SS" time. */
  datatype Instant = Instant(date: string, time: string)

  /** Both fields have their fixed width. */
  predicate WellFormed(t: Instant) {
    |t.date| == 10 && |t.time| == 8
  }

  /** Byte-wise strict order on text: SQLite's BINARY collation, on ASCII. */
  predicate TextLess(a: string, b: string)
    decreases |a|
  {
    if |a| == 0 then |b| > 0
    else if |b| == 0 then false
    else if a[0] != b[0] then a[0] < b[0]
    else TextLess(a[1..], b[1..])
  }

  /** Chronological order: the earlier date, or the same date and the earlier
      time. On zero-padded fields this is the calendar order. */
  predicate Before(a: Instant, b: Instant) {
    TextLess(a.date, b.date) || (a.date == b.date && TextLess(a.time, b.time))
  }

  /** `a` is at or after `b`: the inclusive lower bound of a billing window. */
  predicate AtOrAfter(a: Instant, b: Instant) {
    !Before(a, b)
  }

  /** The text CURRENT_TIMESTAMP writes into `created_at`. */
  function StoredText(t: Instant): string {
    t.date + " " + t.time
  }

  /** The text `datetime.isoformat()` binds for the start date; `fraction` is
      "" or the ".ffffff" microseconds part. */
  function IsoText(t: Instant, fraction: string): string {
    t.date + "T" + t.time + fraction
  }

  /** The window test as written: stored text against ISO text. */
  predicate AsWrittenInWindow(created: Instant, start: Instant, fraction: string) {
    !TextLess(StoredText(created), IsoText(start, fraction))
  }

  /** The window test with the start date rendered the way `created_at` is
      stored (a space between date and time, no fraction). */
  predicate CorrectedInWindow(created: Instant, start: Instant) {
    !TextLess(StoredText(created), StoredText(start))
  }

  // ---------------------------------------------------------------------
  // TextLess is a strict total order

  lemma {:induction false} TextLessIrreflexive(a: string)
    ensures !TextLess(a, a)
    decreases |a|
  {
    if |a| > 0 {
      TextLessIrreflexive(a[1..]);
    }
  }

  lemma {:induction false} TextLessTransitive(a: string, b: string, c: string)
    requires TextLess(a, b) && TextLess(b, c)
    ensures TextLess(a, c)
    decreases |a|
  {
    if |a| > 0 && a[0] == b[0] && b[0] == c[0] {
      TextLessTransitive(a[1..], b[1..], c[1..]);
    }
  }

  lemma {:induction false} TextLessTotal(a: string, b: string)
    ensures a == b || TextLess(a, b) || TextLess(b, a)
    decreases |a|
  {
    if |a| > 0 && |b| > 0 && a[0] == b[0] {
      TextLessTotal(a[1..], b[1..]);
      if a[1..] == b[1..] {
        assert a == [a[0]] + a[1..] && b == [b[0]] + b[1..];
      }
    }
  }

  /** Comparing two texts whose first parts have the same length compares
      the first parts, and the rest only when the first parts are equal. */
  lemma {:induction false} TextLessConcat(p: string, q: string, p': string, q': string)
    requires |p| == |p'|
    ensures TextLess(p + q, p' + q') <==> TextLess(p, p') || (p == p' && TextLess(q, q'))
    decreases |p|
  {
    if |p| > 0 {
      assert (p + q)[0] == p[0] && (p' + q')[0] == p'[0];
      assert (p + q)[1..] == p[1..] + q;
      assert (p' + q')[1..] == p'[1..] + q';
      TextLessConcat(p[1..], q, p'[1..], q');
      if p[0] == p'[0] {
        assert p == p' <==> p[1..] == p'[1..] by {
          assert p == [p[0]] + p[1..] && p' == [p'[0]] + p'[1..];
        }
      }
    } else {
      assert p + q == q && p' + q' == q';
    }
  }

  // ---------------------------------------------------------------------
  // Before is a strict total order on instants

  lemma BeforeIrreflexive(a: Instant)
    ensures !Before(a, a)
  {
    TextLessIrreflexive(a.date);
    TextLessIrreflexive(a.time);
  }

  lemma BeforeTransitive(a: Instant, b: Instant, c: Instant)
    requires Before(a, b) && Before(b, c)
    ensures Before(a, c)
  {
    if TextLess(a.date, b.date) && TextLess(b.date, c.date) {
      TextLessTransitive(a.date, b.date, c.date);
    } else if a.date == b.date && b.date == c.date {
      TextLessTransitive(a.time, b.time, c.time);
    }
  }

  lemma BeforeTotal(a: Instant, b: Instant)
    ensures a == b || Before(a, b) || Before(b, a)
  {
    TextLessTotal(a.date, b.date);
    TextLessTotal(a.time, b.time);
  }

  /** At-or-after is a total preorder: any two instants are comparable and
      the relation chains. */
  lemma AtOrAfterTotalPreorder(a: Instant, b: Instant, c: Instant)
    ensures AtOrAfter(a, b) || AtOrAfter(b, a)
    ensures AtOrAfter(a, b) && AtOrAfter(b, c) ==> AtOrAfter(a, c)
  {
    BeforeTotal(a, b);
    BeforeTotal(b, c);
    BeforeTotal(a, c);
    if Before(a, b) && Before(b, a) {
      BeforeTransitive(a, b, a);
      BeforeIrreflexive(a);
    }
    if AtOrAfter(a, b) && AtOrAfter(b, c) && Before(a, c) {
      if a == b {
      } else if b == c {
      } else {
        BeforeTransitive(b, a, c);
      }
    }
  }

  // ---------------------------------------------------------------------
  // The window test as written and corrected

  /** With the start rendered like `created_at`, text order is chronological
      order: this is also why ORDER BY created_at sorts chronologically. */
  lemma StoredTextOrderIsChronological(a: Instant, b: Instant)
    requires WellFormed(a) && WellFormed(b)
    ensures TextLess(StoredText(a), StoredText(b)) <==> Before(a, b)
  {
    TextLessConcat(a.date + " ", a.time, b.date + " ", b.time);
    TextLessConcat(a.date, " ", b.date, " ");
    TextLessIrreflexive(" ");
    assert a.date + " " == b.date + " " <==> a.date == b.date by {
      if a.date + " " == b.date + " " {
        assert a.date == (a.date + " ")[..10] == (b.date + " ")[..10] == b.date;
      }
    }
  }

  /** The corrected test is exactly the inclusive chronological lower bound. */
  lemma CorrectedInWindowIsAtOrAfter(created: Instant, start: Instant)
    requires WellFormed(created) && WellFormed(start)
    ensures CorrectedInWindow(created, start) <==> AtOrAfter(created, start)
  {
    StoredTextOrderIsChronological(created, start);
  }

  /** As written, an event passes the window test exactly when its date is a
      strictly later day than the start date: the time of day never matters
      and every event of the start day is dropped. */
  lemma AsWrittenInWindowIsLaterDay(created: Instant, start: Instant, fraction: string)
    requires WellFormed(created) && WellFormed(start)
    ensures AsWrittenInWindow(created, start, fraction) <==> TextLess(start.date, created.date)
  {
    assert StoredText(created) == created.date + (" " + created.time);
    assert IsoText(start, fraction) == start.date + ("T" + start.time + fraction);
    TextLessConcat(created.date, " " + created.time, start.date, "T" + start.time + fraction);
    assert TextLess(" " + created.time, "T" + start.time + fraction);
    TextLessTotal(created.date, start.date);
    if TextLess(created.date, start.date) && TextLess(start.date, created.date) {
      TextLessTransitive(created.date, start.date, created.date);
      TextLessIrreflexive(created.date);
    }
  }

  /** As written, no event of the start day passes the window test, though
      every one at or after the start time of that day lies in the window. */
  lemma AsWrittenDropsStartDay(created: Instant, start: Instant, fraction: string)
    requires WellFormed(created) && WellFormed(start)
    requires created.date == start.date
    ensures !AsWrittenInWindow(created, start, fraction)
    ensures AtOrAfter(created, start) <==> !TextLess(created.time, start.time)
  {
    TextLessIrreflexive(start.date);
    AsWrittenInWindowIsLaterDay(created, start, fraction);
  }

  /** A concrete input the as-written test gets wrong: an event at noon on
      the start day, with the window opening at 08:00 that day, lies inside
      the window but is excluded. */
  lemma AsWrittenDropsLaterSameDayEvent()
    ensures var created := Instant("2026-09-10", "12:00:00");
            var start := Instant("2026-09-10", "08:00:00");
            AtOrAfter(created, start) && !AsWrittenInWindow(created, start, ".123456")
  {
    var created := Instant("2026-09-10", "12:00:00");
    var start := Instant("2026-09-10", "08:00:00");
    AsWrittenDropsStartDay(created, start, ".123456");
  }
}
