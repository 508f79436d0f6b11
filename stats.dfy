/**
 * The statistics endpoint's two derived lists: the users per role, reshaped from
 * the store's grouped rows, and the events per month, folded from per-date counts
 * into buckets keyed by a month name.
 */
module Stats {
  import opened Models

  /** A row of the grouping of users by role: the role and its `_count`. */
  datatype RoleGroup = RoleGroup(role: string, groupCount: nat)

  /** An entry of `usersByRole`. */
  datatype RoleCount = RoleCount(role: string, count: nat)

  /** `usersByRole`: one entry per grouped row, in the same order, `_count` renamed to `count`. */
  function UsersByRole(groups: seq<RoleGroup>): (r: seq<RoleCount>)
    ensures |r| == |groups|
    ensures forall i :: 0 <= i < |r| ==> r[i].role == groups[i].role && r[i].count == groups[i].groupCount
  {
    if |groups| == 0 then []
    else [RoleCount(groups[0].role, groups[0].groupCount)] + UsersByRole(groups[1..])
  }

  /** A row of the grouping of events by date: the date and its `_count`. */
  datatype DateGroup = DateGroup(date: Date, groupCount: nat)

  /** An entry of `eventsByMonth`. */
  datatype MonthCount = MonthCount(month: string, count: nat)

  /** The month label of every row, in input order. */
  function Labels(rows: seq<DateGroup>, monthLabel: Date -> string): (ls: seq<string>)
    ensures |ls| == |rows|
  {
    if |rows| == 0 then [] else Labels(rows[..|rows| - 1], monthLabel) + [monthLabel(rows[|rows| - 1].date)]
  }

  /** The labels of `s` without repetitions, each where it first occurs. */
  function FirstOccurrences(s: seq<string>): (d: seq<string>)
    ensures forall x :: x in d <==> x in s
    ensures forall j, k :: 0 <= j < k < |d| ==> d[j] != d[k]
    ensures |d| <= |s|
  {
    if |s| == 0 then []
    else
      var prev := FirstOccurrences(s[..|s| - 1]);
      assert forall x :: x in s <==> x in s[..|s| - 1] || x == s[|s| - 1];
      if s[|s| - 1] in prev then prev else prev + [s[|s| - 1]]
  }

  /** The index at which `x` first occurs in `s`. */
  function IndexOf(s: seq<string>, x: string): (k: nat)
    requires x in s
    ensures k < |s| && s[k] == x
    ensures forall j :: 0 <= j < k ==> s[j] != x
  {
    if x in s[..|s| - 1] then IndexOf(s[..|s| - 1], x)
    else
      assert forall j :: 0 <= j < |s| - 1 ==> s[..|s| - 1][j] == s[j];
      |s| - 1
  }

  /** The sum of `_count` over the rows whose date carries the label `m`. */
  function MonthTotal(rows: seq<DateGroup>, monthLabel: Date -> string, m: string): nat
  {
    if |rows| == 0 then 0
    else
      MonthTotal(rows[..|rows| - 1], monthLabel, m)
      + (if monthLabel(rows[|rows| - 1].date) == m then rows[|rows| - 1].groupCount else 0)
  }

  /** The sum of `_count` over all rows. */
  function RowsTotal(rows: seq<DateGroup>): nat
  {
    if |rows| == 0 then 0 else RowsTotal(rows[..|rows| - 1]) + rows[|rows| - 1].groupCount
  }

  /** The sum of the counts of a list of buckets. */
  function BucketsTotal(buckets: seq<MonthCount>): nat
  {
    if |buckets| == 0 then 0 else BucketsTotal(buckets[..|buckets| - 1]) + buckets[|buckets| - 1].count
  }

  /**
   * The reference definition of `eventsByMonth`: one bucket per distinct label, in the
   * order the labels first occur, each holding the total of its label.
   */
  function MonthBuckets(rows: seq<DateGroup>, monthLabel: Date -> string): (r: seq<MonthCount>)
    ensures |r| <= |rows|
    ensures rows == [] ==> r == []
    ensures forall j, k :: 0 <= j < k < |r| ==> r[j].month != r[k].month
  {
    var months := FirstOccurrences(Labels(rows, monthLabel));
    seq(|months|, i requires 0 <= i < |months| => MonthCount(months[i], MonthTotal(rows, monthLabel, months[i])))
  }

  /**
   * The reduce's accumulator after the rows `done`: the dictionary `acc` and `keys`, the
   * order in which its keys were inserted.
   */
  ghost predicate Accumulated(acc: map<string, nat>, keys: seq<string>, done: seq<DateGroup>, monthLabel: Date -> string)
  {
    && keys == FirstOccurrences(Labels(done, monthLabel))
    && (forall m :: m in acc <==> m in keys)
    && (forall m :: m in acc ==> acc[m] == MonthTotal(done, monthLabel, m))
  }

  /** The accumulator after adding one row: `acc[month] = (acc[month] || 0) + result._count`. */
  function Bump(acc: map<string, nat>, month: string, n: nat): map<string, nat>
  {
    acc[month := (if month in acc then acc[month] else 0) + n]
  }

  /** The insertion order after adding `month` to a dictionary with keys `keys`. */
  function Insert(keys: seq<string>, month: string): seq<string>
  {
    if month in keys then keys else keys + [month]
  }

  /** One step of the reduce keeps the accumulator equal to the fold of the rows seen so far. */
  lemma AccumulateStep(acc: map<string, nat>, keys: seq<string>, done: seq<DateGroup>, row: DateGroup, monthLabel: Date -> string)
    requires Accumulated(acc, keys, done, monthLabel)
    ensures Accumulated(Bump(acc, monthLabel(row.date), row.groupCount), Insert(keys, monthLabel(row.date)),
                        done + [row], monthLabel)
  {
    var month := monthLabel(row.date);
    var next := done + [row];
    var acc' := Bump(acc, month, row.groupCount);
    var keys' := Insert(keys, month);
    assert next[..|next| - 1] == done;
    var ls := Labels(next, monthLabel);
    assert ls == Labels(done, monthLabel) + [month];
    assert ls[..|ls| - 1] == Labels(done, monthLabel);
    assert keys' == FirstOccurrences(ls);
    forall m | m in acc'
      ensures acc'[m] == MonthTotal(next, monthLabel, m)
    {
      assert MonthTotal(next, monthLabel, m)
        == MonthTotal(done, monthLabel, m) + (if month == m then row.groupCount else 0);
      if m != month {
        assert m in acc;
      } else if month !in acc {
        MonthTotalOfAbsent(done, monthLabel, m);
      }
    }
  }

  /** A label no row carries has total zero. */
  lemma {:induction false} MonthTotalOfAbsent(rows: seq<DateGroup>, monthLabel: Date -> string, m: string)
    requires m !in Labels(rows, monthLabel)
    ensures MonthTotal(rows, monthLabel, m) == 0
  {
    if |rows| > 0 {
      var prev := rows[..|rows| - 1];
      assert Labels(rows, monthLabel) == Labels(prev, monthLabel) + [monthLabel(rows[|rows| - 1].date)];
      MonthTotalOfAbsent(prev, monthLabel, m);
    }
  }

  /** `Object.entries(acc).map(...)`: the entries of the dictionary, in the insertion order `keys`. */
  function Entries(acc: map<string, nat>, keys: seq<string>): seq<MonthCount>
  {
    seq(|keys|, j requires 0 <= j < |keys| => MonthCount(keys[j], if keys[j] in acc then acc[keys[j]] else 0))
  }

  /** Listing the final accumulator's entries in insertion order gives the reference buckets. */
  lemma ListingIsBuckets(acc: map<string, nat>, keys: seq<string>, rows: seq<DateGroup>, monthLabel: Date -> string)
    requires Accumulated(acc, keys, rows, monthLabel)
    ensures Entries(acc, keys) == MonthBuckets(rows, monthLabel)
  {
  }

  /**
   * `eventsByMonth`: the reduce that adds each row's `_count` into a dictionary keyed by
   * the row's month label, then the listing of the dictionary's entries in insertion order.
   * `keys` is that insertion order, which a JavaScript object keeps for such keys.
   */
  method EventsByMonth(rows: seq<DateGroup>, monthLabel: Date -> string) returns (r: seq<MonthCount>)
    ensures r == MonthBuckets(rows, monthLabel)
  {
    var acc: map<string, nat> := map[];
    var keys: seq<string> := [];
    var i := 0;
    while i < |rows|
      invariant 0 <= i <= |rows|
      invariant Accumulated(acc, keys, rows[..i], monthLabel)
    {
      AccumulateStep(acc, keys, rows[..i], rows[i], monthLabel);
      var month := monthLabel(rows[i].date);
      keys := Insert(keys, month);
      acc := Bump(acc, month, rows[i].groupCount);
      assert rows[..i] + [rows[i]] == rows[..i + 1];
      i := i + 1;
    }
    assert rows[..i] == rows;
    ListingIsBuckets(acc, keys, rows, monthLabel);
    r := Entries(acc, keys);
  }

  // ---- properties of the reference definition ----

  lemma {:induction false} LabelsAt(rows: seq<DateGroup>, monthLabel: Date -> string, i: nat)
    requires i < |rows|
    ensures Labels(rows, monthLabel)[i] == monthLabel(rows[i].date)
  {
    if i < |rows| - 1 {
      LabelsAt(rows[..|rows| - 1], monthLabel, i);
    }
  }

  /**
   * A label has a bucket exactly when some grouped row's date carries it, and that
   * bucket's count is the label's total.
   */
  lemma BucketIffLabelled(rows: seq<DateGroup>, monthLabel: Date -> string, m: string)
    ensures var r := MonthBuckets(rows, monthLabel);
      (exists k :: 0 <= k < |r| && r[k].month == m) <==> (exists i :: 0 <= i < |rows| && monthLabel(rows[i].date) == m)
    ensures var r := MonthBuckets(rows, monthLabel);
      forall k :: 0 <= k < |r| && r[k].month == m ==> r[k].count == MonthTotal(rows, monthLabel, m)
  {
    var r := MonthBuckets(rows, monthLabel);
    var ls := Labels(rows, monthLabel);
    var months := FirstOccurrences(ls);
    if exists k :: 0 <= k < |r| && r[k].month == m {
      var k :| 0 <= k < |r| && r[k].month == m;
      assert months[k] == m;
      assert m in ls;
      var i :| 0 <= i < |ls| && ls[i] == m;
      LabelsAt(rows, monthLabel, i);
    }
    if exists i :: 0 <= i < |rows| && monthLabel(rows[i].date) == m {
      var i :| 0 <= i < |rows| && monthLabel(rows[i].date) == m;
      LabelsAt(rows, monthLabel, i);
      assert m in months;
      var k :| 0 <= k < |months| && months[k] == m;
      assert r[k].month == m;
    }
  }

  /** Buckets are listed in the order in which their label first occurs in the input. */
  lemma {:induction false} FirstOccurrencesOrder(s: seq<string>)
    ensures forall j, k :: 0 <= j < k < |FirstOccurrences(s)| ==>
      IndexOf(s, FirstOccurrences(s)[j]) < IndexOf(s, FirstOccurrences(s)[k])
  {
    if |s| > 0 {
      var prev := s[..|s| - 1];
      FirstOccurrencesOrder(prev);
      var before := FirstOccurrences(prev);
      var d := FirstOccurrences(s);
      assert d == before || d == before + [s[|s| - 1]];
      forall j, k | 0 <= j < k < |d|
        ensures IndexOf(s, d[j]) < IndexOf(s, d[k])
      {
        assert k == |before| || IndexOf(prev, before[j]) < IndexOf(prev, before[k]);
        assert d[j] == before[j] && d[j] in prev;
        assert IndexOf(s, d[j]) == IndexOf(prev, d[j]);
        if k < |before| {
          assert d[k] == before[k] && d[k] in prev;
          assert IndexOf(s, d[k]) == IndexOf(prev, d[k]);
        } else {
          assert d[k] == s[|s| - 1] && d[k] !in prev;
        }
      }
    }
  }

  /** The month order of `eventsByMonth` is first-occurrence order of the labels. */
  lemma BucketsInFirstOccurrenceOrder(rows: seq<DateGroup>, monthLabel: Date -> string)
    ensures var r := MonthBuckets(rows, monthLabel);
      var ls := Labels(rows, monthLabel);
      forall j, k :: 0 <= j < k < |r| ==> r[j].month in ls && r[k].month in ls && IndexOf(ls, r[j].month) < IndexOf(ls, r[k].month)
  {
    var r := MonthBuckets(rows, monthLabel);
    var ls := Labels(rows, monthLabel);
    var months := FirstOccurrences(ls);
    FirstOccurrencesOrder(ls);
    forall j, k | 0 <= j < k < |r|
      ensures r[j].month in ls && r[k].month in ls && IndexOf(ls, r[j].month) < IndexOf(ls, r[k].month)
    {
      assert r[j].month == months[j] && r[k].month == months[k];
      assert IndexOf(ls, months[j]) < IndexOf(ls, months[k]);
    }
  }

  /** The sum of `MonthTotal` over a list of labels. */
  function TotalOver(rows: seq<DateGroup>, monthLabel: Date -> string, months: seq<string>): nat
  {
    if |months| == 0 then 0
    else TotalOver(rows, monthLabel, months[..|months| - 1]) + MonthTotal(rows, monthLabel, months[|months| - 1])
  }

  /** Adding one row adds its count to the sum over distinct labels exactly when its label is among them. */
  lemma {:induction false} TotalOverStep(rows: seq<DateGroup>, row: DateGroup, monthLabel: Date -> string, months: seq<string>)
    requires forall j, k :: 0 <= j < k < |months| ==> months[j] != months[k]
    ensures TotalOver(rows + [row], monthLabel, months)
         == TotalOver(rows, monthLabel, months) + (if monthLabel(row.date) in months then row.groupCount else 0)
  {
    var next := rows + [row];
    assert next[..|next| - 1] == rows;
    if |months| > 0 {
      var prev := months[..|months| - 1];
      TotalOverStep(rows, row, monthLabel, prev);
      assert months == prev + [months[|months| - 1]];
    }
  }

  lemma {:induction false} TotalOverBuckets(rows: seq<DateGroup>, monthLabel: Date -> string, months: seq<string>)
    ensures BucketsTotal(seq(|months|, i requires 0 <= i < |months| => MonthCount(months[i], MonthTotal(rows, monthLabel, months[i]))))
         == TotalOver(rows, monthLabel, months)
  {
    if |months| > 0 {
      var prev := months[..|months| - 1];
      TotalOverBuckets(rows, monthLabel, prev);
      var b := seq(|months|, i requires 0 <= i < |months| => MonthCount(months[i], MonthTotal(rows, monthLabel, months[i])));
      assert b[..|b| - 1] == seq(|prev|, i requires 0 <= i < |prev| => MonthCount(prev[i], MonthTotal(rows, monthLabel, prev[i])));
    }
  }

  /** The distinct labels' totals add up to the whole input's total. */
  lemma {:induction false} TotalOverLabels(rows: seq<DateGroup>, monthLabel: Date -> string)
    ensures TotalOver(rows, monthLabel, FirstOccurrences(Labels(rows, monthLabel))) == RowsTotal(rows)
  {
    if |rows| > 0 {
      var prev := rows[..|rows| - 1];
      var row := rows[|rows| - 1];
      var month := monthLabel(row.date);
      var before := FirstOccurrences(Labels(prev, monthLabel));
      TotalOverLabels(prev, monthLabel);
      assert prev + [row] == rows;
      TotalOverStep(prev, row, monthLabel, before);
      assert Labels(rows, monthLabel)[..|rows| - 1] == Labels(prev, monthLabel);
      if month !in before {
        MonthTotalOfAbsent(prev, monthLabel, month);
        assert FirstOccurrences(Labels(rows, monthLabel)) == before + [month];
        assert (before + [month])[..|before|] == before;
      }
    }
  }

  /** The counts of `eventsByMonth` add up to the sum of `_count` over all grouped rows. */
  lemma BucketsSumToRows(rows: seq<DateGroup>, monthLabel: Date -> string)
    ensures BucketsTotal(MonthBuckets(rows, monthLabel)) == RowsTotal(rows)
  {
    TotalOverBuckets(rows, monthLabel, FirstOccurrences(Labels(rows, monthLabel)));
    TotalOverLabels(rows, monthLabel);
  }

  /** A row's count is included in its label's total. */
  lemma {:induction false} MonthTotalIncludes(rows: seq<DateGroup>, monthLabel: Date -> string, i: nat)
    requires i < |rows|
    ensures MonthTotal(rows, monthLabel, monthLabel(rows[i].date)) >= rows[i].groupCount
  {
    if i < |rows| - 1 {
      MonthTotalIncludes(rows[..|rows| - 1], monthLabel, i);
    }
  }

  /**
   * Two different rows whose dates carry the same label (the same month name in two
   * different years, say) land in one bucket, whose count includes both.
   */
  lemma {:induction false} SameLabelMerges(rows: seq<DateGroup>, monthLabel: Date -> string, i: nat, j: nat)
    requires i < j < |rows|
    requires monthLabel(rows[i].date) == monthLabel(rows[j].date)
    ensures MonthTotal(rows, monthLabel, monthLabel(rows[i].date)) >= rows[i].groupCount + rows[j].groupCount
  {
    var prev := rows[..|rows| - 1];
    if j < |rows| - 1 {
      SameLabelMerges(prev, monthLabel, i, j);
    } else {
      MonthTotalIncludes(prev, monthLabel, i);
    }
  }

  /** In `eventsByMonth`, the bucket of a label holds that label's total, and it is the only bucket of that label. */
  lemma BucketHoldsLabelTotal(rows: seq<DateGroup>, monthLabel: Date -> string, i: nat)
    requires i < |rows|
    ensures var r := MonthBuckets(rows, monthLabel);
      exists k :: 0 <= k < |r| && r[k] == MonthCount(monthLabel(rows[i].date), MonthTotal(rows, monthLabel, monthLabel(rows[i].date)))
  {
    var m := monthLabel(rows[i].date);
    BucketIffLabelled(rows, monthLabel, m);
  }
}
