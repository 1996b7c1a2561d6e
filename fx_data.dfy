/**
 * What `fetch_fx_rates` does once the central bank's history has been parsed:
 * a list of `(date, rates)` days is sorted newest first, the first two are
 * the latest and the previous day (an `IndexError` when there are fewer than
 * two), and for each requested currency present in the latest day a record is
 * made with the latest rate, the change against the previous day in percent
 * (the previous rate defaults to the latest one) and the latest date.
 *
 * Dates are ISO `YYYY-MM-DD` strings, so string order is date order. Two days
 * with the same date but different rates make the sort's tuple comparison go
 * on to compare the two rate dictionaries, which raises a `TypeError`.
 */
module FxData {
  import opened Wrappers
  import Sequences
  import opened Strings
  import opened Records

  /** One day of the history: its date and the EUR rate of each currency quoted that day. */
  datatype DailyRates = DailyRates(date: string, rates: map<string, real>)

  datatype FxError =
    | /** `daily_rates[0]` or `daily_rates[1]` on a list with fewer than two days. */
      IndexError
    | /** the sort compared the rate dictionaries of two days with the same date. */
      TypeError

  /** Two days share a date but not their rates. */
  predicate ClashingDates(s: seq<DailyRates>)
  {
    exists i, j :: 0 <= i < |s| && 0 <= j < |s| && s[i].date == s[j].date && s[i].rates != s[j].rates
  }

  predicate DistinctDates(s: seq<DailyRates>)
  {
    forall i, j :: 0 <= i < j < |s| ==> s[i].date != s[j].date
  }

  /** Strictly newest first. */
  predicate NewestFirstOrder(s: seq<DailyRates>)
  {
    forall i, j :: 0 <= i < j < |s| ==> Before(s[j].date, s[i].date)
  }

  /** Place `x` right after the last day of `t` that is not older than it. */
  function InsertByDate(t: seq<DailyRates>, x: DailyRates): (r: seq<DailyRates>)
    ensures |r| == |t| + 1
  {
    if t == [] || !Before(t[|t| - 1].date, x.date) then t + [x]
    else InsertByDate(t[..|t| - 1], x) + [t[|t| - 1]]
  }

  /** `daily_rates.sort(reverse=True)`, as insertion of each day in turn. */
  function NewestFirst(s: seq<DailyRates>): (r: seq<DailyRates>)
    ensures |r| == |s|
  {
    if s == [] then [] else InsertByDate(NewestFirst(s[..|s| - 1]), s[|s| - 1])
  }

  /** `((latest - prev) / prev) * 100 if prev != 0 else 0.0` */
  function PctChange(latest: real, prev: real): (p: real)
    ensures latest == prev ==> p == 0.0
    ensures prev == 0.0 ==> p == 0.0
  {
    if prev != 0.0 then (latest - prev) / prev * 100.0 else 0.0
  }

  /** The record for one currency present in the latest day. */
  function FxChange(sym: string, latest: DailyRates, prev: DailyRates): (r: FxRecord)
    requires sym in latest.rates
    ensures r.symbol == sym && r.rateEur == latest.rates[sym] && r.date == latest.date
  {
    var rate := latest.rates[sym];
    FxRecord(sym, rate, PctChange(rate, DictGet(prev.rates, sym, rate)), latest.date)
  }

  /** The records the loop over `symbols` appends. */
  function FxChanges(symbols: seq<string>, latest: DailyRates, prev: DailyRates): (r: seq<FxRecord>)
    ensures |r| <= |symbols|
  {
    if symbols == [] then []
    else
      var init := FxChanges(symbols[..|symbols| - 1], latest, prev);
      var sym := symbols[|symbols| - 1];
      if sym in latest.rates then init + [FxChange(sym, latest, prev)] else init
  }

  /** The requested symbols quoted in `rates`, in the order requested. */
  function QuotedSymbols(symbols: seq<string>, rates: map<string, real>): seq<string>
  {
    if symbols == [] then []
    else
      var init := QuotedSymbols(symbols[..|symbols| - 1], rates);
      if symbols[|symbols| - 1] in rates then init + [symbols[|symbols| - 1]] else init
  }

  function SymbolsOf(records: seq<FxRecord>): seq<string>
  {
    if records == [] then [] else SymbolsOf(records[..|records| - 1]) + [records[|records| - 1].symbol]
  }

  // ---------------------------------------------------------------------------
  // The sort: a permutation, strictly newest first

  lemma {:induction false} InsertByDateMultiset(t: seq<DailyRates>, x: DailyRates)
    ensures multiset(InsertByDate(t, x)) == multiset(t) + multiset{x}
  {
    if !(t == [] || !Before(t[|t| - 1].date, x.date)) {
      InsertByDateMultiset(t[..|t| - 1], x);
      assert t == t[..|t| - 1] + [t[|t| - 1]];
    }
  }

  /** The sort is a permutation. */
  lemma {:induction false} NewestFirstMultiset(s: seq<DailyRates>)
    ensures multiset(NewestFirst(s)) == multiset(s)
  {
    if s != [] {
      NewestFirstMultiset(s[..|s| - 1]);
      InsertByDateMultiset(NewestFirst(s[..|s| - 1]), s[|s| - 1]);
      assert s == s[..|s| - 1] + [s[|s| - 1]];
    }
  }

  lemma {:induction false} InsertByDateOrdered(t: seq<DailyRates>, x: DailyRates)
    requires NewestFirstOrder(t)
    requires forall i :: 0 <= i < |t| ==> t[i].date != x.date
    ensures NewestFirstOrder(InsertByDate(t, x))
  {
    if t == [] || !Before(t[|t| - 1].date, x.date) {
      if t != [] {
        BeforeTotal(t[|t| - 1].date, x.date);
        forall i | 0 <= i < |t| - 1
          ensures Before(x.date, t[i].date)
        {
          BeforeTransitive(x.date, t[|t| - 1].date, t[i].date);
        }
      }
    } else {
      var init, last := t[..|t| - 1], t[|t| - 1];
      InsertByDateOrdered(init, x);
      var u := InsertByDate(init, x);
      InsertByDateMultiset(init, x);
      forall i | 0 <= i < |u|
        ensures Before(last.date, u[i].date)
      {
        assert u[i] in multiset(u);
        if u[i] != x {
          assert u[i] in multiset(init);
          var k :| 0 <= k < |init| && init[k] == u[i];
          assert t[k] == init[k];
        }
      }
    }
  }

  /** With distinct dates the sort puts the days strictly newest first. */
  lemma {:induction false} NewestFirstOrdered(s: seq<DailyRates>)
    requires DistinctDates(s)
    ensures NewestFirstOrder(NewestFirst(s))
  {
    if s != [] {
      var init, last := s[..|s| - 1], s[|s| - 1];
      NewestFirstOrdered(init);
      NewestFirstMultiset(init);
      forall i | 0 <= i < |init|
        ensures NewestFirst(init)[i].date != last.date
      {
        assert NewestFirst(init)[i] in multiset(init);
      }
      InsertByDateOrdered(NewestFirst(init), last);
    }
  }

  /** A history with distinct dates never makes the sort fail. */
  lemma DistinctNoClash(s: seq<DailyRates>)
    requires DistinctDates(s)
    ensures !ClashingDates(s)
  {
    forall i, j | 0 <= i < |s| && 0 <= j < |s| && s[i].date == s[j].date
      ensures s[i].rates == s[j].rates
    {
      assert i == j;
    }
  }

  /**
   * The latest day is the one with the largest date and the previous day the
   * one with the second largest.
   */
  lemma LatestAndPrevious(s: seq<DailyRates>)
    requires DistinctDates(s) && |s| >= 2
    ensures var n := NewestFirst(s);
      && n[0] in s && n[1] in s
      && Before(n[1].date, n[0].date)
      && (forall e :: e in s && e != n[0] ==> Before(e.date, n[0].date))
      && (forall e :: e in s && e != n[0] && e != n[1] ==> Before(e.date, n[1].date))
  {
    var n := NewestFirst(s);
    NewestFirstMultiset(s);
    NewestFirstOrdered(s);
    assert n[0] in multiset(n) && n[1] in multiset(n);
    forall e | e in s && e != n[0]
      ensures Before(e.date, n[0].date)
      ensures e != n[1] ==> Before(e.date, n[1].date)
    {
      assert e in multiset(n);
      var k :| 0 <= k < |n| && n[k] == e;
    }
  }

  // ---------------------------------------------------------------------------
  // The records

  /** Going back from a change: the previous rate grown by the change is the latest rate. */
  lemma PctChangeInverse(latest: real, prev: real)
    requires prev != 0.0
    ensures prev * (1.0 + PctChange(latest, prev) / 100.0) == latest
  {
    var q := (latest - prev) / prev;
    assert q * prev == latest - prev;
    assert PctChange(latest, prev) / 100.0 == q;
  }

  /** Against a positive previous rate the change is positive, zero or negative as the rate rose, held or fell. */
  lemma PctChangeSign(latest: real, prev: real)
    requires prev > 0.0
    ensures PctChange(latest, prev) > 0.0 <==> latest > prev
    ensures PctChange(latest, prev) == 0.0 <==> latest == prev
  {
    var q := (latest - prev) / prev;
    assert q * prev == latest - prev;
  }

  /** A currency the previous day lacks, or quoted at the same rate, has changed by 0. */
  lemma FxChangeDefaults(sym: string, latest: DailyRates, prev: DailyRates)
    requires sym in latest.rates
    ensures sym !in prev.rates ==> FxChange(sym, latest, prev).pctChange1d == 0.0
    ensures sym in prev.rates && prev.rates[sym] == latest.rates[sym] ==> FxChange(sym, latest, prev).pctChange1d == 0.0
  {
  }

  /** The records are for the requested currencies quoted on the latest day, in the requested order. */
  lemma {:induction false} FxChangesSymbols(symbols: seq<string>, latest: DailyRates, prev: DailyRates)
    ensures SymbolsOf(FxChanges(symbols, latest, prev)) == QuotedSymbols(symbols, latest.rates)
  {
    if symbols != [] {
      var init := FxChanges(symbols[..|symbols| - 1], latest, prev);
      FxChangesSymbols(symbols[..|symbols| - 1], latest, prev);
      if symbols[|symbols| - 1] in latest.rates {
        assert (init + [FxChange(symbols[|symbols| - 1], latest, prev)])[..|init|] == init;
      }
    }
  }

  /** A symbol is kept exactly when it was requested and the latest day quotes it. */
  lemma {:induction false} QuotedSymbolsMembers(symbols: seq<string>, rates: map<string, real>, s: string)
    ensures s in QuotedSymbols(symbols, rates) <==> s in symbols && s in rates
    ensures |QuotedSymbols(symbols, rates)| <= |symbols|
  {
    if symbols != [] {
      QuotedSymbolsMembers(symbols[..|symbols| - 1], rates, s);
      assert symbols == symbols[..|symbols| - 1] + [symbols[|symbols| - 1]];
    }
  }

  /** Every record carries the latest rate and the latest date, and its change against the previous day. */
  lemma {:induction false} FxChangesRecords(symbols: seq<string>, latest: DailyRates, prev: DailyRates)
    ensures forall r :: r in FxChanges(symbols, latest, prev) ==>
      && r.symbol in symbols && r.symbol in latest.rates
      && r.rateEur == latest.rates[r.symbol]
      && r.date == latest.date
      && r.pctChange1d == PctChange(latest.rates[r.symbol], DictGet(prev.rates, r.symbol, latest.rates[r.symbol]))
      && (r.symbol !in prev.rates ==> r.pctChange1d == 0.0)
  {
    if symbols != [] {
      var init := symbols[..|symbols| - 1];
      FxChangesRecords(init, latest, prev);
      assert symbols == init + [symbols[|symbols| - 1]];
      forall r | r in FxChanges(symbols, latest, prev)
        ensures r.symbol in symbols
      {
        if r in FxChanges(init, latest, prev) {
          assert r.symbol in init;
        }
      }
    }
  }

  // ---------------------------------------------------------------------------
  // The code as it runs

  /**
   * Where `InsertByDate` puts `x`: right after position `j - 1` when every
   * day from `j` on is older than `x` and the one before is not.
   */
  lemma {:induction false} InsertByDateAt(t: seq<DailyRates>, x: DailyRates, j: nat)
    requires j <= |t|
    requires forall k :: j <= k < |t| ==> Before(t[k].date, x.date)
    requires j == 0 || !Before(t[j - 1].date, x.date)
    ensures InsertByDate(t, x) == t[..j] + [x] + t[j..]
  {
    if j < |t| {
      var init, last := t[..|t| - 1], t[|t| - 1];
      InsertByDateAt(init, x, j);
      Sequences.InsertThenAppend(t, x, j);
    }
  }

  /** One step of the insertion sort: shift the older tail of `a[..i]` right and drop `a[i]` in. */
  method InsertDayStep(a: array<DailyRates>, i: nat)
    requires i < a.Length
    modifies a
    ensures a[..i + 1] == InsertByDate(old(a[..i]), old(a[i]))
    ensures a[i + 1..] == old(a[i + 1..])
  {
    ghost var t := a[..i];
    var x := a[i];
    var j := i;
    while j > 0 && Before(a[j - 1].date, x.date)
      invariant 0 <= j <= i
      invariant forall k :: 0 <= k < j ==> a[k] == t[k]
      invariant forall k :: j < k <= i ==> a[k] == t[k - 1]
      invariant forall k :: i < k < a.Length ==> a[k] == old(a[k])
      invariant forall k :: j <= k < i ==> Before(t[k].date, x.date)
    {
      a[j] := a[j - 1];
      j := j - 1;
    }
    a[j] := x;
    Sequences.ShiftedInsert(a[..i + 1], t, x, j);
    InsertByDateAt(t, x, j);
    Sequences.SameSuffix(a[..], old(a[..]), i);
  }

  /** `daily_rates.sort(reverse=True)`, in place. */
  method SortNewestFirst(a: array<DailyRates>)
    modifies a
    ensures a[..] == NewestFirst(old(a[..]))
  {
    ghost var s := a[..];
    var i := 0;
    while i < a.Length
      invariant 0 <= i <= a.Length
      invariant a[..i] == NewestFirst(s[..i])
      invariant a[i..] == s[i..]
    {
      Sequences.SuffixStep(a[..], s, i);
      InsertDayStep(a, i);
      assert s[..i + 1][..i] == s[..i];
      i := i + 1;
    }
    assert s[..a.Length] == s;
  }

  /** The loop over `symbols`: skip a currency the latest day lacks, else append its record. */
  method ChangesFor(symbols: seq<string>, latest: DailyRates, prev: DailyRates) returns (results: seq<FxRecord>)
    ensures results == FxChanges(symbols, latest, prev)
  {
    results := [];
    for i := 0 to |symbols|
      invariant results == FxChanges(symbols[..i], latest, prev)
    {
      assert symbols[..i + 1][..i] == symbols[..i];
      var sym := symbols[i];
      if sym !in latest.rates {
        continue;
      }
      var rate := latest.rates[sym];
      var prevRate := DictGet(prev.rates, sym, rate);
      results := results + [FxRecord(sym, rate, PctChange(rate, prevRate), latest.date)];
    }
    assert symbols[..|symbols|] == symbols;
  }

  /**
   * The part of `fetch_fx_rates` after the history is parsed. A clash of dates
   * stops the sort before anything else happens.
   */
  method LatestChanges(daily: seq<DailyRates>, symbols: seq<string>) returns (r: Result<seq<FxRecord>, FxError>)
    ensures r == Failure(TypeError) <==> ClashingDates(daily)
    ensures r == Failure(IndexError) <==> !ClashingDates(daily) && |daily| < 2
    ensures r.Success? ==> r.value == FxChanges(symbols, NewestFirst(daily)[0], NewestFirst(daily)[1])
  {
    if ClashingDates(daily) {
      return Failure(TypeError);
    }
    var a := new DailyRates[|daily|](i requires 0 <= i < |daily| => daily[i]);
    assert a[..] == daily;
    SortNewestFirst(a);
    if a.Length < 2 {
      return Failure(IndexError);
    }
    var results := ChangesFor(symbols, a[0], a[1]);
    return Success(results);
  }
}
