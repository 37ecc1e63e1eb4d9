/**
 * The aggregate part of scan_breakout_pro (stock2.py): run the per-ticker
 * evaluation over the whole universe, collect the passing candidates in
 * universe order, sort them by lots (largest first, equal lots keeping their
 * order, as Python's stable sorted(..., reverse=True) does) and keep five.
 *
 * The downloaded data is a map from ticker to its rows; a ticker the download
 * did not return is absent from the map.
 */
module Screener {
  import opened Wrappers
  import opened Universe
  import opened Indicators

  type MarketData = map<string, seq<Row>>

  const MaxPicks: nat := 5

  /** One iteration of the scan loop: a missing ticker is skipped like any other failure. */
  function EvaluateTicker(ticker: string, data: MarketData): (r: Result<Candidate, Skip>)
    ensures ticker !in data ==> r == Err(NoData)
    ensures r.Ok? ==> ticker in data && Sound(ticker, DropIncomplete(data[ticker]), r.value)
  {
    if ticker in data then Evaluate(ticker, data[ticker]) else Err(NoData)
  }

  /** The results list after a loop that appends every Ok outcome of `eval` over `tickers`, in visiting order. */
  function Collect(tickers: seq<string>, eval: string -> Result<Candidate, Skip>): (r: seq<Candidate>)
    ensures |r| <= |tickers|
  {
    if tickers == [] then []
    else
      var earlier := Collect(tickers[..|tickers| - 1], eval);
      match eval(tickers[|tickers| - 1])
      case Ok(c) => earlier + [c]
      case Err(_) => earlier
  }

  /** A record is collected exactly when some visited ticker evaluates to it. */
  lemma {:induction false} CollectAdmitted(tickers: seq<string>, eval: string -> Result<Candidate, Skip>, c: Candidate)
    ensures c in Collect(tickers, eval) <==> exists t :: t in tickers && eval(t) == Ok(c)
  {
    if tickers != [] {
      var front, last := tickers[..|tickers| - 1], tickers[|tickers| - 1];
      var e := eval(last);
      CollectAdmitted(front, eval, c);
      assert tickers == front + [last];
      assert Collect(tickers, eval) == Collect(front, eval) + (if e.Ok? then [e.value] else []);
      if e == Ok(c) {
        assert last in tickers;
      } else if t :| t in tickers && eval(t) == Ok(c) {
        assert t in front;
      }
    }
  }

  /** The results list of scan_breakout_pro after the loop has visited `tickers`. */
  function Candidates(tickers: seq<string>, data: MarketData): (r: seq<Candidate>)
    ensures |r| <= |tickers|
  {
    Collect(tickers, t => EvaluateTicker(t, data))
  }

  /** A candidate is collected exactly when some visited ticker evaluates to it. */
  lemma CandidatesAdmitted(tickers: seq<string>, data: MarketData, c: Candidate)
    ensures c in Candidates(tickers, data) <==>
      exists t :: t in tickers && EvaluateTicker(t, data) == Ok(c)
  {
    CollectAdmitted(tickers, t => EvaluateTicker(t, data), c);
  }

  // ---------------------------------------------------------------------------
  // Ranking
  // ---------------------------------------------------------------------------

  predicate NonIncreasing(s: seq<Candidate>)
  {
    forall i, j :: 0 <= i < j < |s| ==> s[i].lots >= s[j].lots
  }

  /** The candidates with a given lot count, in their order. */
  function WithLots(s: seq<Candidate>, k: int): seq<Candidate>
  {
    if s == [] then []
    else (if s[0].lots == k then [s[0]] else []) + WithLots(s[1..], k)
  }

  /** Place x in front of the first element with no more lots than x. */
  function Insert(x: Candidate, s: seq<Candidate>): (r: seq<Candidate>)
    requires NonIncreasing(s)
    ensures NonIncreasing(r)
    ensures multiset(r) == multiset(s) + multiset{x}
    ensures |r| == |s| + 1
    ensures r[0] == x || (s != [] && r[0] == s[0])
  {
    if s == [] || s[0].lots <= x.lots then [x] + s
    else
      var rest := Insert(x, s[1..]);
      ConsNonIncreasing(s[0], rest);
      assert s == [s[0]] + s[1..];
      assert multiset([s[0]] + rest) == multiset{s[0]} + multiset(rest);
      [s[0]] + rest
  }

  /** A sorted sequence stays sorted under a head with at least as many lots as its first element. */
  lemma ConsNonIncreasing(h: Candidate, s: seq<Candidate>)
    requires NonIncreasing(s)
    requires s != [] ==> h.lots >= s[0].lots
    ensures NonIncreasing([h] + s)
  {
    var r := [h] + s;
    forall i, j | 0 <= i < j < |r|
      ensures r[i].lots >= r[j].lots
    {
      if i == 0 {
        assert r[j] == s[j - 1];
      } else {
        assert r[i] == s[i - 1] && r[j] == s[j - 1];
      }
    }
  }

  /** sorted(results, key=lots, reverse=True). */
  function SortByLots(s: seq<Candidate>): (r: seq<Candidate>)
    ensures NonIncreasing(r)
    ensures multiset(r) == multiset(s)
    ensures |r| == |s|
  {
    if s == [] then []
    else
      assert s == [s[0]] + s[1..];
      Insert(s[0], SortByLots(s[1..]))
  }

  lemma {:induction false} WithLotsAppend(a: seq<Candidate>, b: seq<Candidate>, k: int)
    ensures WithLots(a + b, k) == WithLots(a, k) + WithLots(b, k)
  {
    if a != [] {
      assert (a + b)[0] == a[0];
      assert (a + b)[1..] == a[1..] + b;
      WithLotsAppend(a[1..], b, k);
    } else {
      assert a + b == b;
    }
  }

  lemma WithLotsCons(y: Candidate, t: seq<Candidate>, k: int)
    ensures WithLots([y] + t, k) == (if y.lots == k then [y] else []) + WithLots(t, k)
  {
    assert ([y] + t)[0] == y;
    assert ([y] + t)[1..] == t;
  }

  /** When the head has more lots than x, Insert keeps the head in front. */
  lemma InsertBehind(x: Candidate, s: seq<Candidate>)
    requires NonIncreasing(s) && s != [] && s[0].lots > x.lots
    ensures NonIncreasing(s[1..])
    ensures Insert(x, s) == [s[0]] + Insert(x, s[1..])
  {
  }

  lemma {:induction false} InsertStable(x: Candidate, s: seq<Candidate>, k: int)
    requires NonIncreasing(s)
    ensures WithLots(Insert(x, s), k) == WithLots([x], k) + WithLots(s, k)
  {
    if s == [] || s[0].lots <= x.lots {
      WithLotsAppend([x], s, k);
    } else {
      var head, tail := s[0], s[1..];
      assert s == [head] + tail;
      InsertBehind(x, s);
      InsertStable(x, tail, k);
      PassBehind(x, head, tail, Insert(x, tail), k);
    }
  }

  /**
   * x placed behind a head with more lots than x: since at most one of the two
   * has k lots, the k-lot records come out in the same order as with x in front.
   */
  lemma PassBehind(x: Candidate, head: Candidate, tail: seq<Candidate>, rest: seq<Candidate>, k: int)
    requires head.lots > x.lots
    requires WithLots(rest, k) == WithLots([x], k) + WithLots(tail, k)
    ensures WithLots([head] + rest, k) == WithLots([x], k) + WithLots([head] + tail, k)
  {
    WithLotsCons(head, rest, k);
    WithLotsCons(head, tail, k);
    WithLotsCons(x, [], k);
    assert [x] + [] == [x];
    if x.lots != k {
      assert WithLots([x], k) == [];
    }
  }

  /** The sort is stable: candidates with equal lots keep their relative order. */
  lemma {:induction false} SortStable(s: seq<Candidate>, k: int)
    ensures WithLots(SortByLots(s), k) == WithLots(s, k)
  {
    if s != [] {
      var head, tail := s[0], s[1..];
      var sorted := SortByLots(tail);
      assert s == [head] + tail;
      calc {
        WithLots(SortByLots(s), k);
        WithLots(Insert(head, sorted), k);
        { InsertStable(head, sorted, k); }
        WithLots([head], k) + WithLots(sorted, k);
        { SortStable(tail, k); }
        WithLots([head], k) + WithLots(tail, k);
        { WithLotsAppend([head], tail, k); }
        WithLots(s, k);
      }
    }
  }

  /** In a non-increasing sequence, what a prefix leaves out has no more lots than what it keeps. */
  lemma PrefixKeepsLargest(sorted: seq<Candidate>, n: nat)
    requires NonIncreasing(sorted) && n <= |sorted|
    ensures forall x, p :: x in sorted && p in sorted[..n] && x !in sorted[..n] ==> x.lots <= p.lots
  {
  }

  lemma SameElements(a: seq<Candidate>, b: seq<Candidate>)
    requires multiset(a) == multiset(b)
    ensures forall x :: x in a <==> x in b
  {
    forall x ensures x in a <==> x in b {
      assert x in a <==> x in multiset(a);
      assert x in b <==> x in multiset(b);
    }
  }

  /** sorted(...)[:5]: the five largest by lots, largest first. */
  function Shortlist(cands: seq<Candidate>): (r: seq<Candidate>)
    ensures |r| == if |cands| < MaxPicks then |cands| else MaxPicks
    ensures NonIncreasing(r)
  {
    var sorted := SortByLots(cands);
    sorted[..if |sorted| < MaxPicks then |sorted| else MaxPicks]
  }

  /** The shortlist is drawn from the candidates and no candidate left out has more lots than one kept. */
  lemma ShortlistKeepsLargest(cands: seq<Candidate>)
    ensures multiset(Shortlist(cands)) <= multiset(cands)
    ensures forall x, p :: x in cands && p in Shortlist(cands) && x !in Shortlist(cands) ==> x.lots <= p.lots
  {
    var sorted := SortByLots(cands);
    var r := Shortlist(cands);
    assert r == sorted[..|r|];
    PrefixSubMultiset(sorted, |r|);
    PrefixKeepsLargest(sorted, |r|);
    SameElements(cands, sorted);
  }

  lemma PrefixSubMultiset(s: seq<Candidate>, n: nat)
    requires n <= |s|
    ensures multiset(s[..n]) <= multiset(s)
  {
    assert s == s[..n] + s[n..];
    assert multiset(s) == multiset(s[..n]) + multiset(s[n..]);
  }

  // ---------------------------------------------------------------------------
  // The scan
  // ---------------------------------------------------------------------------

  /** c was built for some universe ticker from at least MinBars complete bars. */
  predicate Picked(data: MarketData, c: Candidate)
  {
    exists t :: t in StockList() && t in data && Sound(t, DropIncomplete(data[t]), c)
  }

  lemma CollectedIsPicked(data: MarketData, c: Candidate)
    requires c in Candidates(StockList(), data)
    ensures Picked(data, c)
    ensures exists t :: t in StockList() && EvaluateTicker(t, data) == Ok(c)
  {
    CandidatesAdmitted(StockList(), data, c);
    var t :| t in StockList() && EvaluateTicker(t, data) == Ok(c);
    assert t in data && Sound(t, DropIncomplete(data[t]), c);
  }

  /** Every shortlisted candidate was built soundly for some universe ticker. */
  lemma ShortlistPicked(data: MarketData)
    ensures forall c :: c in Shortlist(Candidates(StockList(), data)) ==> Picked(data, c)
  {
    var cands := Candidates(StockList(), data);
    ShortlistKeepsLargest(cands);
    forall c | c in Shortlist(cands) ensures Picked(data, c) {
      assert c in multiset(Shortlist(cands));
      CollectedIsPicked(data, c);
    }
  }

  /** One more visited ticker appends its record when it passes and nothing otherwise. */
  lemma CandidatesStep(tickers: seq<string>, i: nat, data: MarketData)
    requires i < |tickers|
    ensures var e := EvaluateTicker(tickers[i], data);
      Candidates(tickers[..i + 1], data) ==
        Candidates(tickers[..i], data) + (if e.Ok? then [e.value] else [])
  {
    assert tickers[..i + 1][..i] == tickers[..i];
  }

  /** scan_breakout_pro over the downloaded data. */
  method ScanBreakout(data: MarketData) returns (picks: seq<Candidate>)
    ensures picks == Shortlist(Candidates(StockList(), data))
    ensures |picks| <= MaxPicks
    ensures NonIncreasing(picks)
    ensures forall c :: c in picks ==> Picked(data, c)
  {
    var tickers := StockList();
    var results: seq<Candidate> := [];
    var i := 0;
    while i < |tickers|
      invariant 0 <= i <= |tickers|
      invariant results == Candidates(tickers[..i], data)
    {
      var outcome := EvaluateTicker(tickers[i], data);
      CandidatesStep(tickers, i, data);
      if outcome.Ok? {
        results := results + [outcome.value];
      }
      i := i + 1;
    }
    assert tickers[..i] == tickers;
    picks := Shortlist(results);
    ShortlistPicked(data);
  }

  /** A collected candidate never carries the code of a universe ticker that has too little data. */
  lemma CollectedCode(data: MarketData, code: nat, c: Candidate)
    requires InUniverse(code)
    requires Ticker(code) !in data || |DropIncomplete(data[Ticker(code)])| < MinBars
    requires c in Candidates(StockList(), data)
    ensures c.code != Decimal(code)
  {
    CollectedFrom(StockList(), data, c);
    var t :| t in StockList() && t in data && |DropIncomplete(data[t])| >= MinBars && c.code == RemoveSuffix(t);
    if c.code == Decimal(code) {
      StockListCode(t, code);
    }
  }

  /** A collected candidate comes from a visited ticker with enough clean rows, and carries that ticker's code. */
  lemma CollectedFrom(tickers: seq<string>, data: MarketData, c: Candidate)
    requires c in Candidates(tickers, data)
    ensures exists t :: t in tickers && t in data && |DropIncomplete(data[t])| >= MinBars && c.code == RemoveSuffix(t)
  {
    CandidatesAdmitted(tickers, data, c);
    var t :| t in tickers && EvaluateTicker(t, data) == Ok(c);
    AdmittedTicker(t, data, c);
  }

  /** What the scan reads off an admitted ticker: it was downloaded with enough clean rows, and the record carries its code. */
  lemma AdmittedTicker(t: string, data: MarketData, c: Candidate)
    requires EvaluateTicker(t, data) == Ok(c)
    ensures t in data && |DropIncomplete(data[t])| >= MinBars
    ensures c.code == RemoveSuffix(t)
  {
  }

  /**
   * A universe ticker with fewer than MinBars complete rows (or none at all)
   * never appears in the shortlist, whatever its prices: no pick carries its code.
   */
  lemma ShortHistoryNeverPicked(data: MarketData, code: nat)
    requires InUniverse(code)
    requires Ticker(code) !in data || |DropIncomplete(data[Ticker(code)])| < MinBars
    ensures forall c :: c in Shortlist(Candidates(StockList(), data)) ==> c.code != Decimal(code)
  {
    var cands := Candidates(StockList(), data);
    ShortlistKeepsLargest(cands);
    forall c | c in Shortlist(cands)
      ensures c.code != Decimal(code)
    {
      assert c in multiset(Shortlist(cands));
      CollectedCode(data, code, c);
    }
  }
}
