/**
 * The ticker universe scanned by the screener and the industry classification
 * of a ticker (stock2.py, get_extended_stock_list and get_industry_v2).
 *
 * A ticker is the decimal code of a listed company followed by the exchange
 * suffix ".TW", for example "2330.TW".
 */
module Universe {
  import opened Wrappers

  // ---------------------------------------------------------------------------
  // Decimal codes
  // ---------------------------------------------------------------------------

  predicate IsDigit(c: char) { '0' <= c <= '9' }

  predicate AllDigits(s: string) { forall i :: 0 <= i < |s| ==> IsDigit(s[i]) }

  function DigitChar(d: nat): char
    requires d < 10
  {
    "0123456789"[d]
  }

  function DigitValue(c: char): nat
    requires IsDigit(c)
  {
    (c as int - '0' as int) as nat
  }

  /** The decimal spelling of n, without leading zeros (what f"{n}" prints). */
  function Decimal(n: nat): (s: string)
    ensures |s| > 0 && AllDigits(s)
  {
    if n < 10 then [DigitChar(n)] else Decimal(n / 10) + [DigitChar(n % 10)]
  }

  /** The value of a string of decimal digits, leading zeros allowed. */
  function DigitsValue(s: string): nat
    requires AllDigits(s)
  {
    if s == [] then 0 else DigitsValue(s[..|s| - 1]) * 10 + DigitValue(s[|s| - 1])
  }

  /**
   * Python's int() on a string, restricted to an optional sign followed by
   * one or more ASCII digits; anything else is the ValueError case (None).
   */
  function ParseInt(s: string): (r: Option<int>)
    ensures s != [] && AllDigits(s) ==> r == Some(DigitsValue(s) as int)
    ensures |s| > 1 && (s[0] == '+' || s[0] == '-') && AllDigits(s[1..]) ==>
      r == Some(if s[0] == '-' then -(DigitsValue(s[1..]) as int) else DigitsValue(s[1..]) as int)
    ensures r.Some? ==> AllDigits(s) || (|s| > 1 && (s[0] == '+' || s[0] == '-') && AllDigits(s[1..]))
    ensures r.Some? ==> s != [] && '.' !in s
    ensures r.Some? && r.value < 0 ==> s[0] == '-'
  {
    if |s| > 0 && (s[0] == '+' || s[0] == '-') then
      var body := s[1..];
      if body != [] && AllDigits(body) then
        Some(if s[0] == '-' then -(DigitsValue(body) as int) else DigitsValue(body) as int)
      else None
    else if s != [] && AllDigits(s) then Some(DigitsValue(s) as int)
    else None
  }

  /** Spellings int() rejects: letters, a trailing letter, nothing, a bare sign, a dotted ticker. */
  lemma ParseIntRejects()
    ensures ParseInt("ABC") == None && ParseInt("12a") == None && ParseInt("") == None
    ensures ParseInt("-") == None && ParseInt("2330.TW") == None
  {
    assert !IsDigit("ABC"[0]);
    assert !IsDigit("12a"[2]);
    assert !IsDigit("2330.TW"[4]);
  }

  /** Spellings int() accepts: a sign is read, leading zeros are dropped. */
  lemma ParseIntAccepts()
    ensures ParseInt("-12") == Some(-12) && ParseInt("+7") == Some(7) && ParseInt("0050") == Some(50)
  {
    assert DigitsValue("12") == 12 by { assert "12"[..1] == "1"; }
    assert "-12"[1..] == "12";
    assert "+7"[1..] == "7";
    assert DigitsValue("0050") == 50 by {
      assert DigitsValue("00") == 0 by { assert "00"[..1] == "0"; }
      assert "0050"[..3] == "005" && "005"[..2] == "00";
    }
  }

  lemma {:induction false} DecimalRoundTrip(n: nat)
    ensures DigitsValue(Decimal(n)) == n
  {
    if n >= 10 {
      var s := Decimal(n / 10) + [DigitChar(n % 10)];
      assert s[..|s| - 1] == Decimal(n / 10);
      DecimalRoundTrip(n / 10);
    }
  }

  lemma ParseDecimal(n: nat)
    ensures ParseInt(Decimal(n)) == Some(n as int)
  {
    DecimalRoundTrip(n);
  }

  /** Distinct codes are spelt differently, so a ticker determines its code. */
  lemma DecimalInjective(m: nat, n: nat)
    requires Decimal(m) == Decimal(n)
    ensures m == n
  {
    DecimalRoundTrip(m);
    DecimalRoundTrip(n);
  }

  // ---------------------------------------------------------------------------
  // Tickers
  // ---------------------------------------------------------------------------

  const Suffix: string := ".TW"

  /** f"{code}.TW": the code's digits, then the suffix; both ways of reading the code back recover it. */
  function Ticker(code: nat): (t: string)
    ensures BeforeDot(t) == Decimal(code)
    ensures RemoveSuffix(t) == Decimal(code)
  {
    DecimalHasNoDot(code);
    BeforeDotOfDotFree(Decimal(code), Suffix);
    RemoveSuffixOfDotFree(Decimal(code));
    Decimal(code) + Suffix
  }

  /** ticker.split(".")[0]: everything before the first '.', or all of it. */
  function BeforeDot(s: string): (r: string)
    ensures r <= s && '.' !in r
    ensures |r| < |s| ==> s[|r|] == '.'
  {
    if s == [] || s[0] == '.' then [] else [s[0]] + BeforeDot(s[1..])
  }

  /** ticker.replace(".TW", ""): every non-overlapping ".TW", scanned left to right, removed. */
  function RemoveSuffix(s: string): (r: string)
    ensures |r| <= |s|
    ensures '.' !in s ==> r == s
  {
    if |s| >= 3 && s[..3] == Suffix then RemoveSuffix(s[3..])
    else if s == [] then []
    else [s[0]] + RemoveSuffix(s[1..])
  }

  lemma {:induction false} BeforeDotOfDotFree(s: string, rest: string)
    requires '.' !in s && rest != [] && rest[0] == '.'
    ensures BeforeDot(s + rest) == s
  {
    if s != [] {
      assert (s + rest)[1..] == s[1..] + rest;
      BeforeDotOfDotFree(s[1..], rest);
    }
  }

  lemma {:induction false} RemoveSuffixOfDotFree(s: string)
    requires '.' !in s
    ensures RemoveSuffix(s + Suffix) == s
  {
    if s == [] {
      assert RemoveSuffix(Suffix[3..]) == [];
    } else {
      assert (s + Suffix)[0] == s[0];
      assert (s + Suffix)[1..] == s[1..] + Suffix;
      RemoveSuffixOfDotFree(s[1..]);
    }
  }

  lemma DecimalHasNoDot(n: nat)
    ensures '.' !in Decimal(n)
  {
  }

  /** The first '.'-separated field of a ticker is its code, and it parses back to the code. */
  lemma TickerFields(code: nat)
    ensures BeforeDot(Ticker(code)) == Decimal(code)
    ensures ParseInt(BeforeDot(Ticker(code))) == Some(code as int)
  {
    ParseDecimal(code);
  }

  lemma TickerInjective(m: nat, n: nat)
    requires Ticker(m) == Ticker(n)
    ensures m == n
  {
    TickerFields(m);
    TickerFields(n);
    DecimalInjective(m, n);
  }

  // ---------------------------------------------------------------------------
  // The universe
  // ---------------------------------------------------------------------------

  /** Python's range(lo, hi). */
  function Range(lo: nat, hi: nat): (r: seq<nat>)
    ensures |r| == if lo <= hi then hi - lo else 0
    ensures forall i :: 0 <= i < |r| ==> r[i] == lo + i
  {
    seq(if lo <= hi then hi - lo else 0, i requires 0 <= i => lo + i)
  }

  /** The four code ranges of the scanned universe. */
  predicate InUniverse(code: int)
  {
    || 1501 <= code < 1600
    || 2301 <= code < 2499
    || 2601 <= code < 2640
    || 6101 <= code < 6299
  }

  function Codes(): seq<nat>
  {
    Range(1501, 1600) + Range(2301, 2499) + Range(2601, 2640) + Range(6101, 6299)
  }

  /** get_extended_stock_list: every code of the four ranges, in order, as a ticker. */
  function StockList(): (r: seq<string>)
    ensures |r| == |Codes()|
    ensures forall i :: 0 <= i < |r| ==> RemoveSuffix(r[i]) == Decimal(Codes()[i])
  {
    seq(|Codes()|, i requires 0 <= i < |Codes()| => Ticker(Codes()[i]))
  }

  lemma CodesShape()
    ensures |Codes()| == 534
    ensures forall i :: 0 <= i < |Codes()| ==> InUniverse(Codes()[i])
    ensures forall i, j :: 0 <= i < j < |Codes()| ==> Codes()[i] < Codes()[j]
    ensures forall code :: InUniverse(code) ==> code in Codes()
  {
    var a, b, c, d := Range(1501, 1600), Range(2301, 2499), Range(2601, 2640), Range(6101, 6299);
    var all := a + b + c + d;
    assert all == Codes();
    forall i | 0 <= i < |all|
      ensures InUniverse(all[i])
      ensures i < 99 ==> all[i] == 1501 + i
      ensures 99 <= i < 297 ==> all[i] == 2301 + (i - 99)
      ensures 297 <= i < 336 ==> all[i] == 2601 + (i - 297)
      ensures 336 <= i ==> all[i] == 6101 + (i - 336)
    {
      if i < 99 { assert all[i] == a[i]; }
      else if i < 297 { assert all[i] == b[i - 99]; }
      else if i < 336 { assert all[i] == c[i - 297]; }
      else { assert all[i] == d[i - 336]; }
    }
    forall code | InUniverse(code) ensures code in all {
      var i := if code < 1600 then code - 1501
               else if code < 2499 then code - 2301 + 99
               else if code < 2640 then code - 2601 + 297
               else code - 6101 + 336;
      assert all[i] == code;
    }
  }

  lemma StockListElements()
    ensures |StockList()| == 534
    ensures forall i :: 0 <= i < |StockList()| ==>
      InUniverse(Codes()[i]) && StockList()[i] == Ticker(Codes()[i])
  {
  }

  /** A ticker of the stock list is the only one of its code. */
  lemma StockListCode(t: string, code: nat)
    requires t in StockList() && RemoveSuffix(t) == Decimal(code)
    ensures t == Ticker(code)
  {
    var i :| 0 <= i < |StockList()| && StockList()[i] == t;
    DecimalInjective(Codes()[i], code);
  }

  /** The stock list holds the ticker of every universe code. */
  lemma StockListComplete(code: nat)
    requires InUniverse(code)
    ensures Ticker(code) in StockList()
  {
    CodesShape();
    StockListElements();
    var i :| 0 <= i < |Codes()| && Codes()[i] == code;
    assert StockList()[i] == Ticker(code);
  }

  /** No ticker appears twice in the stock list. */
  lemma StockListDistinct(i: int, j: int)
    requires 0 <= i < j < |StockList()|
    ensures StockList()[i] != StockList()[j]
  {
    CodesShape();
    StockListElements();
    if StockList()[i] == StockList()[j] {
      TickerInjective(Codes()[i], Codes()[j]);
    }
  }

  // ---------------------------------------------------------------------------
  // Industry classification
  // ---------------------------------------------------------------------------

  datatype Industry = WaferFoundry | Electronics | Electrical | Traditional | Unknown
  {
    function Label(): string
    {
      match this
      case WaferFoundry => "半導體-晶圓代工"
      case Electronics => "電子/半導體"
      case Electrical => "電機/機電"
      case Traditional => "其他/傳產"
      case Unknown => "未知"
    }
  }

  /** The ordered if-chain of get_industry_v2 on a parsed code. */
  function Classify(code: int): (r: Industry)
    ensures r != Unknown
    ensures r == WaferFoundry <==> code == 2330
    ensures r == Electronics <==> 2301 <= code <= 2499 && code != 2330
    ensures r == Electrical <==> 1501 <= code <= 1599
    ensures r == Traditional <==> !(2301 <= code <= 2499) && !(1501 <= code <= 1599)
  {
    if code == 2330 then WaferFoundry
    else if 2301 <= code <= 2499 then Electronics
    else if 1501 <= code <= 1599 then Electrical
    else Traditional
  }

  /** get_industry_v2: Unknown exactly when the text before the first '.' is not an integer. */
  function IndustryOf(ticker: string): (r: Industry)
    ensures r == Unknown <==> ParseInt(BeforeDot(ticker)).None?
  {
    match ParseInt(BeforeDot(ticker))
    case None => Unknown
    case Some(code) => Classify(code)
  }

  /** A formatted ticker is classified by its own code; in particular "2330.TW" is a wafer foundry. */
  lemma IndustryOfTicker(code: nat)
    ensures IndustryOf(Ticker(code)) == Classify(code)
    ensures code == 2330 ==> IndustryOf(Ticker(code)) == WaferFoundry
  {
    TickerFields(code);
  }

  /** Text before the '.' that is not an integer gives Unknown. */
  lemma UnknownIndustryExamples()
    ensures IndustryOf("ABC.TW") == Unknown && IndustryOf(".TW") == Unknown
  {
    assert BeforeDot("ABC.TW") == "ABC" by {
      assert BeforeDot("C.TW") == "C" by { assert "C.TW"[1..] == ".TW"; }
      assert "ABC.TW"[1..] == "BC.TW" && "BC.TW"[1..] == "C.TW";
    }
    assert !IsDigit("ABC"[0]);
  }

  /** A signed integer before the '.' is classified like any other code. */
  lemma SignedIndustryExample()
    ensures IndustryOf("-12.TW") == Traditional
  {
    assert BeforeDot("-12.TW") == "-12" by {
      assert BeforeDot("2.TW") == "2" by { assert "2.TW"[1..] == ".TW"; }
      assert "-12.TW"[1..] == "12.TW" && "12.TW"[1..] == "2.TW";
    }
    assert ParseInt("-12") == Some(-12) by { ParseIntAccepts(); }
  }

  /** Every ticker of the stock list has a known industry, decided by the range it comes from. */
  lemma UniverseIndustries()
    ensures forall i :: 0 <= i < |StockList()| ==> IndustryOf(StockList()[i]) != Unknown
    ensures forall code: nat :: 1501 <= code < 1600 ==> IndustryOf(Ticker(code)) == Electrical
    ensures forall code: nat :: 2601 <= code < 2640 || 6101 <= code < 6299 ==>
      IndustryOf(Ticker(code)) == Traditional
  {
    StockListElements();
    forall i | 0 <= i < |StockList()| ensures IndustryOf(StockList()[i]) != Unknown {
      IndustryOfTicker(Codes()[i]);
    }
    forall code: nat | 1501 <= code < 1600 || 2601 <= code < 2640 || 6101 <= code < 6299
      ensures IndustryOf(Ticker(code)) == Classify(code)
    {
      IndustryOfTicker(code);
    }
  }
}
