/**
 * The paper-trading ledger of stock2.py: a cash balance and a portfolio
 * mapping a stock code to its lot count and the price paid for the first
 * purchase. The page mutates both in place; `Account` does the same, and
 * each of its methods is specified by a pure transition on `Book`.
 */
module Ledger {
  import opened Indicators

  const StartingBalance: real := 1000000.0

  /** One portfolio entry: [lots, cost]. */
  datatype Holding = Holding(lots: int, cost: real)

  type Portfolio = map<string, Holding>

  /** The whole account state: session_state.balance and session_state.portfolio. */
  datatype Book = Book(balance: real, portfolio: Portfolio)

  /** shares * 1000 * price: what buying `shares` lots at `price` costs. */
  function BuyCost(shares: int, price: real): real
  {
    (shares * SharesPerLot) as real * price
  }

  /** info[0] * 1000 * info[1]: a holding valued at its recorded cost. */
  function HoldingValue(h: Holding): real
  {
    BuyCost(h.lots, h.cost)
  }

  /** The sum of every holding's value at cost; with no negative lots or costs it is never negative. */
  ghost function CostValue(p: Portfolio): (v: real)
    ensures CostsNonNegative(p) ==> v >= 0.0
    decreases |p|
  {
    if p == map[] then 0.0
    else
      var code :| code in p;
      assert |p - {code}| < |p| by { RemoveShrinks(p, code); }
      HoldingValueNonNegative(p[code]);
      assert CostsNonNegative(p) ==> CostsNonNegative(p - {code});
      HoldingValue(p[code]) + CostValue(p - {code})
  }

  lemma HoldingValueNonNegative(h: Holding)
    ensures h.lots >= 0 && h.cost >= 0.0 ==> HoldingValue(h) >= 0.0
  {
    if h.lots >= 0 && h.cost >= 0.0 {
      assert (h.lots * SharesPerLot) as real >= 0.0;
    }
  }

  lemma RemoveShrinks(p: Portfolio, code: string)
    requires code in p
    ensures |p - {code}| == |p| - 1
  {
  }

  /** The sum does not depend on which holding is taken first. */
  lemma {:induction false} CostValueRemove(p: Portfolio, code: string)
    requires code in p
    ensures CostValue(p) == HoldingValue(p[code]) + CostValue(p - {code})
    decreases |p|
  {
    var first :| first in p && CostValue(p) == HoldingValue(p[first]) + CostValue(p - {first});
    if first != code {
      RemoveShrinks(p, first);
      RemoveShrinks(p, code);
      CostValueRemove(p - {first}, code);
      CostValueRemove(p - {code}, first);
      assert p - {first} - {code} == p - {code} - {first};
    }
  }

  /** Cash plus holdings at cost. */
  ghost function Equity(b: Book): real
  {
    b.balance + CostValue(b.portfolio)
  }

  /**
   * No debt and no empty or negative positions. Every buy keeps it, at any
   * price; liquidation keeps it for books whose recorded costs are not
   * negative (`CostsNonNegative`), which is every book reached from the
   * opening one through buys at non-negative prices.
   */
  predicate Sane(b: Book)
  {
    b.balance >= 0.0 && forall code :: code in b.portfolio ==> b.portfolio[code].lots >= 1
  }

  /** No position has negative lots or was recorded at a negative price. */
  predicate CostsNonNegative(p: Portfolio)
  {
    forall code :: code in p ==> p[code].lots >= 0 && p[code].cost >= 0.0
  }

  // ---------------------------------------------------------------------------
  // Transitions
  // ---------------------------------------------------------------------------

  /** The starting state, and the state the reset button restores. */
  function Opening(): (b: Book)
    ensures Sane(b) && CostsNonNegative(b.portfolio)
    ensures b.portfolio == map[] && b.balance == StartingBalance
  {
    Book(StartingBalance, map[])
  }

  /**
   * A buy order for `shares` lots of `code` at `price`: it goes through only
   * if the balance covers the cost; a code already held gets more lots at its
   * original cost, a new code is recorded at this price.
   */
  function AfterBuy(b: Book, code: string, shares: int, price: real): (r: Book)
    ensures b.balance >= BuyCost(shares, price) ==> r.balance >= 0.0
    ensures b.balance >= BuyCost(shares, price) ==>
      && r.balance == b.balance - BuyCost(shares, price)
      && code in r.portfolio
      && r.portfolio.Keys == b.portfolio.Keys + {code}
      && (code in b.portfolio ==>
            r.portfolio[code] == Holding(b.portfolio[code].lots + shares, b.portfolio[code].cost))
      && (code !in b.portfolio ==> r.portfolio[code] == Holding(shares, price))
      && (forall other :: other in b.portfolio && other != code ==>
            r.portfolio[other] == b.portfolio[other])
    ensures b.balance < BuyCost(shares, price) ==> r == b
  {
    var cost := BuyCost(shares, price);
    if b.balance >= cost then
      var h := if code in b.portfolio
               then Holding(b.portfolio[code].lots + shares, b.portfolio[code].cost)
               else Holding(shares, price);
      Book(b.balance - cost, b.portfolio[code := h])
    else b
  }

  /** Selling everything at cost: the cash grows by the portfolio's cost value and the portfolio empties. */
  ghost function AfterLiquidate(b: Book): (r: Book)
    ensures r.portfolio == map[]
    ensures Equity(r) == Equity(b)
  {
    Book(b.balance + CostValue(b.portfolio), map[])
  }

  /** A buy of one lot or more keeps the book sane, whatever the price. */
  lemma BuyKeepsSane(b: Book, code: string, shares: int, price: real)
    requires Sane(b) && shares >= 1
    ensures Sane(AfterBuy(b, code, shares, price))
  {
  }

  /** A buy of one lot or more at a non-negative price records no negative lots or cost. */
  lemma BuyKeepsCostsNonNegative(b: Book, code: string, shares: int, price: real)
    requires CostsNonNegative(b.portfolio) && shares >= 1 && price >= 0.0
    ensures CostsNonNegative(AfterBuy(b, code, shares, price).portfolio)
  {
  }

  /** Liquidation keeps the book sane as long as no position was recorded at a negative cost. */
  lemma LiquidateKeepsSane(b: Book)
    requires Sane(b) && CostsNonNegative(b.portfolio)
    ensures Sane(AfterLiquidate(b)) && CostsNonNegative(AfterLiquidate(b).portfolio)
    ensures AfterLiquidate(b).balance >= b.balance
  {
  }

  /**
   * What a successful buy does to equity (cash plus holdings at cost): a new
   * code moves money from cash into the portfolio and keeps equity; a code
   * already held is topped up at its old cost, so equity moves by the
   * difference between that cost and the price actually paid.
   */
  lemma BuyEquity(b: Book, code: string, shares: int, price: real)
    requires b.balance >= BuyCost(shares, price)
    ensures code !in b.portfolio ==> Equity(AfterBuy(b, code, shares, price)) == Equity(b)
    ensures code in b.portfolio ==>
      Equity(AfterBuy(b, code, shares, price)) ==
        Equity(b) + BuyCost(shares, b.portfolio[code].cost) - BuyCost(shares, price)
  {
    var r := AfterBuy(b, code, shares, price);
    var p, q := b.portfolio, r.portfolio;
    assert r.balance == b.balance - BuyCost(shares, price);
    CostValueRemove(q, code);
    assert q - {code} == p - {code};
    if code in p {
      CostValueRemove(p, code);
      TopUpValue(p[code], shares);
    } else {
      assert p - {code} == p;
    }
  }

  lemma TopUpValue(h: Holding, shares: int)
    ensures HoldingValue(Holding(h.lots + shares, h.cost)) == HoldingValue(h) + BuyCost(shares, h.cost)
  {
  }

  // ---------------------------------------------------------------------------
  // The account object of the page
  // ---------------------------------------------------------------------------

  class Account {
    var balance: real
    var portfolio: Portfolio

    function State(): Book
      reads this
    {
      Book(balance, portfolio)
    }

    /** The session-state initialisation: one million in cash, nothing held. */
    constructor ()
      ensures State() == Opening()
    {
      balance := StartingBalance;
      portfolio := map[];
    }

    /** The reset button. */
    method Reset()
      modifies this
      ensures State() == Opening()
    {
      balance := StartingBalance;
      portfolio := map[];
    }

    /** The confirm-purchase button: `shares` comes from a number input bounded to 1..100. */
    method Buy(code: string, shares: int, price: real) returns (ok: bool)
      requires 1 <= shares <= 100
      modifies this
      ensures ok <==> old(balance) >= BuyCost(shares, price)
      ensures State() == AfterBuy(old(State()), code, shares, price)
      ensures !ok ==> unchanged(this)
    {
      var totalCost := BuyCost(shares, price);
      ok := balance >= totalCost;
      if ok {
        balance := balance - totalCost;
        if code in portfolio {
          portfolio := portfolio[code := Holding(portfolio[code].lots + shares, portfolio[code].cost)];
        } else {
          portfolio := portfolio[code := Holding(shares, price)];
        }
      }
    }

    /** The sell-everything button: every holding is sold back at its recorded cost. */
    method Liquidate()
      modifies this
      ensures State() == AfterLiquidate(old(State()))
    {
      var total := 0.0;
      var rest := portfolio;
      while rest != map[]
        invariant unchanged(this)
        invariant total + CostValue(rest) == CostValue(portfolio)
        decreases |rest|
      {
        var code :| code in rest;
        total := total + HoldingValue(rest[code]);
        CostValueRemove(rest, code);
        RemoveShrinks(rest, code);
        rest := rest - {code};
      }
      assert CostValue(rest) == 0.0;
      balance := balance + total;
      portfolio := map[];
    }
  }
}
