/**
 * The application state behind the window: the two stocks the market
 * thread moves, the user's selection, balance and portfolio, and the
 * handlers of the Buy and Sell buttons.
 */
module App {
  import opened Wrappers
  import opened Market
  import opened Ledger

  const StartingBalance: int := 1000

  class StockApp {
    const stocks: seq<Stock>
    var selected: Option<nat>
    var balance: int
    var portfolio: map<string, int>

    /** The stock names, in list order; also the portfolio's key order. */
    function Names(): seq<string>
    {
      seq(|stocks|, i requires 0 <= i < |stocks| => stocks[i].name)
    }

    /**
     * Names are distinct, every stock's history ends at its price and that
     * price is at least the floor, the portfolio has exactly one entry per
     * stock and none negative, the balance is not negative, and a selection
     * points at a stock.
     */
    ghost predicate Valid()
      reads this, stocks
    {
      (forall i, j :: 0 <= i < j < |stocks| ==> stocks[i].name != stocks[j].name) &&
      (forall s :: s in stocks ==> s.Valid() && s.currentPrice >= Floor) &&
      (forall i :: 0 <= i < |stocks| ==> stocks[i].name in portfolio) &&
      (forall n :: n in portfolio ==> n in Names()) &&
      Sound(State()) &&
      (selected.Some? ==> selected.value < |stocks|)
    }

    /** The ledger part of the state. */
    function State(): Account
      reads this
    {
      Account(balance, portfolio)
    }

    /** The selected stock with its live price, if any. */
    function SelectedQuote(): Option<Quote>
      reads this, stocks
      requires selected.Some? ==> selected.value < |stocks|
    {
      match selected
      case None => None
      case Some(i) => Some(Quote(stocks[i].name, stocks[i].currentPrice))
    }

    constructor ()
      ensures |stocks| == 2 && fresh(stocks[0]) && fresh(stocks[1])
      ensures Valid()
      ensures stocks[0].name == "TechCorp" && stocks[0].currentPrice == 100 && stocks[0].priceHistory == [100]
      ensures stocks[1].name == "HealthPlus" && stocks[1].currentPrice == 50 && stocks[1].priceHistory == [50]
      ensures selected == None && balance == StartingBalance
      ensures portfolio == map["TechCorp" := 0, "HealthPlus" := 0]
    {
      var tech := new Stock("TechCorp", 100);
      var health := new Stock("HealthPlus", 50);
      stocks := [tech, health];
      selected := None;
      balance := StartingBalance;
      portfolio := map["TechCorp" := 0, "HealthPlus" := 0];
      new;
      assert Names() == ["TechCorp", "HealthPlus"];
    }

    /** Selecting the stock at row `index` of the list. */
    method Select(index: nat)
      requires Valid() && index < |stocks|
      modifies this`selected
      ensures Valid() && selected == Some(index)
    {
      selected := Some(index);
    }

    /**
     * The Buy button: settles at the selected stock's price at this moment,
     * or leaves the state unchanged and returns the warning.
     */
    method BuyStock() returns (warning: Option<Warning>)
      requires Valid()
      modifies this`balance, this`portfolio
      ensures Valid()
      ensures var r := Buy(old(State()), old(SelectedQuote()));
              if r.Ok? then State() == r.value && warning == None
              else State() == old(State()) && warning == Some(r.error)
    {
      if selected.Some? && balance >= stocks[selected.value].currentPrice {
        var stock := stocks[selected.value];
        balance := balance - stock.currentPrice;
        portfolio := portfolio[stock.name := portfolio[stock.name] + 1];
        warning := None;
      } else {
        warning := Some(NotEnoughBalance);
      }
    }

    /**
     * The Sell button: settles at the selected stock's price at this moment,
     * or leaves the state unchanged and returns the warning.
     */
    method SellStock() returns (warning: Option<Warning>)
      requires Valid()
      modifies this`balance, this`portfolio
      ensures Valid()
      ensures var r := Sell(old(State()), old(SelectedQuote()));
              if r.Ok? then State() == r.value && warning == None
              else State() == old(State()) && warning == Some(r.error)
    {
      if selected.Some? && portfolio[stocks[selected.value].name] > 0 {
        var stock := stocks[selected.value];
        balance := balance + stock.currentPrice;
        portfolio := portfolio[stock.name := portfolio[stock.name] - 1];
        warning := None;
      } else {
        warning := Some(NotOwned);
      }
    }

    /** One pass of the market thread over this application's stocks. */
    method MarketTick(changes: seq<int>)
      requires Valid()
      requires |changes| == |stocks| && InRange(changes)
      modifies stocks
      ensures Valid()
      ensures forall i :: 0 <= i < |stocks| ==>
                stocks[i].currentPrice == NextPrice(old(stocks[i].currentPrice), changes[i]) &&
                stocks[i].priceHistory == old(stocks[i].priceHistory) + [stocks[i].currentPrice]
    {
      SimulateMarketStep(stocks, changes);
    }

    /** The portfolio part of the balance label: held stocks, in portfolio order. */
    function PortfolioSummary(): (s: seq<(string, int)>)
      reads this, stocks
      requires Valid()
      ensures forall k :: 0 <= k < |s| ==> s[k].0 in portfolio && s[k].1 == portfolio[s[k].0] > 0
      ensures forall n :: n in portfolio && portfolio[n] > 0 ==> (n, portfolio[n]) in s
      ensures IsSubsequence(s, Entries(Names(), portfolio))
    {
      var s := Summary(Names(), portfolio);
      SummaryInOrder(Names(), portfolio);
      forall n | n in portfolio && portfolio[n] > 0 ensures (n, portfolio[n]) in s {
        SummaryComplete(Names(), portfolio, n);
      }
      s
    }
  }

  /** The buy and sell scenarios of a fresh application, at prices no tick has moved. */
  method TradeScenario()
  {
    var app := new StockApp();
    var w := app.SellStock();
    assert w == Some(NotOwned) && app.balance == 1000;
    app.Select(1);
    w := app.SellStock();
    assert w == Some(NotOwned) && app.portfolio["HealthPlus"] == 0;
    app.Select(0);
    w := app.BuyStock();
    assert w == None && app.balance == 900 && app.portfolio["TechCorp"] == 1;
    w := app.SellStock();
    assert w == None && app.balance == 1000 && app.portfolio["TechCorp"] == 0;
  }
}
