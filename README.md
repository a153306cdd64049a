# Stock simulator core, in Dafny

A model of the logic behind a small desktop stock-market simulator. Two
stocks, "TechCorp" at 100 and "HealthPlus" at 50, change price by a random
integer in [-10, 10] on every pass of a background loop. A price never
falls below 1, and each stock keeps the full history of its prices. The
user starts with a balance of 1000. They select a stock and buy or sell
one share at a time, always at the stock's live price. A buy needs enough
balance and a sell needs at least one share held. Any other request is
refused with a warning and changes nothing.

Modules:

- `Wrappers` (`wrappers.dfy`): `Option` and `Result`.
- `Market` (`market.dfy`): the `Stock` class, updated in place. It also has
  the price rule `NextPrice`, one pass of the market loop
  (`SimulateMarketStep`) and the loop run over finitely many passes
  (`SimulateMarket`). `Walk` is the pure specification of the prices one
  stock takes over a series of ticks.
- `Ledger` (`ledger.dfy`): the balance and portfolio as a value (`Account`).
  It holds the buy and sell transitions as functions, their round-trip
  lemmas, and the portfolio summary shown in the balance label.
- `App` (`app.dfy`): the `StockApp` class. Its fields are the stock list,
  the selection, the balance and the portfolio. Its methods are the Buy and
  Sell button handlers and one market tick over its stocks. Each method is
  specified by the `Ledger` and `Market` functions. `Valid()` is the
  application invariant, which every method keeps:
  - the balance is at least 0;
  - every holding is at least 0;
  - every price is at least 1;
  - every history ends with the current price.

The random draw is a parameter. A tick takes one change per stock, each in
[-10, 10]. The same inputs therefore always give the same ticks. The
endless loop with its five-second sleep is modelled as single passes
(`MarketTick`) that can interleave with the button handlers, and as a
finite number of passes (`SimulateMarket`).

The selected stock is kept as an index into the stock list, not as an
object reference. The portfolio is a `map`. Its order (Python dict
insertion order) is the order of the stock names, because the dict is
built from the stock list and no key is ever inserted again later.

## Model

| member | source | states |
|---|---|---|
| `Market.Stock.constructor` | main.py:27-30 | a new stock has the given name, its price is the initial price and its history is exactly `[initial price]` |
| `Market.Stock.UpdatePrice` | main.py:32-34 | the price becomes the new price; the history is the old history with the new price appended (earlier entries unchanged), so it ends with the current price |
| `Market.NextPrice` | main.py:42 | the new price is the least value that is at least 1 and at least `price + change`; from a price >= 1 with a change in [-10, 10] it moves by at most 10 either way |
| `Market.Walk` | main.py:38-44 | over any series of ticks a stock takes one price per tick, and every one of them is >= 1 whatever the starting price |
| `Market.WalkStepsBounded` | main.py:41-42 | starting from a price >= 1 with changes in [-10, 10], each price in the history is within 10 of the one before it and never below 1 |
| `Market.WalkExtend` | main.py:38-43 | one more tick appends exactly one price to the walk: the next price computed from the last one |
| `Market.SimulateMarketStep` | main.py:39-43 | every stock's price becomes `NextPrice` of its old price and its own change; its history grows by exactly that one price and is valid again; the list of stocks and their names stay the same |
| `Market.SimulateMarket` | main.py:37-44 | after any number of passes, each stock's history is its old history followed by the walk of the changes drawn for it, so it has grown by exactly the number of passes, and its price is where that walk ends; a valid stock stays valid (its history ends at its price), and after at least one pass its price is >= 1 |
| `Ledger.Buy` | main.py:98-104 | succeeds iff a stock is selected and the balance covers its price; on success the balance drops by exactly that price and only that stock's count rises by 1; otherwise the warning is "not enough balance"; a sound account (balance and holdings >= 0) stays sound |
| `Ledger.Sell` | main.py:106-112 | succeeds iff a stock is selected and its count is > 0; on success the balance rises by exactly its price and only that count drops by 1; otherwise the warning is "not owned"; at a non-negative price a sound account stays sound |
| `Ledger.BuyThenSellRestores` | main.py:98-112 | after a buy that succeeded, a sell of the same stock at the same price succeeds and gives back exactly the original balance and portfolio |
| `Ledger.SellThenBuyRestores` | main.py:98-112 | after a sell that succeeded on a sound account, a buy at the same price always succeeds and gives back exactly the original balance and portfolio |
| `Ledger.Summary` | main.py:116-117 | the summary lists only stocks in the portfolio, each with its count, and every listed count is > 0 |
| `Ledger.SummaryComplete` | main.py:116-117 | every stock held in a positive count is listed with its count |
| `Ledger.SummaryInOrder` | main.py:116-117 | the summary is a subsequence of the portfolio's entries in portfolio order |
| `App.StockApp.constructor` | main.py:52-55 | two fresh stocks, TechCorp at 100 and HealthPlus at 50, each with a one-entry history; no selection; balance 1000; portfolio 0 for each stock; the invariant holds |
| `App.StockApp.Select` | main.py:127-132 | selecting row `index` of the list makes that stock the selected one and changes nothing else |
| `App.StockApp.BuyStock` | main.py:98-104 | settles at the selected stock's live price: the new balance and portfolio are what `Ledger.Buy` gives, or on refusal they are unchanged and the warning is returned; the invariant, and so `balance >= 0`, is kept |
| `App.StockApp.SellStock` | main.py:106-112 | settles at the live price: the new balance and portfolio are what `Ledger.Sell` gives, or on refusal they are unchanged and the warning is returned; the invariant, and so every holding >= 0, is kept |
| `App.StockApp.MarketTick` | main.py:39-43 | one pass of the market thread over the app's stocks: each price and history moves as in `SimulateMarketStep`, and the invariant (all prices >= 1, histories ending at the price) is kept |
| `App.StockApp.PortfolioSummary` | main.py:116-117 | the portfolio text lists exactly the held stocks whose count is positive, with their counts, as a subsequence of the portfolio entries in portfolio order |

## Left out

- The Tkinter window, list box, buttons, warning dialogs and the five-second `after` refresh (main.py:64-96, 120-139) are user interface. A refusal is modelled as an unchanged state plus a returned `Warning`.
- Matplotlib plotting of the selected stock's history (main.py:77-79, 93-96, 136-139) is rendering through a foreign library.
- The daemon thread and the unsynchronised sharing of the stock objects between it and the UI thread (main.py:61) are concurrency. Ticks and button presses are modelled as sequential calls that may come in any order.
- `App.StockApp.BuyStock`: the model runs each button handler atomically, so no tick can come between its check and its debit. The source's buy reads the live price twice, once in the guard (main.py:99) and once in the debit (main.py:100). A tick on the market thread can land between those two reads, and the source can then end with a negative balance. For example, with a balance of 100 and TechCorp at 100, a +5 tick in between leaves the balance at -5. The model's `balance >= 0` therefore holds only for the sequential interleavings it models. The sell handler reads the price only once (main.py:108). Its guard reads the holding, which only the user-interface thread writes, so a tick during a sell has the same effect as one just before it.
- `time.sleep(5)` and the non-terminating `while True` (main.py:38, 44) are timing. The model runs single passes, or a finite list of passes.
- `random.randint(-10, 10)` (main.py:41) is replaced by a change supplied by the caller and required to lie in [-10, 10].
- The text formatting of the balance label (main.py:115-118) is left out. The summary is a list of `(name, count)` pairs, not the joined string.
- The unused `numpy` import (main.py:20) is left out.
- `Market.SimulateMarketStep`: requires the stocks to be distinct objects. A list holding the same stock twice would move it twice in one pass, and that case is not modelled. The application's two stocks are distinct.
- `App.StockApp.Select`: requires the index to be a row of the list. The list box only offers rows of the stock list.
- A buy that fails because nothing is selected is reported as `NotEnoughBalance`, and a sell with nothing selected as `NotOwned`. The source shows the same two messages in those cases.
