/**
 * The ledger: a cash balance and a count of shares per stock name, with
 * the guarded buy and sell transitions and the summary of what is held.
 */
module Ledger {
  import opened Wrappers

  /** Why a trade was refused; the only effect of a refusal is this warning. */
  datatype Warning = NotEnoughBalance | NotOwned

  /** The selected stock as a trade sees it: its name and its live price. */
  datatype Quote = Quote(name: string, price: int)

  /** The user's money and holdings. */
  datatype Account = Account(balance: int, portfolio: map<string, int>)

  /** No debt and no short positions. */
  predicate Sound(a: Account)
  {
    a.balance >= 0 && forall n :: n in a.portfolio ==> a.portfolio[n] >= 0
  }

  /** `after` differs from `before` only in the count for `name`, which moved by `delta`. */
  predicate OnlyEntryMoved(before: map<string, int>, after: map<string, int>, name: string, delta: int)
    requires name in before
  {
    after.Keys == before.Keys &&
    after[name] == before[name] + delta &&
    forall n :: n in before && n != name ==> after[n] == before[n]
  }

  /**
   * Buying one share of the selected stock: allowed exactly when a stock is
   * selected and the balance covers its live price; then the balance drops
   * by that price and only that stock's count rises by one.
   */
  function Buy(a: Account, selected: Option<Quote>): (r: Result<Account, Warning>)
    requires selected.Some? ==> selected.value.name in a.portfolio
    ensures r.Ok? <==> selected.Some? && a.balance >= selected.value.price
    ensures r.Err? ==> r.error == NotEnoughBalance
    ensures r.Ok? ==> r.value.balance == a.balance - selected.value.price &&
                      OnlyEntryMoved(a.portfolio, r.value.portfolio, selected.value.name, 1)
    ensures r.Ok? && Sound(a) ==> Sound(r.value)
  {
    if selected.Some? && a.balance >= selected.value.price then
      var q := selected.value;
      Ok(Account(a.balance - q.price, a.portfolio[q.name := a.portfolio[q.name] + 1]))
    else
      Err(NotEnoughBalance)
  }

  /**
   * Selling one share of the selected stock: allowed exactly when a stock is
   * selected and at least one share of it is held; then the balance rises
   * by its live price and only that stock's count drops by one.
   */
  function Sell(a: Account, selected: Option<Quote>): (r: Result<Account, Warning>)
    requires selected.Some? ==> selected.value.name in a.portfolio
    ensures r.Ok? <==> selected.Some? && a.portfolio[selected.value.name] > 0
    ensures r.Err? ==> r.error == NotOwned
    ensures r.Ok? ==> r.value.balance == a.balance + selected.value.price &&
                      OnlyEntryMoved(a.portfolio, r.value.portfolio, selected.value.name, -1)
    ensures r.Ok? && Sound(a) && selected.value.price >= 0 ==> Sound(r.value)
  {
    if selected.Some? && a.portfolio[selected.value.name] > 0 then
      var q := selected.value;
      Ok(Account(a.balance + q.price, a.portfolio[q.name := a.portfolio[q.name] - 1]))
    else
      Err(NotOwned)
  }

  /** A buy that went through, undone by a sell at the same price, leaves the account as it was. */
  lemma BuyThenSellRestores(a: Account, q: Quote)
    requires q.name in a.portfolio
    requires Sound(a)
    requires Buy(a, Some(q)).Ok?
    ensures Sell(Buy(a, Some(q)).value, Some(q)) == Ok(a)
  {
    var bought := Buy(a, Some(q)).value;
    assert bought.portfolio[q.name := bought.portfolio[q.name] - 1] == a.portfolio;
  }

  /**
   * A sell that went through, followed by a buy at the same price, is always
   * allowed on a sound account and leaves the account as it was.
   */
  lemma SellThenBuyRestores(a: Account, q: Quote)
    requires q.name in a.portfolio
    requires Sound(a)
    requires Sell(a, Some(q)).Ok?
    ensures Buy(Sell(a, Some(q)).value, Some(q)) == Ok(a)
  {
    var sold := Sell(a, Some(q)).value;
    assert sold.portfolio[q.name := sold.portfolio[q.name] + 1] == a.portfolio;
  }

  /** The `(name, count)` pairs of the portfolio, in the order of `names`. */
  function Entries(names: seq<string>, portfolio: map<string, int>): seq<(string, int)>
    requires forall n :: n in names ==> n in portfolio
  {
    if names == [] then []
    else [(names[0], portfolio[names[0]])] + Entries(names[1..], portfolio)
  }

  /**
   * The entries the balance label lists: the `(name, count)` pairs whose
   * count is positive, taken in the order of `names`.
   */
  function Summary(names: seq<string>, portfolio: map<string, int>): (s: seq<(string, int)>)
    requires forall n :: n in names ==> n in portfolio
    ensures |s| <= |names|
    ensures forall k :: 0 <= k < |s| ==>
              s[k].0 in names && s[k].0 in portfolio && s[k].1 == portfolio[s[k].0] && s[k].1 > 0
  {
    if names == [] then []
    else
      var n := names[0];
      (if portfolio[n] > 0 then [(n, portfolio[n])] else []) + Summary(names[1..], portfolio)
  }

  /** Every stock held in a positive count appears in the summary. */
  lemma {:induction false} SummaryComplete(names: seq<string>, portfolio: map<string, int>, n: string)
    requires forall m :: m in names ==> m in portfolio
    requires n in names && portfolio[n] > 0
    ensures (n, portfolio[n]) in Summary(names, portfolio)
  {
    if names[0] != n {
      SummaryComplete(names[1..], portfolio, n);
    }
  }

  /** `s` can be obtained from `t` by deleting elements. */
  predicate IsSubsequence<T(==)>(s: seq<T>, t: seq<T>)
  {
    if s == [] then true
    else if t == [] then false
    else if s[0] == t[0] then IsSubsequence(s[1..], t[1..])
    else IsSubsequence(s, t[1..])
  }

  /** The summary keeps the portfolio order: it is a subsequence of the entries. */
  lemma {:induction false} SummaryInOrder(names: seq<string>, portfolio: map<string, int>)
    requires forall n :: n in names ==> n in portfolio
    ensures IsSubsequence(Summary(names, portfolio), Entries(names, portfolio))
  {
    if names != [] {
      var n := names[0];
      var rest := Summary(names[1..], portfolio);
      var entry := (n, portfolio[n]);
      assert Entries(names, portfolio) == [entry] + Entries(names[1..], portfolio);
      SummaryInOrder(names[1..], portfolio);
      if portfolio[n] > 0 {
        assert Summary(names, portfolio) == [entry] + rest;
        assert ([entry] + rest)[1..] == rest;
      } else {
        assert Summary(names, portfolio) == rest;
        assert rest != [] ==> rest[0] != entry;
      }
    }
  }
}
