/**
  The floor price of a collection.  Prices are stored as decimal text and picked by
  ORDER BY length(price), price (indexer/internal/repository/collections.go).
 */
module FloorPrice {
  import opened Wrappers
  import opened Chain
  import opened Ledger
  import opened Tables
  import opened Effects
  import opened Refinement
  import opened Consistency
  import opened Runs
  import opened Exchange

  // ---------- Decimal text ----------

  function Digit(d: nat): char
    requires d < 10
  {
    "0123456789"[d]
  }

  /** big.Int's String() on a natural number. */
  function Decimal(n: nat): (s: string)
    ensures s != []
  {
    if n < 10 then [Digit(n)] else Decimal(n / 10) + [Digit(n % 10)]
  }

  /** Base ten, the last digit last and no zeros in front. */
  lemma DecimalDigits(n: nat, d: nat)
    requires d < 10
    ensures Decimal(d) == ['0' + d as char]
    ensures n > 0 ==> Decimal(10 * n + d) == Decimal(n) + ['0' + d as char]
  {
    assert Digit(d) == '0' + d as char;
    if n > 0 { assert (10 * n + d) / 10 == n && (10 * n + d) % 10 == d; }
  }

  /** big.Int's SetString(s, 10) on digits. */
  function Parse(s: string): nat {
    if s == [] then 0
    else
      var last := s[|s| - 1];
      10 * Parse(s[..|s| - 1]) + (if '0' <= last <= '9' then (last - '0') as nat else 0)
  }

  lemma ParseDigit(s: string, d: nat)
    requires d < 10
    ensures Parse(s + [Digit(d)]) == 10 * Parse(s) + d
  {
    assert (s + [Digit(d)])[..|s|] == s;
    assert Digit(d) == '0' + d as char;
  }

  lemma {:induction false} ParseDecimal(n: nat)
    ensures Parse(Decimal(n)) == n
  {
    hide Parse, Digit;
    if n < 10 {
      ParseDigit([], n);
      assert [] + [Digit(n)] == Decimal(n);
      ParseEmpty();
    } else {
      ParseDecimal(n / 10);
      ParseDigit(Decimal(n / 10), n % 10);
    }
  }

  lemma ParseEmpty()
    ensures Parse([]) == 0
  {
  }

  /** Text order; a proper prefix comes first. */
  predicate TextBefore(a: string, b: string) {
    if b == [] then false
    else if a == [] then true
    else a[0] < b[0] || (a[0] == b[0] && TextBefore(a[1..], b[1..]))
  }

  /** ORDER BY length(price), price. */
  predicate Before(a: string, b: string) {
    |a| < |b| || (|a| == |b| && TextBefore(a, b))
  }

  lemma {:induction false} TextAppend(a: string, b: string, x: char, y: char)
    requires |a| == |b|
    ensures TextBefore(a + [x], b + [y]) <==> TextBefore(a, b) || (a == b && x < y)
  {
    if a != [] {
      TextAppend(a[1..], b[1..], x, y);
      assert (a + [x])[1..] == a[1..] + [x];
      assert (b + [y])[1..] == b[1..] + [y];
      assert a == [a[0]] + a[1..] && b == [b[0]] + b[1..];
    }
  }

  lemma {:induction false} TextAsymmetric(a: string, b: string)
    requires TextBefore(a, b)
    ensures !TextBefore(b, a)
  {
    if a != [] && a[0] == b[0] { TextAsymmetric(a[1..], b[1..]); }
  }

  lemma {:induction false} SmallerBefore(m: nat, n: nat)
    requires m < n
    ensures Before(Decimal(m), Decimal(n))
  {
    var a, b := Decimal(m), Decimal(n);
    if m < 10 && n < 10 {
      TextAppend([], [], Digit(m), Digit(n));
      assert a == [] + [Digit(m)] && b == [] + [Digit(n)];
    } else if m >= 10 {
      if m / 10 < n / 10 { SmallerBefore(m / 10, n / 10); }
      if |a| == |b| { TextAppend(Decimal(m / 10), Decimal(n / 10), Digit(m % 10), Digit(n % 10)); }
    }
  }

  /** On decimal text, shorter-then-textual is the numeric order. */
  lemma OrderIsNumeric(m: nat, n: nat)
    ensures Before(Decimal(m), Decimal(n)) <==> m < n
  {
    if m < n {
      SmallerBefore(m, n);
    } else {
      if n < m { SmallerBefore(n, m); }
      if TextBefore(Decimal(m), Decimal(n)) { TextAsymmetric(Decimal(m), Decimal(n)); }
    }
  }

  // ---------- The query ----------

  /** Is the latest status of the transfer Created or Drafted? */
  predicate OpenRow(rows: seq<StatusRow<Status>>, transferId: nat) {
    exists i :: 0 <= i < |rows| && rows[i].parent == transferId
      && IsLatest(rows, i) && rows[i].status in {Created, Drafted}
  }

  /** What else the WHERE clauses look at: the FileBunnies collection, of whose tokens the first
      transfer does not count; rejected tokens; and hidden orders, here by token and transfer number.
      (Stored exchange addresses are never the bare "0x".) */
  datatype Filters = Filters(fileBunnies: Address, rejected: set<TokenKey>, hidden: set<(TokenKey, nat)>)

  predicate Counts(k: TokenKey, number: nat, f: Filters, c: Address) {
    k.collection == c && !(c == f.fileBunnies && number == 1) && k !in f.rejected && (k, number) !in f.hidden
  }

  /** The WHERE clause of filtered_orders for one collection. */
  predicate Offered(d: Db, f: Filters, c: Address, o: OrderRow) {
    exists t :: t in d.transfers && t.id == o.transferId
      && Counts(t.token, t.number, f, c) && OpenRow(d.transferStatuses, t.id)
  }

  function Prices(d: Db, f: Filters, c: Address, n: nat): seq<string>
    requires n <= |d.orders|
  {
    if n == 0 then []
    else
      Prices(d, f, c, n - 1)
      + if Offered(d, f, c, d.orders[n - 1]) then [Decimal(d.orders[n - 1].price)] else []
  }

  /** ORDER BY length(price), price LIMIT 1. */
  function Cheapest(prices: seq<string>): string
    requires prices != []
  {
    var last := prices[|prices| - 1];
    if |prices| == 1 then last
    else
      var rest := Cheapest(prices[..|prices| - 1]);
      if Before(last, rest) then last else rest
  }

  function Floor(d: Db, f: Filters, c: Address): nat {
    var prices := Prices(d, f, c, |d.orders|);
    Parse(if prices == [] then "0" else Cheapest(prices))
  }

  lemma {:induction false} PricesAreOffers(d: Db, f: Filters, c: Address, n: nat)
    requires n <= |d.orders|
    ensures forall p :: p in Prices(d, f, c, n) ==>
      exists i :: 0 <= i < n && Offered(d, f, c, d.orders[i]) && p == Decimal(d.orders[i].price)
    ensures forall i :: 0 <= i < n && Offered(d, f, c, d.orders[i]) ==>
      Decimal(d.orders[i].price) in Prices(d, f, c, n)
  {
    if n > 0 { PricesAreOffers(d, f, c, n - 1); }
  }

  lemma {:induction false} CheapestIsLeast(prices: seq<string>, amounts: seq<nat>) returns (i: nat)
    requires prices != [] && |prices| == |amounts|
    requires forall j :: 0 <= j < |prices| ==> prices[j] == Decimal(amounts[j])
    ensures i < |amounts| && Cheapest(prices) == prices[i]
    ensures forall j :: 0 <= j < |amounts| ==> amounts[i] <= amounts[j]
  {
    hide Before, Decimal;
    var n := |prices| - 1;
    i := n;
    if n > 0 {
      i := CheapestIsLeast(prices[..n], amounts[..n]);
      assert forall j :: 0 <= j < n ==> amounts[..n][j] == amounts[j];
      OrderIsNumeric(amounts[n], amounts[i]);
      if amounts[n] < amounts[i] { i := n; }
    }
  }

  /** The floor price is the least price offered in the collection, and 0 with no offer. */
  lemma FloorIsLeast(d: Db, f: Filters, c: Address) returns (o: Option<OrderRow>)
    ensures forall p :: p in d.orders && Offered(d, f, c, p) ==> Floor(d, f, c) <= p.price
    ensures o.Some? ==> o.value in d.orders && Offered(d, f, c, o.value) && Floor(d, f, c) == o.value.price
    ensures o.None? ==> Floor(d, f, c) == 0 && forall p :: p in d.orders ==> !Offered(d, f, c, p)
  {
    var n := |d.orders|;
    var prices := Prices(d, f, c, n);
    PricesAreOffers(d, f, c, n);
    if prices == [] {
      assert forall i :: 0 <= i < n ==> !Offered(d, f, c, d.orders[i]);
      ParseDecimal(0);
      return None;
    }
    forall j | 0 <= j < |prices| ensures Decimal(Parse(prices[j])) == prices[j] {
      assert prices[j] in prices;
      var i :| 0 <= i < n && prices[j] == Decimal(d.orders[i].price);
      ParseDecimal(d.orders[i].price);
    }
    var amounts := seq(|prices|, j requires 0 <= j < |prices| => Parse(prices[j]));
    var least := CheapestIsLeast(prices, amounts);
    forall p | p in d.orders && Offered(d, f, c, p) ensures amounts[least] <= p.price {
      var i :| 0 <= i < n && d.orders[i] == p;
      var j :| 0 <= j < |prices| && prices[j] == Decimal(p.price);
      ParseDecimal(p.price);
    }
    assert prices[least] in prices;
    var i :| 0 <= i < n && Offered(d, f, c, d.orders[i]) && prices[least] == Decimal(d.orders[i].price);
    ParseDecimal(d.orders[i].price);
    return Some(d.orders[i]);
  }

  // ---------- The floor price of the contracts ----------

  /** Is the pending transfer of a token for sale: no buyer's key yet, not the first transfer of a
      FileBunnies token, and neither the token rejected nor the order hidden? */
  predicate ForSale(f: Filters, k: TokenKey, deal: Deal) {
    && deal.key == "" && (k.collection == f.fileBunnies ==> deal.number != 1)
    && k !in f.rejected && (k, deal.number) !in f.hidden
  }

  /** What the exchange answered for the pending transfer of a token, while it is for sale. */
  function Asked(logs: seq<Log>, f: Filters, k: TokenKey): Option<nat> {
    match StateAfter(logs, k)
    case Some(Held(_, _, Some(deal), _, _)) =>
      if ForSale(f, k, deal) then deal.answer else None
    case _ => None
  }

  lemma OpenRowIsOpen(d: Db, now: int, row: TransferRow)
    requires Timed(d.transferStatuses, now)
    ensures var t := TransferOf(d, row);
      OpenRow(d.transferStatuses, row.id) <==> t.statuses != [] && Latest(t) in {Created, Drafted}
  {
    var rows := d.transferStatuses;
    HistoryEndsWithLast(rows, row.id);
    var n := LastOf(rows, row.id);
    if n >= 0 { LatestIsLast(rows, now, n); }
    if OpenRow(rows, row.id) {
      var i :| 0 <= i < |rows| && rows[i].parent == row.id && IsLatest(rows, i) && rows[i].status in {Created, Drafted};
      LatestIsLast(rows, now, i);
    }
  }

  /** The transfer row behind an offer is the token's pending transfer. */
  lemma OpenRowIsPending(d: Db, clock: int, logs: seq<Log>, row: TransferRow)
    requires Valid(d, clock) && Faithful(ViewOf(d), logs)
    requires row in d.transfers && OpenRow(d.transferStatuses, row.id)
    ensures StateAfter(logs, row.token).Some? && StateAfter(logs, row.token).value.Held?
    ensures StateAfter(logs, row.token).value.deal.Some?
    ensures MirrorsDeal(TransferOf(d, row), StateAfter(logs, row.token).value.deal.value)
    ensures Latest(TransferOf(d, row)) in {Created, Drafted}
  {
    hide OpenRow, TransferOf, Positions, StateAt, Lockstep, Volume, Timed, Keyed, MirrorsDeal;
    var n :| 0 <= n < |d.transfers| && d.transfers[n] == row;
    var i := PositionFound(d.transfers, n);
    OpenRowIsOpen(d, clock, row);
    var v := ViewOf(d);
    assert row.token in v && v[row.token].transfers[i] == TransferOf(d, row);
    AtMostOneActive(v, logs, row.token, i, i);
    LedgerMirrors(v, logs, row.token);
  }

  /** An offered order is what the contracts ask for its token. */
  lemma OfferIsAsked(d: Db, clock: int, logs: seq<Log>, f: Filters, c: Address, o: OrderRow) returns (k: TokenKey)
    requires Valid(d, clock) && Faithful(ViewOf(d), logs)
    requires o in d.orders && Offered(d, f, c, o)
    ensures k.collection == c && Asked(logs, f, k) == Some(o.price)
  {
    hide Faithful, ViewOf, OpenRow;
    var row :| row in d.transfers && row.id == o.transferId
               && Counts(row.token, row.number, f, c) && OpenRow(d.transferStatuses, row.id);
    k := row.token;
    OpenRowIsPending(d, clock, logs, row);
    OneOrderPerTransfer(d, o, OrderRowOf(d.orders, row.id).value);
  }

  /** What the contracts ask for a token is offered. */
  lemma AskedIsOffer(d: Db, clock: int, logs: seq<Log>, f: Filters, k: TokenKey) returns (o: OrderRow)
    requires Valid(d, clock) && Faithful(ViewOf(d), logs) && Asked(logs, f, k).Some?
    ensures o in d.orders && Offered(d, f, k.collection, o) && Asked(logs, f, k) == Some(o.price)
  {
    hide StateAt, Timed, Keyed, OpenRow, Lockstep, Volume, History;
    var v := ViewOf(d);
    var s := StateAfter(logs, k).value;
    LedgerMirrors(v, logs, k);
    var i := |v[k].transfers| - 1;
    var row := d.transfers[Positions(d.transfers, k)[i]];
    assert v[k].transfers[i] == TransferOf(d, row) && MirrorsDeal(TransferOf(d, row), s.deal.value);
    OpenRowIsOpen(d, clock, row);
    o := OrderRowOf(d.orders, row.id).value;
  }

  /** The floor price shown for a collection is the least price its contracts ask for one of its
      tokens, and 0 if they ask for none. */
  lemma FloorIsContracts(d: Db, clock: int, logs: seq<Log>, f: Filters, c: Address)
    requires Valid(d, clock) && Faithful(ViewOf(d), logs)
    ensures forall k: TokenKey :: k.collection == c && Asked(logs, f, k).Some? ==>
      Floor(d, f, c) <= Asked(logs, f, k).value
    ensures
      || (exists k: TokenKey :: k.collection == c && Asked(logs, f, k) == Some(Floor(d, f, c)))
      || (Floor(d, f, c) == 0 && forall k: TokenKey :: k.collection == c ==> Asked(logs, f, k).None?)
  {
    var least := FloorIsLeast(d, f, c);
    forall k: TokenKey | k.collection == c && Asked(logs, f, k).Some?
      ensures Floor(d, f, c) <= Asked(logs, f, k).value && least.Some?
    {
      var o := AskedIsOffer(d, clock, logs, f, k);
    }
    if least.Some? {
      var k := OfferIsAsked(d, clock, logs, f, c, least.value);
    }
  }

  // ---------- The floor price of the exchange ----------

  /** What the exchange's order behind the pending transfer of a token costs. */
  function Ordered(logs: seq<Log>, f: Filters, k: TokenKey): Option<nat> {
    match StateAfter(logs, k)
    case Some(Held(_, _, Some(deal), _, _)) =>
      if ForSale(f, k, deal) then deal.order else None
    case _ => None
  }

  lemma AskedIsOrdered(chain: seq<seq<Log>>, n: nat, f: Filters, k: TokenKey)
    requires EndOfBlock(chain) && n <= |chain|
    ensures Asked(Flat(chain, n), f, k) == Ordered(Flat(chain, n), f, k)
  {
    hide Flat, EndOfBlock;
    PendingAnswered(chain, k, n);
    FlatMonotone(chain, n, |chain|);
    var part := Flat(chain, n);
    assert forall i :: 0 <= i < |part| ==> part[i] == All(chain)[..|part|][i];
    SameState(All(chain), part, k, |part|);
    var s := StateAtBlock(chain, k, n);
    assert Answers(s, Some(0)) && Answers(s, Some(1));
  }

  /** The pending transfer of a token. */
  function PendingDeal(logs: seq<Log>, k: TokenKey): Option<Deal> {
    match StateAfter(logs, k)
    case Some(Held(_, _, deal, _, _)) => deal
    case _ => None
  }

  /** At the end of every block the floor price shown for a collection is the least price of the orders
      standing for its tokens - although the prices shown are the answers - and 0 if there is none.  The
      orders are those of pending transfers without a buyer's key, but for first transfers of FileBunnies
      tokens, rejected tokens and hidden orders. */
  lemma FloorIsLeastOrder(d: Db, clock: int, chain: seq<seq<Log>>, n: nat, f: Filters, c: Address)
    returns (least: Option<TokenKey>)
    requires Valid(d, clock) && n <= |chain| && Faithful(ViewOf(d), Flat(chain, n)) && EndOfBlock(chain)
    ensures forall k: TokenKey :: k.collection == c && PendingDeal(Flat(chain, n), k).Some? ==>
      var deal := PendingDeal(Flat(chain, n), k).value;
      deal.key == "" && deal.order.Some? && !(c == f.fileBunnies && deal.number == 1)
      && k !in f.rejected && (k, deal.number) !in f.hidden ==>
        least.Some? && Floor(d, f, c) <= deal.order.value
    ensures least.Some? ==>
      && least.value.collection == c && PendingDeal(Flat(chain, n), least.value).Some?
      && var deal := PendingDeal(Flat(chain, n), least.value).value;
         deal.key == "" && deal.order == Some(Floor(d, f, c)) && !(c == f.fileBunnies && deal.number == 1)
         && least.value !in f.rejected && (least.value, deal.number) !in f.hidden
    ensures least.None? ==> Floor(d, f, c) == 0
  {
    hide Asked, Floor, Flat, Faithful, EndOfBlock, Keyed, Refers, Timed, StateAt;
    var logs := Flat(chain, n);
    FloorIsContracts(d, clock, logs, f, c);
    forall k: TokenKey ensures Asked(logs, f, k) == Ordered(logs, f, k) { AskedIsOrdered(chain, n, f, k); }
    if k: TokenKey :| k.collection == c && Asked(logs, f, k) == Some(Floor(d, f, c)) {
      least := Some(k);
    } else {
      least := None;
    }
  }
}
