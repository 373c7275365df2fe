/**
  What the tables hold of every transfer there ever was, the ended ones included, told from the
  contracts' logs alone.
 */
module Chronicle {
  import opened Wrappers
  import opened Chain
  import opened Ledger
  import opened Tables
  import opened Effects
  import opened Refinement
  import opened Consistency

  // ---------- The contracts' side ----------

  /** The number of the pending transfer, 0 for none. */
  function PendingNumber(s: Option<TokenState>): nat {
    match s
    case Some(Held(_, _, Some(deal), _, _)) => deal.number
    case _ => 0
  }

  /** The number of the transfer that log n is about: the one it starts, or the one pending before it. */
  function NumberAt(logs: seq<Log>, n: nat): nat
    requires n < |logs|
  {
    match logs[n].event
    case TransferInit(_, _, number) => number
    case TransferDraft(_, number, _, _) => number
    case _ => PendingNumber(StateAt(logs, logs[n].Key(), n))
  }

  /** A transfer as the contracts last held it, within the first n logs. */
  function DealAt(logs: seq<Log>, k: TokenKey, number: nat, n: nat): Option<Deal>
    requires n <= |logs|
  {
    if n == 0 then None
    else
      match StateAt(logs, k, n)
      case Some(Held(_, _, Some(deal), _, _)) =>
        if deal.number == number then Some(deal) else DealAt(logs, k, number, n - 1)
      case _ => DealAt(logs, k, number, n - 1)
  }

  /** Is log i about this transfer? */
  predicate About(logs: seq<Log>, i: nat, k: TokenKey, number: nat)
    requires i < |logs|
  {
    logs[i].Key() == k && StatusOf(logs[i].event).Some? && NumberAt(logs, i) == number
  }

  /** The statuses that the first n logs give a transfer, each with its transaction. */
  function Trail(logs: seq<Log>, k: TokenKey, number: nat, n: nat): seq<Stamp<Status>>
    requires n <= |logs|
  {
    if n == 0 then []
    else
      Trail(logs, k, number, n - 1)
      + if About(logs, n - 1, k, number) then [Stamp(StatusOf(logs[n - 1].event).value, logs[n - 1].tx)] else []
  }

  function OrderMark(e: Event): Option<OrderStatus> { if e.TransferDraft? then Some(Placed) else OrderStatusOf(e) }

  /** ... and its order. */
  function OrderTrail(logs: seq<Log>, k: TokenKey, number: nat, n: nat): seq<Stamp<OrderStatus>>
    requires n <= |logs|
  {
    if n == 0 then []
    else
      var mark := OrderMark(logs[n - 1].event);
      OrderTrail(logs, k, number, n - 1)
      + if About(logs, n - 1, k, number) && mark.Some? then [Stamp(mark.value, logs[n - 1].tx)] else []
  }

  /** Did one of the first n logs approve a fraud of this transfer? */
  predicate FraudProven(logs: seq<Log>, k: TokenKey, number: nat, n: nat)
    requires n <= |logs|
  {
    n > 0 && (FraudProven(logs, k, number, n - 1)
              || (About(logs, n - 1, k, number) && logs[n - 1].event == FraudDecided(true)))
  }

  /** Does a deal hold what the event says of it?  A TransferInit may leave the recipient open. */
  predicate Carries(d: Deal, e: Event) {
    match e
    case TransferInit(from, to, number) =>
      d.from == from && (to != ZERO_ADDRESS ==> d.to == to) && d.order.None? && d.answer.None?
    case TransferDraft(from, number, order, answer) => d.from == from && d.order == order && d.answer == answer
    case DraftCompletion(to) => d.to == to
    case PublicKeySet(key) => d.key == key
    case PasswordSet(password) => d.password == password
    case _ => true
  }

  lemma EmitCarries(s: TokenState, e: Event, d: Deal, f: Event)
    requires s.Held? && s.deal == Some(d) && Emit(s, e).Some? && Carries(d, f)
    requires Ordered(d)
    requires f.DraftCompletion? ==> f.to != ZERO_ADDRESS
    requires f.PublicKeySet? ==> f.key != ""
    requires f.PasswordSet? ==> f.password != ""
    ensures Emit(s, e).value.deal.Some? ==> Carries(Emit(s, e).value.deal.value, f)
  {
  }

  /** The pending transfer of a token is the last one started, and its data came in order. */
  lemma {:induction false} PendingOrdered(logs: seq<Log>, k: TokenKey, n: nat)
    requires n <= |logs|
    ensures
      var s := StateAt(logs, k, n);
      s.Some? && s.value.Held? && s.value.deal.Some? ==>
        Ordered(s.value.deal.value) && s.value.deal.value.number == s.value.started > 0
  {
    if n > 0 { PendingOrdered(logs, k, n - 1); }
  }

  lemma FirstCarried(logs: seq<Log>, i: nat)
    requires i < |logs| && StatusOf(logs[i].event).Some? && StateAt(logs, logs[i].Key(), i + 1).Some?
    ensures var e := logs[i].event;
      && (e.DraftCompletion? ==> e.to != ZERO_ADDRESS)
      && (e.PublicKeySet? ==> e.key != "") && (e.PasswordSet? ==> e.password != "")
    ensures
      var s := StateAt(logs, logs[i].Key(), i + 1).value;
      s.Held? && s.started >= NumberAt(logs, i) > 0
      && (s.deal.Some? ==> s.deal.value.number == NumberAt(logs, i) && Carries(s.deal.value, logs[i].event))
      && (s.deal.None? ==> logs[i].event in {TransferFinished, FraudDecided(true), FraudDecided(false), Cancellation})
  {
    PendingOrdered(logs, logs[i].Key(), i);
  }

  lemma {:induction false} StillCarried(logs: seq<Log>, k: TokenKey, i: nat, n: nat)
    requires i < n <= |logs| && logs[i].Key() == k && StatusOf(logs[i].event).Some? && StateAt(logs, k, n).Some?
    ensures StateAt(logs, k, n).value.Held? && StateAt(logs, k, n).value.started >= NumberAt(logs, i) > 0
    ensures PendingNumber(StateAt(logs, k, n)) == NumberAt(logs, i) ==>
      Carries(StateAt(logs, k, n).value.deal.value, logs[i].event)
  {
    hide Carries, NumberAt;
    if i + 1 == n {
      FirstCarried(logs, i);
    } else {
      StateExists(logs, k, n - 1, n);
      StateExists(logs, k, i + 1, n);
      StillCarried(logs, k, i, n - 1);
      FirstCarried(logs, i);
      PendingOrdered(logs, k, n - 1);
      var s := StateAt(logs, k, n - 1).value;
      if s.deal.Some? && logs[n - 1].Key() == k && s.deal.value.number == NumberAt(logs, i) {
        EmitCarries(s, logs[n - 1].event, s.deal.value, logs[i].event);
      }
    }
  }

  /** Whatever a log says of a transfer is what the contract last held of it. */
  lemma {:induction false} LogCarried(logs: seq<Log>, i: nat, n: nat)
    requires i < n <= |logs| && StatusOf(logs[i].event).Some? && StateAt(logs, logs[i].Key(), n).Some?
    ensures var d := DealAt(logs, logs[i].Key(), NumberAt(logs, i), n); d.Some? && Carries(d.value, logs[i].event)
  {
    hide Carries, NumberAt;
    var k := logs[i].Key();
    StillCarried(logs, k, i, n);
    StateExists(logs, k, n - 1, n);
    if PendingNumber(StateAt(logs, k, n)) != NumberAt(logs, i) {
      if i + 1 == n { EndedByLog(logs, i); } else { LogCarried(logs, i, n - 1); }
    }
  }

  lemma EndedByLog(logs: seq<Log>, i: nat)
    requires i < |logs| && StatusOf(logs[i].event).Some? && StateAt(logs, logs[i].Key(), i + 1).Some?
    requires PendingNumber(StateAt(logs, logs[i].Key(), i + 1)) != NumberAt(logs, i)
    ensures var d := DealAt(logs, logs[i].Key(), NumberAt(logs, i), i); d.Some? && Carries(d.value, logs[i].event)
  {
    PendingOrdered(logs, logs[i].Key(), i);
  }

  /** The owner is the minted one until a transfer finishes or a reported fraud is rejected; then it is the
      recipient of that transfer. */
  lemma OwnerMoves(logs: seq<Log>, n: nat)
    requires n < |logs| && StateAt(logs, logs[n].Key(), n + 1).Some?
    ensures
      var before, after := StateAt(logs, logs[n].Key(), n), StateAt(logs, logs[n].Key(), n + 1).value;
      && before.Some?
      && (logs[n].event.Mint? ==> after.Held? && after.owner == logs[n].event.owner)
      && (logs[n].event in {TransferFinished, FraudDecided(false)} ==>
            before.value.Held? && before.value.deal.Some? && after.owner == before.value.deal.value.to)
      && (before.value.Held? && logs[n].event !in {TransferFinished, FraudDecided(false)} ==>
            after.Held? && after.owner == before.value.owner)
  {
  }

  // ---------- The indexer's side ----------

  ghost predicate SameData(t: Transfer, d: Deal) {
    && t.from == d.from && t.to == d.to && t.number == d.number && t.key == d.key && t.password == d.password
    && (if t.order.Some? then Some(t.order.value.price) else None) == d.answer
  }

  /** Is this what the first n logs make of the transfer with this number? */
  ghost predicate Told(t: Transfer, logs: seq<Log>, k: TokenKey, number: nat, n: nat)
    requires n <= |logs|
  {
    && DealAt(logs, k, number, n).Some? && SameData(t, DealAt(logs, k, number, n).value)
    && (t.fraudApproved <==> FraudProven(logs, k, number, n))
    && t.statuses == Trail(logs, k, number, n)
    && (t.order.Some? ==> t.order.value.statuses == OrderTrail(logs, k, number, n))
  }

  ghost predicate AllTold(g: TokenLedger, logs: seq<Log>, k: TokenKey, n: nat)
    requires n <= |logs|
  {
    forall j :: 0 <= j < |g.transfers| ==> Told(g.transfers[j], logs, k, j + 1, n)
  }

  /** Transfers that have not been started have no history. */
  lemma {:induction false} NotStartedYet(logs: seq<Log>, k: TokenKey, number: nat, n: nat)
    requires n <= |logs| && number > 0 && StateAt(logs, k, n).Some?
    requires StateAt(logs, k, n).value.Held? ==> StateAt(logs, k, n).value.started < number
    ensures Trail(logs, k, number, n) == [] && OrderTrail(logs, k, number, n) == [] && !FraudProven(logs, k, number, n)
    ensures DealAt(logs, k, number, n).None?
    ensures PendingNumber(StateAt(logs, k, n)) < number
  {
    if n > 0 {
      NotStartedYet(logs, k, number, n - 1);
    }
  }

  /** A log about one transfer adds nothing to the history of another. */
  lemma Elsewhere(logs: seq<Log>, k: TokenKey, number: nat, n: nat)
    requires 0 < n <= |logs| && !About(logs, n - 1, k, number)
    ensures Trail(logs, k, number, n) == Trail(logs, k, number, n - 1)
    ensures OrderTrail(logs, k, number, n) == OrderTrail(logs, k, number, n - 1)
    ensures FraudProven(logs, k, number, n) == FraudProven(logs, k, number, n - 1)
  {
  }

  /** A transfer that is not pending is as it was. */
  lemma NotPending(logs: seq<Log>, k: TokenKey, number: nat, n: nat)
    requires 0 < n <= |logs| && number > 0
    requires PendingNumber(StateAt(logs, k, n)) == number ==> StateAt(logs, k, n) == StateAt(logs, k, n - 1)
    ensures DealAt(logs, k, number, n) == DealAt(logs, k, number, n - 1)
  {
  }

  lemma SameTold(t: Transfer, logs: seq<Log>, k: TokenKey, number: nat, n: nat)
    requires 0 < n <= |logs| && number > 0 && Told(t, logs, k, number, n - 1) && !About(logs, n - 1, k, number)
    requires PendingNumber(StateAt(logs, k, n)) == number ==> StateAt(logs, k, n) == StateAt(logs, k, n - 1)
    ensures Told(t, logs, k, number, n)
  {
    hide About, StateAt, Trail, OrderTrail, FraudProven;
    Elsewhere(logs, k, number, n);
    NotPending(logs, k, number, n);
  }

  /** The log starts transfer s.started + 1. */
  lemma OpenedTold(logs: seq<Log>, k: TokenKey, n: nat, s: TokenState)
    requires 0 < n <= |logs| && logs[n - 1].Key() == k && StateAt(logs, k, n - 1) == Some(s)
    requires Opener(logs[n - 1].event) && Follows(s, logs[n - 1].event)
    ensures s.Held? && NumberAt(logs, n - 1) == s.started + 1
    ensures Told(Opened(logs[n - 1].event, logs[n - 1].tx), logs, k, s.started + 1, n)
  {
    NotStartedYet(logs, k, s.started + 1, n - 1);
  }

  /** The log is about the pending transfer. */
  lemma StampedTold(t: Transfer, logs: seq<Log>, k: TokenKey, n: nat, s: TokenState)
    requires 0 < n <= |logs| && logs[n - 1].Key() == k && StateAt(logs, k, n - 1) == Some(s)
    requires StatusOf(logs[n - 1].event).Some? && !Opener(logs[n - 1].event) && Follows(s, logs[n - 1].event)
    requires s.Held? && s.deal.Some? && Told(t, logs, k, s.deal.value.number, n - 1)
    ensures NumberAt(logs, n - 1) == s.deal.value.number
    ensures Told(Stamped(t, logs[n - 1].event, logs[n - 1].tx), logs, k, s.deal.value.number, n)
  {
    assert DealAt(logs, k, s.deal.value.number, n - 1) == s.deal;
  }

  lemma PendingIsLast(g: TokenLedger, s: TokenState)
    requires Mirrors(g, s) && s.deal.Some?
    ensures g.transfers != [] && s.deal.value.number == |g.transfers| == s.started
  {
  }

  lemma LogTold(g: TokenLedger, logs: seq<Log>, k: TokenKey, n: nat, s: TokenState)
    requires 0 < n <= |logs| && logs[n - 1].Key() == k && StateAt(logs, k, n - 1) == Some(s)
    requires StatusOf(logs[n - 1].event).Some? && Follows(s, logs[n - 1].event)
    requires Mirrors(g, s) && AllTold(g, logs, k, n - 1)
    ensures AllTold(Continue(g, logs[n - 1]), logs, k, n)
  {
    hide Told, Mirrors, Follows, StateAt, Stamped;
    var l := logs[n - 1];
    StepNumbers(g, logs, k, n, s);
    var h := Continue(g, l);
    if Opener(l.event) {
      OpenedTold(logs, k, n, s);
    } else {
      PendingIsLast(g, s);
      StampedTold(g.transfers[|g.transfers| - 1], logs, k, n, s);
    }
    forall j | 0 <= j < |h.transfers| ensures Told(h.transfers[j], logs, k, j + 1, n) {
      if j + 1 != NumberAt(logs, n - 1) { SameTold(g.transfers[j], logs, k, j + 1, n); }
    }
  }

  /** Which transfer a log is about, and which is pending after it. */
  lemma StepNumbers(g: TokenLedger, logs: seq<Log>, k: TokenKey, n: nat, s: TokenState)
    requires 0 < n <= |logs| && logs[n - 1].Key() == k && StateAt(logs, k, n - 1) == Some(s)
    requires StatusOf(logs[n - 1].event).Some? && Follows(s, logs[n - 1].event) && Mirrors(g, s)
    ensures Answered(logs[n - 1].event)
    ensures NumberAt(logs, n - 1) == |Continue(g, logs[n - 1]).transfers| > 0
    ensures Opener(logs[n - 1].event) ==> |g.transfers| == s.started
    ensures !Opener(logs[n - 1].event) ==> s.Held? && s.deal.Some?
    ensures PendingNumber(StateAt(logs, k, n)) in {0, NumberAt(logs, n - 1)}
  {
  }

  /** As long as its logs can be followed, a token's ledger holds of every transfer exactly what the
      contract's logs make of it: both parties, key, password and price as the contract last held
      them, every status and order status with its transaction, and whether fraud was approved. */
  lemma {:induction false} LedgerTold(logs: seq<Log>, k: TokenKey, n: nat)
    requires Possible(logs) && n <= |logs| && FollowedUpto(logs, k, n)
    ensures PassAt(logs, k, n).Some? ==> AllTold(PassAt(logs, k, n).value, logs, k, n)
  {
    hide Possible, Follows, Mirrors, Told, Continue, NumberAt;
    if n == 0 { return; }
    LedgerTold(logs, k, n - 1);
    var l := logs[n - 1];
    var before := PassAt(logs, k, n - 1);
    PassMirrors(logs, k, n - 1);
    if l.Key() == k && StatusOf(l.event).Some? {
      assert FollowedAt(logs, n - 1);
      var s := StateAt(logs, k, n - 1).value;
      NextMirrors(before, s, l);
      LogTold(before.value, logs, k, n, s);
    } else if before.Some? {
      var g := before.value;
      QuietLog(logs, k, n, g);
      forall j | 0 <= j < |g.transfers| ensures Told(g.transfers[j], logs, k, j + 1, n) {
        SameTold(g.transfers[j], logs, k, j + 1, n);
      }
    }
  }

  lemma QuietLog(logs: seq<Log>, k: TokenKey, n: nat, g: TokenLedger)
    requires Possible(logs) && 0 < n <= |logs| && FollowedUpto(logs, k, n) && PassAt(logs, k, n - 1) == Some(g)
    requires logs[n - 1].Key() != k || StatusOf(logs[n - 1].event).None?
    ensures StateAt(logs, k, n) == StateAt(logs, k, n - 1) && PassAt(logs, k, n) == Some(g)
  {
    hide Possible;
    PassMirrors(logs, k, n - 1);
    if logs[n - 1].Key() == k { Emitted(logs, n - 1); }
  }

  // ---------- Ended transfers ----------

  /** A number once pending or ended never becomes pending again for another transfer. */
  lemma {:induction false} DealKept(logs: seq<Log>, k: TokenKey, n: nat, m: nat, d: Deal)
    requires n < m <= |logs| && StateAt(logs, k, m).Some? && 0 < d.number
    requires StateAt(logs, k, n).Some? && StateAt(logs, k, n).value.Held? && StateAt(logs, k, n).value.deal == Some(d)
    requires StateAt(logs, k, n).value.started == d.number
    requires StateAt(logs, k, n + 1).Some? && StateAt(logs, k, n + 1).value.Held?
    requires StateAt(logs, k, n + 1).value.deal.None?
    ensures DealAt(logs, k, d.number, m) == Some(d)
    ensures StateAt(logs, k, m).value.Held? && StateAt(logs, k, m).value.started >= d.number
    ensures PendingNumber(StateAt(logs, k, m)) != d.number
  {
    if n + 1 == m {
      assert DealAt(logs, k, d.number, n) == Some(d);
    } else {
      DealKept(logs, k, n, m - 1, d);
    }
  }

  /** The log that ended a transfer is the last one about it. */
  lemma {:induction false} NothingAfter(logs: seq<Log>, k: TokenKey, n: nat, m: nat, d: Deal)
    requires n < m <= |logs| && StateAt(logs, k, m).Some? && 0 < d.number
    requires StateAt(logs, k, n).Some? && StateAt(logs, k, n).value.Held? && StateAt(logs, k, n).value.deal == Some(d)
    requires StateAt(logs, k, n).value.started == d.number
    requires StateAt(logs, k, n + 1).Some? && StateAt(logs, k, n + 1).value.Held?
    requires StateAt(logs, k, n + 1).value.deal.None?
    ensures Trail(logs, k, d.number, m) == Trail(logs, k, d.number, n + 1)
    ensures FraudProven(logs, k, d.number, m) == FraudProven(logs, k, d.number, n + 1)
  {
    if n + 1 < m {
      StateExists(logs, k, m - 1, m);
      NothingAfter(logs, k, n, m - 1, d);
      DealKept(logs, k, n, m - 1, d);
      assert !About(logs, m - 1, k, d.number);
    }
  }

  /** Log n ends the pending transfer of its token. */
  ghost predicate EndsAt(logs: seq<Log>, n: nat, d: Deal)
    requires n < |logs|
  {
    var k := logs[n].Key();
    && StateAt(logs, k, n).Some? && StateAt(logs, k, n).value.Held? && StateAt(logs, k, n).value.deal == Some(d)
    && StateAt(logs, k, n + 1).Some? && StateAt(logs, k, n + 1).value.Held?
    && StateAt(logs, k, n + 1).value.deal.None?
  }

  /** An ended transfer keeps for good what the contract held of it when it ended - both parties, the key
      and the password - and how it ended: its last status and the transaction that brought it, and
      approved fraud exactly if that is how it was decided. */
  lemma EndedTransferKept(logs: seq<Log>, n: nat, m: nat, d: Deal)
    requires Possible(logs) && n < m <= |logs| && EndsAt(logs, n, d) && FollowedUpto(logs, logs[n].Key(), m)
    ensures PassAt(logs, logs[n].Key(), m).Some?
    ensures
      var ts := PassAt(logs, logs[n].Key(), m).value.transfers;
      0 < d.number <= |ts|
      && var t := ts[d.number - 1];
         && t.from == d.from && t.to == d.to && t.key == d.key && t.password == d.password && t.number == d.number
         && (t.fraudApproved <==> logs[n].event == FraudDecided(true))
         && t.statuses != []
         && t.statuses[|t.statuses| - 1]
            == Stamp(if logs[n].event.Cancellation? then Cancelled else Finished, logs[n].tx)
         && (t.order.Some? <==> d.answer.Some?) && (t.order.Some? ==> t.order.value.price == d.answer.value)
  {
    hide Possible, Follows, Mirrors;
    var k := logs[n].Key();
    assert StateAfter(logs, k).Some? by { StateOfAll(logs, k); }
    StateExists(logs, k, m, |logs|);
    FollowedShorter(logs, k, n, m);
    PassMirrors(logs, k, n);
    PassMirrors(logs, k, m);
    LedgerTold(logs, k, n);
    LedgerTold(logs, k, m);
    var g := PassAt(logs, k, n).value;
    var s := StateAt(logs, k, n).value;
    PendingIsLast(g, s);
    PendingUnproven(g, logs, k, n, s);
    DealKept(logs, k, n, m, d);
    NothingAfter(logs, k, n, m, d);
    AsMany(PassAt(logs, k, m).value, StateAt(logs, k, m).value);
    EndingLog(logs, n, d);
  }

  lemma StateOfAll(logs: seq<Log>, k: TokenKey)
    requires Possible(logs)
    ensures StateAfter(logs, k).Some?
  {
  }

  lemma FollowedShorter(logs: seq<Log>, k: TokenKey, n: nat, m: nat)
    requires n <= m <= |logs| && FollowedUpto(logs, k, m)
    ensures FollowedUpto(logs, k, n)
  {
  }

  lemma AsMany(g: TokenLedger, s: TokenState)
    requires Mirrors(g, s)
    ensures s.Held? && |g.transfers| == s.started
  {
  }

  lemma PendingUnproven(g: TokenLedger, logs: seq<Log>, k: TokenKey, n: nat, s: TokenState)
    requires n <= |logs| && Mirrors(g, s) && s.deal.Some? && AllTold(g, logs, k, n)
    ensures !FraudProven(logs, k, s.deal.value.number, n)
  {
    PendingIsLast(g, s);
    assert Told(g.transfers[|g.transfers| - 1], logs, k, |g.transfers|, n);
  }

  lemma EndingLog(logs: seq<Log>, n: nat, d: Deal)
    requires n < |logs| && EndsAt(logs, n, d)
    ensures About(logs, n, logs[n].Key(), d.number)
    ensures StatusOf(logs[n].event) == Some(if logs[n].event.Cancellation? then Cancelled else Finished)
  {
  }

  // ---------- The rows ----------

  /** On the tables themselves: every row of every table says what the contracts' logs make of it, and
      every transfer the contracts started has its row. */
  lemma RowsTold(d: Db, clock: int, logs: seq<Log>, row: TransferRow) returns (deal: Deal)
    requires Valid(d, clock) && Legal(logs) && Faithful(ViewOf(d), logs) && row in d.transfers
    ensures DealAt(logs, row.token, row.number, |logs|) == Some(deal)
    ensures row.from == deal.from && row.to == deal.to && row.key == deal.key && row.password == deal.password
    ensures row.fraudApproved <==> FraudProven(logs, row.token, row.number, |logs|)
    ensures History(d.transferStatuses, row.id) == Trail(logs, row.token, row.number, |logs|)
    ensures forall o :: o in d.orders && o.transferId == row.id ==>
      Some(o.price) == deal.answer && History(d.orderStatuses, o.id) == OrderTrail(logs, row.token, row.number, |logs|)
    ensures deal.answer.Some? ==> exists o :: o in d.orders && o.transferId == row.id
  {
    hide Possible, Follows, Mirrored, FollowedAt, PassAt, StateAt, Trail, OrderTrail, FraudProven, DealAt, Timed;
    var k := row.token;
    var n :| 0 <= n < |d.transfers| && d.transfers[n] == row;
    var i := PositionFound(d.transfers, n);
    assert PassAt(logs, k, |logs|) == if k in ViewOf(d) then Some(ViewOf(d)[k]) else None;
    LedgerTold(logs, k, |logs|);
    var t := ViewOf(d)[k].transfers[i];
    assert t == TransferOf(d, row) && Told(t, logs, k, i + 1, |logs|);
    DealNumber(logs, k, i + 1, |logs|);
    deal := DealAt(logs, k, i + 1, |logs|).value;
    var o := OrderRowOf(d.orders, row.id);
    forall p | p in d.orders && p.transferId == row.id ensures Some(p) == o {
      OneOrderPerTransfer(d, p, o.value);
    }
  }

  lemma {:induction false} DealNumber(logs: seq<Log>, k: TokenKey, number: nat, n: nat)
    requires n <= |logs|
    ensures DealAt(logs, k, number, n).Some? ==> DealAt(logs, k, number, n).value.number == number
  {
    if n > 0 { DealNumber(logs, k, number, n - 1); }
  }

  /** Every transfer that has ended has its row, and the row keeps what the contract held of it. */
  lemma EndedRow(d: Db, clock: int, logs: seq<Log>, n: nat, deal: Deal) returns (row: TransferRow)
    requires Valid(d, clock) && Legal(logs) && Faithful(ViewOf(d), logs) && n < |logs| && EndsAt(logs, n, deal)
    ensures row in d.transfers && row.token == logs[n].Key() && row.number == deal.number
    ensures row.from == deal.from && row.to == deal.to && row.key == deal.key && row.password == deal.password
    ensures row.fraudApproved <==> logs[n].event == FraudDecided(true)
  {
    hide Possible, Follows, Mirrored, FollowedAt, PassAt, StateAt, Timed, EndsAt;
    var k := logs[n].Key();
    EndedTransferKept(logs, n, |logs|, deal);
    assert PassAt(logs, k, |logs|) == if k in ViewOf(d) then Some(ViewOf(d)[k]) else None;
    row := d.transfers[Positions(d.transfers, k)[deal.number - 1]];
    assert TransferOf(d, row) == TransfersOf(d, k)[deal.number - 1];
  }

  lemma {:induction false} MintTold(logs: seq<Log>, p: nat, n: nat)
    requires Possible(logs) && p < n <= |logs| && logs[p].event.Mint? && FollowedUpto(logs, logs[p].Key(), n)
    ensures var g := PassAt(logs, logs[p].Key(), n); g.Some? && g.value.mintTx == logs[p].tx
  {
    hide Possible, Follows, Mirrors;
    var k := logs[p].Key();
    if p + 1 < n {
      MintTold(logs, p, n - 1);
    } else {
      PassMirrors(logs, k, p);
      Emitted(logs, p);
      if PassAt(logs, k, p).Some? { AsMany(PassAt(logs, k, p).value, StateAt(logs, k, p).value); }
    }
  }

  /** The tokens table holds exactly the minted tokens, each with its owner and the transaction of its
      mint, and has as many transfers of each as the contract started. */
  lemma TokensTold(d: Db, clock: int, logs: seq<Log>, k: TokenKey)
    requires Valid(d, clock) && Legal(logs) && Faithful(ViewOf(d), logs)
    ensures StateAfter(logs, k).Some? && (k in d.tokens <==> StateAfter(logs, k).value.Held?)
    ensures k in d.tokens ==>
      && d.tokens[k].owner == StateAfter(logs, k).value.owner
      && |Positions(d.transfers, k)| == StateAfter(logs, k).value.started
    ensures forall p :: 0 <= p < |logs| && logs[p].event.Mint? && logs[p].Key() == k ==>
      k in d.tokens && d.tokens[k].mintTx == logs[p].tx
  {
    hide Possible, Follows, FollowedAt, PassAt, StateAt, Timed, Volume;
    OwnersAndSales(ViewOf(d), logs, k);
    assert PassAt(logs, k, |logs|) == if k in ViewOf(d) then Some(ViewOf(d)[k]) else None;
    forall p | 0 <= p < |logs| && logs[p].event.Mint? && logs[p].Key() == k
      ensures k in d.tokens && d.tokens[k].mintTx == logs[p].tx
    {
      MintTold(logs, p, |logs|);
    }
  }

  lemma {:induction false} TrailHas(logs: seq<Log>, k: TokenKey, number: nat, i: nat, n: nat)
    requires i < n <= |logs| && About(logs, i, k, number)
    ensures Stamp(StatusOf(logs[i].event).value, logs[i].tx) in Trail(logs, k, number, n)
    ensures logs[i].event == FraudDecided(true) ==> FraudProven(logs, k, number, n)
  {
    if i + 1 < n { TrailHas(logs, k, number, i, n - 1); }
  }

  /** The status row that a log calls for. */
  predicate Calls(e: Event, s: Status) {
    match e
    case TransferInit(_, _, _) => s == Created
    case TransferDraft(_, _, _, _) => s == Drafted
    case DraftCompletion(_) => s == Created
    case PublicKeySet(_) => s == PublicKeySaved
    case PasswordSet(_) => s == PasswordSaved
    case FraudReported => s == Reported
    case TransferFinished => s == Finished
    case FraudDecided(_) => s == Finished
    case Cancellation => s == Cancelled
    case _ => false
  }

  /** Nothing a log says is lost: its transfer's row holds its parties, key and password and the decision
      on a fraud, the order's row its answered price, and a status row its transaction. */
  lemma EveryLogInTheRows(d: Db, clock: int, logs: seq<Log>, i: nat) returns (row: TransferRow, s: StatusRow<Status>)
    requires Valid(d, clock) && Legal(logs) && Faithful(ViewOf(d), logs)
    requires i < |logs| && !logs[i].event.Mint? && !logs[i].event.Unindexed?
    ensures row in d.transfers && row.token == logs[i].Key()
    ensures s in d.transferStatuses && s.parent == row.id && s.tx == logs[i].tx && Calls(logs[i].event, s.status)
    ensures
      match logs[i].event
      case TransferInit(from, to, number) => row.number == number && row.from == from && (to != 0 ==> row.to == to)
      case TransferDraft(from, number, order, answer) =>
        row.number == number && row.from == from
        && exists o :: o in d.orders && o.transferId == row.id && Some(o.price) == answer
      case DraftCompletion(to) => row.to == to
      case PublicKeySet(key) => row.key == key
      case PasswordSet(password) => row.password == password
      case FraudDecided(approved) => approved ==> row.fraudApproved
      case _ => true
  {
    hide Possible, Follows, Mirrored, FollowedAt, PassAt, Trail, FraudProven, DealAt, Timed, PassedAt;
    var k := logs[i].Key();
    var number := NumberAt(logs, i);
    TokensTold(d, clock, logs, k);
    StillCarried(logs, k, i, |logs|);
    row := d.transfers[Positions(d.transfers, k)[number - 1]];
    NumberedRow(d, logs, k, number);
    var deal := RowsTold(d, clock, logs, row);
    LogCarried(logs, i, |logs|);
    AnsweredLog(logs, i);
    TrailHas(logs, k, number, i, |logs|);
    var stamp := Stamp(StatusOf(logs[i].event).value, logs[i].tx);
    HistoryHas(d.transferStatuses, row.id, stamp);
    s :| s in d.transferStatuses && s.parent == row.id && s.status == stamp.status && s.tx == stamp.tx;
  }

  lemma AnsweredLog(logs: seq<Log>, i: nat)
    requires Followable(logs) && i < |logs|
    ensures Answered(logs[i].event)
  {
    assert FollowedAt(logs, i);
  }

  lemma NumberedRow(d: Db, logs: seq<Log>, k: TokenKey, number: nat)
    requires Faithful(ViewOf(d), logs) && k in d.tokens && 0 < number <= |Positions(d.transfers, k)|
    ensures d.transfers[Positions(d.transfers, k)[number - 1]].number == number
  {
    LedgerMirrors(ViewOf(d), logs, k);
    assert ViewOf(d)[k].transfers[number - 1].number == number;
  }
}
