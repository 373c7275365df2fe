/**
  What the indexer's tables say about each token, with row ids and timestamps left out, and
  the effect of one log on it.  Ids are left out because a rolled-back transaction still
  consumes them, timestamps because they are the indexer's own clock.
 */
module Ledger {
  import opened Wrappers
  import opened Chain

  datatype Status = Drafted | Created | PublicKeySaved | PasswordSaved | Reported | Finished | Cancelled
  datatype OrderStatus = Placed | Fulfilled | Paid | Withdrawn | FraudApproved

  /** A row of a status table: the status and the transaction that caused it. */
  datatype Stamp<S> = Stamp(status: S, tx: Hash)

  datatype Order = Order(price: nat, statuses: seq<Stamp<OrderStatus>>)

  datatype Transfer = Transfer(
    from: Address, to: Address, number: nat, fraudApproved: bool, key: string, password: string,
    statuses: seq<Stamp<Status>>, order: Option<Order>)

  datatype TokenLedger = TokenLedger(owner: Address, mintTx: Hash, transfers: seq<Transfer>)

  type View = map<TokenKey, TokenLedger>

  /** The status row a log leaves behind, which is also what it is deduplicated by. */
  function StatusOf(e: Event): Option<Status> {
    match e
    case TransferInit(_, _, _) => Some(Created)
    case TransferDraft(_, _, _, _) => Some(Drafted)
    case DraftCompletion(_) => Some(Created)
    case PublicKeySet(_) => Some(PublicKeySaved)
    case PasswordSet(_) => Some(PasswordSaved)
    case TransferFinished => Some(Finished)
    case FraudReported => Some(Reported)
    case FraudDecided(_) => Some(Finished)
    case Cancellation => Some(Cancelled)
    case _ => None
  }

  function OrderStatusOf(e: Event): Option<OrderStatus> {
    match e
    case DraftCompletion(_) => Some(Fulfilled)
    case TransferFinished => Some(Paid)
    case FraudDecided(approved) => Some(if approved then FraudApproved else Paid)
    case Cancellation => Some(Withdrawn)
    case _ => None
  }

  predicate Terminal(s: Status) { s.Finished? || s.Cancelled? }

  /** A transfer is active unless its latest status ends it. */
  predicate Active(t: Transfer) {
    t.statuses != [] && !Terminal(t.statuses[|t.statuses| - 1].status)
  }

  function FirstActive(ts: seq<Transfer>): (r: Option<nat>)
    ensures r.Some? ==> r.value < |ts| && Active(ts[r.value])
    ensures r.Some? ==> forall i :: 0 <= i < r.value ==> !Active(ts[i])
    ensures r.None? ==> forall i :: 0 <= i < |ts| ==> !Active(ts[i])
  {
    if ts == [] then None
    else
      var r := FirstActive(ts[..|ts| - 1]);
      if r.Some? then r
      else if Active(ts[|ts| - 1]) then Some(|ts| - 1) else None
  }

  /** A transfer after one more event of its token. */
  function Stamped(t: Transfer, e: Event, tx: Hash): Transfer
    requires StatusOf(e).Some?
  {
    var order :=
      if t.order.Some? && OrderStatusOf(e).Some?
      then Some(t.order.value.(statuses := t.order.value.statuses + [Stamp(OrderStatusOf(e).value, tx)]))
      else t.order;
    var noted := t.(statuses := t.statuses + [Stamp(StatusOf(e).value, tx)], order := order);
    match e
    case DraftCompletion(to) => noted.(to := to)
    case PublicKeySet(key) => noted.(key := key)
    case PasswordSet(password) => noted.(password := password)
    case FraudDecided(approved) => noted.(fraudApproved := t.fraudApproved || approved)
    case _ => noted
  }

  predicate HandsOver(e: Event) {
    e.TransferFinished? || (e.FraudDecided? && !e.approved)
  }

  function Advance(g: TokenLedger, i: nat, e: Event, tx: Hash): TokenLedger
    requires i < |g.transfers| && StatusOf(e).Some?
  {
    g.(owner := if HandsOver(e) then g.transfers[i].to else g.owner,
       transfers := g.transfers[i := Stamped(g.transfers[i], e, tx)])
  }

  /** A draft the exchange has no order for by the end of its block is an error. */
  predicate Answered(e: Event) { e.TransferDraft? ==> e.answer.Some? }

  function Opened(e: Event, tx: Hash): Transfer
    requires (e.TransferInit? || e.TransferDraft?) && Answered(e)
  {
    match e
    case TransferInit(from, to, number) =>
      Transfer(from, to, number, false, "", "", [Stamp(Created, tx)], None)
    case TransferDraft(from, number, _, answer) =>
      Transfer(from, ZERO_ADDRESS, number, false, "", "", [Stamp(Drafted, tx)],
               Some(Order(answer.value, [Stamp(Placed, tx)])))
  }

  /** Has some transfer of a token with this id, in any collection, this status from this
      transaction?  The deduplication query does not look at the collection. */
  ghost predicate Seen(v: View, token: nat, status: Status, tx: Hash) {
    exists k :: k in v && k.id == token && HasStamp(v[k], Stamp(status, tx))
  }

  ghost predicate HasStamp(g: TokenLedger, s: Stamp<Status>) {
    exists i :: 0 <= i < |g.transfers| && s in g.transfers[i].statuses
  }

  /** What the outside world does while one log is handled: everything answers, the block
      lookup of a mint fails, or some other call fails. */
  datatype Weather = Clear | LookupFails | CallFails

  /** The effect of one log; None when the handler returns an error. */
  ghost function Handle(v: View, l: Log, w: Weather): Option<View> {
    match l.event
    case Unindexed => Some(v)
    case Mint(owner) =>
      var k := TokenKey(l.txTo, l.token);
      if w.LookupFails? || k in v then Some(v)
      else if w.CallFails? then None
      else Some(v[k := TokenLedger(owner, l.tx, [])])
    case _ =>
      if Seen(v, l.token, StatusOf(l.event).value, l.tx) || l.Key() !in v then Some(v)
      else if w.CallFails? then None
      else HandleNew(v, l)
  }

  ghost function HandleNew(v: View, l: Log): Option<View>
    requires StatusOf(l.event).Some? && l.Key() in v
  {
    if l.event.TransferInit? || l.event.TransferDraft? then
      var k := if l.event.TransferInit? then TokenKey(l.txTo, l.token) else l.Key();
      if k !in v || !Answered(l.event) then None
      else Some(v[k := v[k].(transfers := v[k].transfers + [Opened(l.event, l.tx)])])
    else
      var g := v[l.Key()];
      var active := FirstActive(g.transfers);
      if active.None? || (l.event.DraftCompletion? && g.transfers[active.value].order.None?) then None
      else Some(v[l.Key() := Advance(g, active.value, l.event, l.tx)])
  }

  /** The first n logs of a list, handled in order. */
  ghost function HandleFirst(v: View, logs: seq<Log>, ws: seq<Weather>, n: nat): Option<View>
    requires n <= |logs| == |ws|
  {
    if n == 0 then Some(v)
    else
      var before := HandleFirst(v, logs, ws, n - 1);
      if before.None? then None else Handle(before.value, logs[n - 1], ws[n - 1])
  }

  /** One block transaction. */
  ghost function HandleAll(v: View, logs: seq<Log>, ws: seq<Weather>): Option<View>
    requires |logs| == |ws|
  {
    HandleFirst(v, logs, ws, |logs|)
  }

  lemma {:induction false} StuckStays(v: View, logs: seq<Log>, ws: seq<Weather>, m: nat, n: nat)
    requires m <= n <= |logs| == |ws| && HandleFirst(v, logs, ws, m).None?
    ensures HandleFirst(v, logs, ws, n).None?
  {
    if m < n { StuckStays(v, logs, ws, m, n - 1); }
  }

  /** A clean pass: the first n logs handled once, in order, with nothing failing outside. */
  ghost function CleanAt(logs: seq<Log>, n: nat): Option<View>
    requires n <= |logs|
  {
    if n == 0 then Some(map[])
    else
      var before := CleanAt(logs, n - 1);
      if before.None? then None else Handle(before.value, logs[n - 1], Clear)
  }

  ghost function Clean(logs: seq<Log>): Option<View> { CleanAt(logs, |logs|) }

  lemma {:induction false} SameClean(a: seq<Log>, b: seq<Log>, n: nat)
    requires n <= |a| && n <= |b| && forall i :: 0 <= i < n ==> a[i] == b[i]
    ensures CleanAt(a, n) == CleanAt(b, n)
  {
    if n > 0 { SameClean(a, b, n - 1); }
  }
}
