/**
  The blockchain side of the marketplace: what the collection contracts log, and the
  per-token protocol those logs follow (sol-contracts/contracts/FilemarketCollectionV2.sol
  together with the order book of FilemarketExchangeV2.sol).
 */
module Chain {
  import opened Wrappers

  // Addresses and hashes are opaque identifiers; 0 is the zero address.
  type Address = nat
  type Hash = nat
  const ZERO_ADDRESS: Address := 0

  datatype TokenKey = TokenKey(collection: Address, id: nat)

  /** The logs the indexer understands.  `Mint` is an ERC-721 Transfer from the zero address;
      `Unindexed` stands for every other log.  `order` is the price of the order the exchange made
      with the draft, None for a draft started past the exchange.  `answer` is what the exchange
      tells the indexer about the token: the price of the order standing at the end of the log's
      block, None when there is none by then. */
  datatype Event =
    | Mint(owner: Address)
    | TransferInit(from: Address, to: Address, number: nat)
    | TransferDraft(from: Address, number: nat, order: Option<nat>, answer: Option<nat>)
    | DraftCompletion(to: Address)
    | PublicKeySet(key: string)
    | PasswordSet(password: string)
    | TransferFinished
    | FraudReported
    | FraudDecided(approved: bool)
    | Cancellation
    | Unindexed

  /** A log with the transaction it came from: `txTo` is the transaction's recipient,
      `address` the contract that emitted the log. */
  datatype Log = Log(tx: Hash, txTo: Address, address: Address, token: nat, event: Event) {
    function Key(): TokenKey { TokenKey(address, token) }
  }

  /** A pending transfer: the contract's TransferInfo, the price of the exchange's order behind it,
      and the answer the indexer gets for it.  A transfer started by TransferInit has neither. */
  datatype Deal = Deal(from: Address, to: Address, number: nat, order: Option<nat>, answer: Option<nat>,
                       key: string, password: string, reported: bool)

  /** A token as the contracts see it: its owner, how many transfers were ever started, the
      pending one, what the exchange has paid out for completed sales of this token, and what it
      would have by its answers to the indexer. */
  datatype TokenState =
    | Unminted
    | Held(owner: Address, started: nat, deal: Option<Deal>, paid: nat, answered: nat)

  /** The protocol automaton: the state after the event, or None where the contract reverts
      and so cannot log the event.  Draft completions are taken to name a recipient. */
  function Emit(s: TokenState, e: Event): Option<TokenState> {
    if e.Unindexed? then Some(s)
    else if s.Unminted? then
      if e.Mint? then Some(Held(e.owner, 0, None, 0, 0)) else None
    else if s.deal.None? then
      match e
      case TransferInit(from, to, number) =>
        if number == s.started + 1
        then Some(s.(started := number, deal := Some(Deal(from, to, number, None, None, "", "", false))))
        else None
      case TransferDraft(from, number, order, answer) =>
        if number == s.started + 1
        then Some(s.(started := number, deal := Some(Deal(from, ZERO_ADDRESS, number, order, answer, "", "", false))))
        else None
      case _ => None
    else
      EmitPending(s, s.deal.value, e)
  }

  function EmitPending(s: TokenState, d: Deal, e: Event): Option<TokenState>
    requires s.Held?
  {
    match e
    case DraftCompletion(to) =>
      if d.to == ZERO_ADDRESS && to != ZERO_ADDRESS then Some(s.(deal := Some(d.(to := to)))) else None
    case PublicKeySet(key) =>
      if d.to != ZERO_ADDRESS && d.key == "" && key != "" then Some(s.(deal := Some(d.(key := key)))) else None
    case PasswordSet(password) =>
      if d.key != "" && d.password == "" && password != ""
      then Some(s.(deal := Some(d.(password := password)))) else None
    case TransferFinished =>
      if d.password != "" && !d.reported then Some(Sold(s, d)) else None
    case FraudReported =>
      if d.password != "" && !d.reported then Some(s.(deal := Some(d.(reported := true)))) else None
    case FraudDecided(approved) =>
      if !d.reported then None
      else if approved then Some(s.(deal := None))
      else Some(Sold(s, d))
    case Cancellation =>
      if !d.reported then Some(s.(deal := None)) else None
    case _ => None
  }

  /** The token changes hands and the exchange pays the order's price out. */
  function Sold(s: TokenState, d: Deal): TokenState
    requires s.Held?
  {
    s.(owner := d.to, deal := None, paid := s.paid + d.order.GetOr(0), answered := s.answered + d.answer.GetOr(0))
  }

  /** One token's state after the first n logs; None if some log of that token was impossible. */
  function StateAt(logs: seq<Log>, k: TokenKey, n: nat): Option<TokenState>
    requires n <= |logs|
  {
    if n == 0 then Some(Unminted)
    else
      var before := StateAt(logs, k, n - 1);
      var last := logs[n - 1];
      if before.None? || last.Key() != k then before else Emit(before.value, last.event)
  }

  function StateAfter(logs: seq<Log>, k: TokenKey): Option<TokenState> { StateAt(logs, k, |logs|) }

  /** The state depends on the first n logs only. */
  lemma {:induction false} SameState(a: seq<Log>, b: seq<Log>, k: TokenKey, n: nat)
    requires n <= |a| && n <= |b| && forall i :: 0 <= i < n ==> a[i] == b[i]
    ensures StateAt(a, k, n) == StateAt(b, k, n)
  {
    if n > 0 { SameState(a, b, k, n - 1); }
  }
}
