/**
  The exchange's answers.  The indexer asks about a draft by the end of its block, so the answer is the
  order standing then, which need not be the draft's own.
 */
module Exchange {
  import opened Wrappers
  import opened Chain
  import opened Ledger
  import opened Refinement
  import opened Runs

  /** The price of the order standing for a token. */
  function Standing(s: Option<TokenState>): Option<nat> {
    match s
    case Some(Held(_, _, Some(deal), _, _)) => deal.order
    case _ => None
  }

  function StateAtBlock(chain: seq<seq<Log>>, k: TokenKey, n: nat): Option<TokenState>
    requires n <= |chain| && Base(chain, n) <= |All(chain)|
  {
    StateAt(All(chain), k, Base(chain, n))
  }

  /** Every draft is answered with the order standing at the end of its block. */
  ghost predicate EndOfBlock(chain: seq<seq<Log>>) {
    forall n: nat, i: nat :: n < |chain| && i < |chain[n]| ==> AnsweredAtEnd(chain, n, i)
  }

  ghost predicate AnsweredAtEnd(chain: seq<seq<Log>>, n: nat, i: nat)
    requires n < |chain| && i < |chain[n]|
  {
    var l := chain[n][i];
    l.event.TransferDraft? && Base(chain, n + 1) <= |All(chain)| ==>
      l.event.answer == Standing(StateAtBlock(chain, l.Key(), n + 1))
  }

  /** What the pending transfer of a state was answered: its own order, or x. */
  predicate Answers(s: Option<TokenState>, x: Option<nat>) {
    match s
    case Some(Held(_, _, Some(deal), _, _)) => deal.answer == deal.order || deal.answer == x
    case _ => true
  }

  lemma EmitAnswers(s: TokenState, e: Event, x: Option<nat>)
    requires Answers(Some(s), x) && (e.TransferDraft? ==> e.answer == x)
    ensures Answers(Emit(s, e), x)
  {
  }

  lemma {:induction false} WithinBlock(chain: seq<seq<Log>>, k: TokenKey, n: nat, i: nat)
    requires EndOfBlock(chain) && n < |chain| && i <= |chain[n]|
    requires Base(chain, n) + |chain[n]| == Base(chain, n + 1) <= |All(chain)|
    requires forall x :: Answers(StateAtBlock(chain, k, n), x)
    ensures Answers(StateAt(All(chain), k, Base(chain, n) + i), Standing(StateAtBlock(chain, k, n + 1)))
  {
    hide Flat, Emit;
    if i > 0 {
      WithinBlock(chain, k, n, i - 1);
      BlockHere(chain, n);
      var p := Base(chain, n) + (i - 1);
      var l := chain[n][i - 1];
      assert All(chain)[p] == l && p + 1 == Base(chain, n) + i;
      assert AnsweredAtEnd(chain, n, i - 1);
      var before := StateAt(All(chain), k, p);
      if before.Some? && l.Key() == k { EmitAnswers(before.value, l.event, Standing(StateAtBlock(chain, k, n + 1))); }
    } else {
      assert Base(chain, n) + 0 == Base(chain, n);
      assert Answers(StateAtBlock(chain, k, n), Standing(StateAtBlock(chain, k, n + 1)));
    }
  }

  /** At the end of every block, each pending transfer was answered with its own order. */
  lemma {:induction false} PendingAnswered(chain: seq<seq<Log>>, k: TokenKey, n: nat)
    requires EndOfBlock(chain) && n <= |chain|
    ensures Base(chain, n) <= |All(chain)| && forall x :: Answers(StateAtBlock(chain, k, n), x)
  {
    hide Flat, EndOfBlock;
    FlatMonotone(chain, n, |chain|);
    if n == 0 {
      assert Base(chain, 0) == 0 by { BaseIsZero(chain); }
    } else {
      PendingAnswered(chain, k, n - 1);
      BlockHere(chain, n - 1);
      WithinBlock(chain, k, n - 1, |chain[n - 1]|);
    }
  }

  lemma BaseIsZero(chain: seq<seq<Log>>)
    ensures Base(chain, 0) == 0
  {
  }

  // ---------- What sales paid ----------

  /** The pending transfer of a state, by number. */
  function Pending(s: Option<TokenState>): Option<nat> {
    match s
    case Some(Held(_, _, Some(deal), _, _)) => Some(deal.number)
    case _ => None
  }

  predicate Counted(s: Option<TokenState>) {
    match s
    case Some(Held(_, started, Some(deal), _, _)) => deal.number == started
    case _ => true
  }

  /** What is sold in block n was pending when the block began. */
  ghost predicate SoldLater(chain: seq<seq<Log>>, n: nat)
    requires n < |chain| && Base(chain, n) + |chain[n]| <= |All(chain)|
  {
    forall i: nat :: i < |chain[n]| && HandsOver(chain[n][i].event) ==> WasPending(chain, n, i)
  }

  predicate WasPending(chain: seq<seq<Log>>, n: nat, i: nat)
    requires n < |chain| && i < |chain[n]| && Base(chain, n) + i <= |All(chain)|
  {
    var k := chain[n][i].Key();
    Pending(StateAtBlock(chain, k, n)) == Pending(StateAt(All(chain), k, Base(chain, n) + i))
  }

  /** No transfer is drafted and sold within one block. */
  ghost predicate NoFlashSale(chain: seq<seq<Log>>) {
    forall n: nat :: n < |chain| && Base(chain, n) + |chain[n]| <= |All(chain)| ==> SoldLater(chain, n)
  }

  /** What the answer to a sale overstates, the sold transfer not being the one with this number. */
  function Overstates(s: TokenState, e: Event, number: Option<nat>): int {
    match s
    case Held(_, _, Some(deal), _, _) =>
      if HandsOver(e) && Some(deal.number) != number then deal.answer.GetOr(0) - deal.order.GetOr(0) else 0
    case _ => 0
  }

  /** The first i logs of a block: what the answers to the transfers both drafted and sold there
      overstate, added up. */
  function Overstated(chain: seq<seq<Log>>, k: TokenKey, n: nat, i: nat): int
    requires n < |chain| && i <= |chain[n]| && Base(chain, n) + |chain[n]| <= |All(chain)|
  {
    if i == 0 then 0
    else
      var before := StateAt(All(chain), k, Base(chain, n) + i - 1);
      var number := Pending(StateAtBlock(chain, k, n));
      Overstated(chain, k, n, i - 1)
      + if chain[n][i - 1].Key() == k && before.Some? then Overstates(before.value, chain[n][i - 1].event, number)
        else 0
  }

  /** ... and over the first n blocks. */
  function OverstatedBy(chain: seq<seq<Log>>, k: TokenKey, n: nat): int
    requires n <= |chain|
  {
    if n == 0 then 0
    else
      FlatMonotone(chain, n, |chain|);
      BlockHere(chain, n - 1);
      OverstatedBy(chain, k, n - 1) + Overstated(chain, k, n - 1, |chain[n - 1]|)
  }

  /** The answers overstate what was paid by d; the transfer with this number was answered with its
      own order; no pending transfer is younger than the count says, and later ones have larger numbers. */
  predicate Settled(s: Option<TokenState>, number: Option<nat>, d: int) {
    match s
    case Some(Held(_, started, deal, paid, answered)) =>
      && answered == paid + d && Counted(s) && (number.Some? ==> number.value <= started)
      && (deal.Some? && Some(deal.value.number) == number ==> deal.value.answer == deal.value.order)
    case _ => number.None? && d == 0
  }

  lemma EmitSettles(s: TokenState, e: Event, number: Option<nat>, d: int)
    requires Settled(Some(s), number, d)
    ensures Emit(s, e).Some? ==> Settled(Emit(s, e), number, d + Overstates(s, e, number))
  {
  }

  lemma {:induction false} SettledWithin(chain: seq<seq<Log>>, k: TokenKey, n: nat, i: nat, d: int)
    requires Possible(All(chain)) && n < |chain| && i <= |chain[n]|
    requires Base(chain, n) + |chain[n]| <= |All(chain)|
    requires Settled(StateAtBlock(chain, k, n), Pending(StateAtBlock(chain, k, n)), d)
    ensures Settled(StateAt(All(chain), k, Base(chain, n) + i), Pending(StateAtBlock(chain, k, n)),
                    d + Overstated(chain, k, n, i))
  {
    hide Flat, Emit, Possible, Overstates, Settled;
    if i > 0 {
      SettledWithin(chain, k, n, i - 1, d);
      BlockHere(chain, n);
      var p := Base(chain, n) + (i - 1);
      assert All(chain)[p] == chain[n][i - 1];
      if chain[n][i - 1].Key() == k {
        Emitted(All(chain), p);
        EmitSettles(StateAt(All(chain), k, p).value, chain[n][i - 1].event, Pending(StateAtBlock(chain, k, n)),
                    d + Overstated(chain, k, n, i - 1));
      }
    }
  }

  lemma Resettle(s: Option<TokenState>, number: Option<nat>, d: int)
    requires Settled(s, number, d) && Answers(s, None) && (forall x :: Answers(s, x))
    ensures Settled(s, Pending(s), d)
  {
    assert Answers(s, Some(0)) && Answers(s, Some(1));
  }

  /** At the end of every block the answers to a token's sales exceed what the exchange paid out by
      exactly what the transfers drafted and sold within one block account for. */
  lemma {:induction false} PaidAndAnswered(chain: seq<seq<Log>>, k: TokenKey, n: nat)
    requires Possible(All(chain)) && EndOfBlock(chain) && n <= |chain|
    ensures Base(chain, n) <= |All(chain)| && StateAtBlock(chain, k, n).Some?
    ensures Settled(StateAtBlock(chain, k, n), Pending(StateAtBlock(chain, k, n)), OverstatedBy(chain, k, n))
    ensures var s := StateAtBlock(chain, k, n).value;
      if s.Held? then s.answered == s.paid + OverstatedBy(chain, k, n) else OverstatedBy(chain, k, n) == 0
  {
    hide Flat, Possible, EndOfBlock, Overstated;
    PendingAnswered(chain, k, n);
    assert StateAfter(All(chain), k).Some? by { PossibleStates(All(chain), k); }
    StateExists(All(chain), k, Base(chain, n), |All(chain)|);
    if n == 0 {
      BaseIsZero(chain);
    } else {
      PaidAndAnswered(chain, k, n - 1);
      BlockHere(chain, n - 1);
      SettledWithin(chain, k, n - 1, |chain[n - 1]|, OverstatedBy(chain, k, n - 1));
      Resettle(StateAtBlock(chain, k, n), Pending(StateAtBlock(chain, k, n - 1)), OverstatedBy(chain, k, n));
    }
  }

  lemma {:induction false} NothingOverstated(chain: seq<seq<Log>>, k: TokenKey, n: nat, i: nat)
    requires n < |chain| && i <= |chain[n]| && Base(chain, n) + |chain[n]| <= |All(chain)| && SoldLater(chain, n)
    ensures Overstated(chain, k, n, i) == 0
  {
    hide Flat, StateAt;
    if i > 0 {
      NothingOverstated(chain, k, n, i - 1);
      assert HandsOver(chain[n][i - 1].event) ==> WasPending(chain, n, i - 1);
    }
  }

  /** Without such transfers the answers are what was paid. */
  lemma {:induction false} PaidIsAnswered(chain: seq<seq<Log>>, k: TokenKey, n: nat)
    requires NoFlashSale(chain) && n <= |chain|
    ensures OverstatedBy(chain, k, n) == 0
  {
    hide Flat, Overstated, SoldLater;
    if n > 0 {
      PaidIsAnswered(chain, k, n - 1);
      FlatMonotone(chain, n, |chain|);
      BlockHere(chain, n - 1);
      NothingOverstated(chain, k, n - 1, |chain[n - 1]|);
    }
  }

  lemma PossibleStates(logs: seq<Log>, k: TokenKey)
    requires Possible(logs)
    ensures StateAfter(logs, k).Some?
  {
  }

  /** A sale at 100 and a new order at 200 within one block. */
  const FLASH: seq<Log> := [
    Log(1, 1, 1, 5, Mint(9)), Log(2, 1, 1, 5, TransferDraft(9, 1, Some(100), Some(200))),
    Log(3, 1, 1, 5, DraftCompletion(8)), Log(3, 1, 1, 5, PublicKeySet("k")), Log(4, 1, 1, 5, PasswordSet("p")),
    Log(5, 1, 1, 5, TransferFinished), Log(6, 1, 1, 5, TransferDraft(8, 2, Some(200), Some(200)))]

  lemma FlashStates()
    ensures StateAfter(FLASH, TokenKey(1, 5)) ==
      Some(Held(8, 2, Some(Deal(8, 0, 2, Some(200), Some(200), "", "", false)), 100, 200))
  {
    var k := TokenKey(1, 5);
    var deal := Deal(9, 8, 1, Some(100), Some(200), "k", "p", false);
    var sold := Deal(8, 0, 2, Some(200), Some(200), "", "", false);
    assert StateAt(FLASH, k, 0) == Some(Unminted);
    OneState(FLASH, k, 1, Unminted, Held(9, 0, None, 0, 0));
    OneState(FLASH, k, 2, Held(9, 0, None, 0, 0), Held(9, 1, Some(deal.(to := 0, key := "", password := "")), 0, 0));
    OneState(FLASH, k, 3, Held(9, 1, Some(deal.(to := 0, key := "", password := "")), 0, 0),
             Held(9, 1, Some(deal.(key := "", password := "")), 0, 0));
    OneState(FLASH, k, 4, Held(9, 1, Some(deal.(key := "", password := "")), 0, 0),
             Held(9, 1, Some(deal.(password := "")), 0, 0));
    OneState(FLASH, k, 5, Held(9, 1, Some(deal.(password := "")), 0, 0), Held(9, 1, Some(deal), 0, 0));
    OneState(FLASH, k, 6, Held(9, 1, Some(deal), 0, 0), Held(8, 1, None, 100, 200));
    OneState(FLASH, k, 7, Held(8, 1, None, 100, 200), Held(8, 2, Some(sold), 100, 200));
  }

  /** ... the sold draft was answered with 200, and only 100 were paid. */
  lemma FlashSale()
    ensures EndOfBlock([FLASH])
    ensures var s := StateAfter(FLASH, TokenKey(1, 5));
      s.Some? && s.value.Held? && s.value.paid == 100 && s.value.answered == 200
  {
    hide StateAt;
    FlashStates();
    assert Flat([FLASH], 0) == [] && Flat([FLASH], 1) == FLASH;
    forall i: nat | i < 7 ensures AnsweredAtEnd([FLASH], 0, i) {
      assert FLASH[i].Key() == TokenKey(1, 5);
    }
  }

  lemma OneState(logs: seq<Log>, k: TokenKey, n: nat, s: TokenState, t: TokenState)
    requires 0 < n <= |logs| && StateAt(logs, k, n - 1) == Some(s) && logs[n - 1].Key() == k
    requires Emit(s, logs[n - 1].event) == Some(t)
    ensures StateAt(logs, k, n) == Some(t)
  {
  }
}
