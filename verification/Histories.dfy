/**
  Concrete histories of everything that can go wrong with the indexer.
 */
module Histories {
  import opened Wrappers
  import opened Chain
  import opened Ledger
  import opened Refinement
  import opened Runs
  import opened Replay

  // ---------- What cannot be followed or is lost ----------

  const MINT := Log(1, 1, 1, 5, Mint(9))

  /** A history of one token leaves all others alone. */
  lemma {:induction false} OtherToken(logs: seq<Log>, k: TokenKey, q: TokenKey, n: nat)
    requires n <= |logs| && q != k && forall i :: 0 <= i < |logs| ==> logs[i].Key() == k
    ensures StateAt(logs, q, n) == Some(Unminted)
  {
    if n > 0 { OtherToken(logs, k, q, n - 1); }
  }

  /** The states of the one token of a history of three logs. */
  lemma ThreeStates(a: Log, b: Log, c: Log, k: TokenKey)
    requires a.Key() == b.Key() == c.Key() == k
    ensures StateAt([a, b, c], k, 1) == Emit(Unminted, a.event)
    ensures StateAt([a, b, c], k, 1).Some? ==> StateAt([a, b, c], k, 2) == Emit(StateAt([a, b, c], k, 1).value, b.event)
    ensures StateAt([a, b, c], k, 2).Some? ==> StateAt([a, b, c], k, 3) == Emit(StateAt([a, b, c], k, 2).value, c.event)
    ensures forall q :: q != k ==> StateAfter([a, b, c], q) == Some(Unminted)
  {
    hide Emit;
    assert StateAt([a, b, c], k, 0) == Some(Unminted);
    forall q | q != k ensures StateAfter([a, b, c], q) == Some(Unminted) { OtherToken([a, b, c], k, q, 3); }
  }

  /** Mint, a TransferInit without a recipient, and its completion: the contracts allow them, and no
      clean pass gets through. */
  lemma NamelessCompletionFails()
    ensures
      var logs := [MINT, Log(2, 1, 1, 5, TransferInit(9, ZERO_ADDRESS, 1)), Log(3, 1, 1, 5, DraftCompletion(8))];
      Possible(logs) && Clean(logs).None?
  {
    var logs := [MINT, Log(2, 1, 1, 5, TransferInit(9, ZERO_ADDRESS, 1)), Log(3, 1, 1, 5, DraftCompletion(8))];
    var k := TokenKey(1, 5);
    ThreeStates(logs[0], logs[1], logs[2], k);
    assert StateAt(logs, k, 2) == Some(Held(9, 1, Some(Deal(9, ZERO_ADDRESS, 1, None, None, "", "", false)), 0, 0));
    forall q ensures StateAfter(logs, q).Some? { assert q == k || q != k; }
    CleanPassSucceedsIff(logs);
    assert !FollowedAt(logs, 2);
  }

  /** Mint and a draft started past the exchange: it has no order to answer with. */
  lemma UnansweredDraftFails()
    ensures var logs := [MINT, Log(2, 1, 1, 5, TransferDraft(9, 1, None, None)), Log(3, 1, 1, 5, Unindexed)];
      Possible(logs) && Clean(logs).None?
  {
    var logs := [MINT, Log(2, 1, 1, 5, TransferDraft(9, 1, None, None)), Log(3, 1, 1, 5, Unindexed)];
    var k := TokenKey(1, 5);
    ThreeStates(logs[0], logs[1], logs[2], k);
    forall q ensures StateAfter(logs, q).Some? { assert q == k || q != k; }
    CleanPassSucceedsIff(logs);
    assert !FollowedAt(logs, 1);
  }

  lemma OneMint(steps: seq<Step>, v: View)
    requires |steps| == 1 && Take([[MINT]], START, steps[0]) == Some(Node(v, 1, Some(1), 1))
    ensures Run([[MINT]], START, steps) == Some(Node(v, 1, Some(1), 1))
    ensures Clean([MINT]) == Some(map[TokenKey(1, 5) := TokenLedger(9, 1, [])])
  {
    hide Take;
    assert RunAt([[MINT]], START, steps, 0) == Some(START);
    assert CleanAt([MINT], 0) == Some(map[]);
  }

  /** A mint whose lookup fails is dropped although its block commits and is recorded. */
  lemma DroppedMint()
    ensures
      var n := Run([[MINT]], START, [Committed([LookupFails], true)]);
      n == Some(Node(map[], 1, Some(1), 1)) && Clean([MINT]) == Some(map[TokenKey(1, 5) := TokenLedger(9, 1, [])])
  {
    assert HandleFirst(map[], [MINT], [LookupFails], 0) == Some(map[]);
    assert HandleFirst(map[], [MINT], [LookupFails], 1) == Some(map[]);
    OneMint([Committed([LookupFails], true)], map[]);
  }

  /** Stepping over a round with a mint loses it. */
  lemma SkippedRoundIsLost()
    ensures
      var n := Run([[MINT]], START, [Skipped(true)]);
      n == Some(Node(map[], 1, Some(1), 1)) && Clean([MINT]) != Some(map[])
  {
    OneMint([Skipped(true)], map[]);
    assert TokenKey(1, 5) in Clean([MINT]).value;
  }

  // ---------- Going back over a lost round ----------

  const INIT := Log(2, 1, 1, 5, TransferInit(9, 8, 1))
  const KEY := Log(3, 1, 1, 5, PublicKeySet("k"))
  const PASSWORD := Log(4, 1, 1, 5, PasswordSet("p"))
  const CHAIN: seq<seq<Log>> := [[MINT], [INIT], [KEY], [PASSWORD]]

  /** The round with the key is stepped over, the one with the password commits, a restart goes back, and
      now both commit. */
  const DETOUR: seq<Step> := [
    Committed([Clear], true), Committed([Clear], true), Skipped(false), Committed([Clear], false), Restarted,
    Committed([Clear], true), Committed([Clear], true)]

  function OneToken(transfers: seq<Transfer>): View { map[TokenKey(1, 5) := TokenLedger(9, 1, transfers)] }

  function Started(key: string, password: string, statuses: seq<Stamp<Status>>): Transfer {
    Transfer(9, 8, 1, false, key, password, statuses, None)
  }

  lemma Bases()
    ensures forall i :: 0 <= i <= 4 ==> Base(CHAIN, i) == i
    ensures All(CHAIN) == [MINT, INIT, KEY, PASSWORD]
  {
    assert Flat(CHAIN, 0) == [];
    assert Flat(CHAIN, 1) == [MINT];
    assert Flat(CHAIN, 2) == [MINT, INIT];
    assert Flat(CHAIN, 3) == [MINT, INIT, KEY];
  }

  /** One round of the detour commits and takes its log in. */
  lemma CommitOne(n: Node, v: View, l: Log, recorded: bool)
    requires n.latest < 4 && CHAIN[n.latest] == [l] && Handle(n.view, l, Clear) == Some(v)
    requires l.event.Mint? || (Indexed(l) && l.Key() in n.view)
    ensures Take(CHAIN, n, Committed([Clear], recorded)) == Some(Advanced(n, v, recorded))
    ensures TakenBy(CHAIN, n, Committed([Clear], recorded)) == {n.latest}
  {
    hide Handle, Flat;
    Bases();
    assert HandleFirst(n.view, [l], [Clear], 0) == Some(n.view);
    assert HandleFirst(n.view, [l], [Clear], 1) == Handle(n.view, l, Clear);
    assert TakenFirst(n.view, [l], [Clear], n.latest, 0) == {};
  }

  lemma StampOf(t: Transfer, s: Stamp<Status>)
    ensures HasStamp(TokenLedger(9, 1, [t]), s) <==> s in t.statuses
  {
    assert [t][0] == t;
  }

  lemma SeenOne(t: Transfer, status: Status, tx: Hash)
    ensures Seen(OneToken([t]), 5, status, tx) <==> Stamp(status, tx) in t.statuses
  {
    StampOf(t, Stamp(status, tx));
    assert TokenKey(1, 5) in OneToken([t]);
  }

  lemma FirstOf(t: Transfer)
    requires Active(t)
    ensures FirstActive([t]) == Some(0)
  {
    assert [t][..0] == [];
  }

  lemma StampOne(t: Transfer, l: Log)
    requires l in {KEY, PASSWORD} && Active(t)
    ensures Handle(OneToken([t]), l, Clear) ==
      if Stamp(StatusOf(l.event).value, l.tx) in t.statuses then Some(OneToken([t]))
      else Some(OneToken([Stamped(t, l.event, l.tx)]))
  {
    hide Seen;
    SeenOne(t, StatusOf(l.event).value, l.tx);
    FirstOf(t);
    assert [t][0 := Stamped(t, l.event, l.tx)] == [Stamped(t, l.event, l.tx)];
    var u := Stamped(t, l.event, l.tx);
    assert OneToken([t])[TokenKey(1, 5) := TokenLedger(9, 1, [u])] == OneToken([u]);
  }

  lemma OpenOne()
    ensures Handle(map[], MINT, Clear) == Some(OneToken([]))
    ensures Handle(OneToken([]), INIT, Clear) == Some(OneToken([Started("", "", [Stamp(Created, 2)])]))
  {
    assert !Seen(OneToken([]), 5, Created, 2);
    var t := Started("", "", [Stamp(Created, 2)]);
    assert [] + [t] == [t];
    assert OneToken([])[TokenKey(1, 5) := TokenLedger(9, 1, [t])] == OneToken([t]);
  }

  lemma StampsDetour(t: Transfer, u: Transfer, w: Transfer)
    requires t == Started("", "", [Stamp(Created, 2)])
    requires u == Started("", "p", [Stamp(Created, 2), Stamp(PasswordSaved, 4)])
    requires w == Started("k", "p", [Stamp(Created, 2), Stamp(PasswordSaved, 4), Stamp(PublicKeySaved, 3)])
    ensures Stamped(t, PASSWORD.event, 4) == u && Stamped(u, KEY.event, 3) == w
  {
  }

  /** Where the detour leads: every round was committed in the end, but out of order. */
  lemma DetourEnds()
    ensures
      var stamps := [Stamp(Created, 2), Stamp(PasswordSaved, 4), Stamp(PublicKeySaved, 3)];
      Run(CHAIN, START, DETOUR) == Some(Node(OneToken([Started("k", "p", stamps)]), 4, Some(4), 4))
    ensures {0, 1, 2, 3} <= Taken(CHAIN, DETOUR)
  {
    hide Handle, TakenBy, Stamped;
    OpenOne();
    var t := Started("", "", [Stamp(Created, 2)]);
    var u := Started("", "p", [Stamp(Created, 2), Stamp(PasswordSaved, 4)]);
    var w := Started("k", "p", [Stamp(Created, 2), Stamp(PasswordSaved, 4), Stamp(PublicKeySaved, 3)]);
    StampOne(t, PASSWORD);
    StampOne(u, KEY);
    StampOne(w, PASSWORD);
    StampsDetour(t, u, w);
    var n1, n2 := Node(OneToken([]), 1, Some(1), 1), Node(OneToken([t]), 2, Some(2), 2);
    var n3, n4 := Node(OneToken([t]), 3, Some(2), 3), Node(OneToken([u]), 4, Some(2), 4);
    var n5, n6 := Node(OneToken([u]), 2, Some(2), 4), Node(OneToken([w]), 3, Some(3), 4);
    CommitOne(START, OneToken([]), MINT, true);
    CommitOne(n1, OneToken([t]), INIT, true);
    CommitOne(n3, OneToken([u]), PASSWORD, false);
    CommitOne(n5, OneToken([w]), KEY, true);
    CommitOne(n6, OneToken([w]), PASSWORD, true);
    assert RunAt(CHAIN, START, DETOUR, 0) == Some(START);
    assert RunAt(CHAIN, START, DETOUR, 1) == Some(n1);
    assert RunAt(CHAIN, START, DETOUR, 2) == Some(n2);
    assert RunAt(CHAIN, START, DETOUR, 3) == Some(n3);
    assert RunAt(CHAIN, START, DETOUR, 4) == Some(n4);
    assert RunAt(CHAIN, START, DETOUR, 5) == Some(n5);
    assert RunAt(CHAIN, START, DETOUR, 6) == Some(n6);
    DetourTakes(n1, n3, n5);
  }

  lemma DetourTakes(n1: Node, n3: Node, n5: Node)
    requires RunAt(CHAIN, START, DETOUR, 1) == Some(n1) && TakenBy(CHAIN, START, DETOUR[0]) == {0}
    requires TakenBy(CHAIN, n1, DETOUR[1]) == {1}
    requires RunAt(CHAIN, START, DETOUR, 3) == Some(n3) && TakenBy(CHAIN, n3, DETOUR[3]) == {3}
    requires RunAt(CHAIN, START, DETOUR, 5) == Some(n5) && TakenBy(CHAIN, n5, DETOUR[5]) == {2}
    ensures {0, 1, 2, 3} <= Taken(CHAIN, DETOUR)
  {
    hide TakenBy, Take;
    assert RunAt(CHAIN, START, DETOUR, 0) == Some(START) && TakenAt(CHAIN, DETOUR, 0) == {};
    assert {0} <= TakenAt(CHAIN, DETOUR, 1);
    assert {0, 1} <= TakenAt(CHAIN, DETOUR, 2);
    assert {0, 1} <= TakenAt(CHAIN, DETOUR, 3);
    assert {0, 1, 3} <= TakenAt(CHAIN, DETOUR, 4);
    assert {0, 1, 3} <= TakenAt(CHAIN, DETOUR, 5);
    assert {0, 1, 2, 3} <= TakenAt(CHAIN, DETOUR, 6);
  }

  lemma DetourPossible()
    ensures Possible([MINT, INIT, KEY, PASSWORD])
  {
    var logs := [MINT, INIT, KEY, PASSWORD];
    var k := TokenKey(1, 5);
    var deal := Deal(9, 8, 1, None, None, "", "", false);
    assert StateAt(logs, k, 0) == Some(Unminted);
    assert StateAt(logs, k, 1) == Some(Held(9, 0, None, 0, 0));
    assert StateAt(logs, k, 2) == Some(Held(9, 1, Some(deal), 0, 0));
    assert StateAt(logs, k, 3) == Some(Held(9, 1, Some(deal.(key := "k")), 0, 0));
    assert StateAt(logs, k, 4).Some?;
    forall q | q != k ensures StateAfter(logs, q) == Some(Unminted) { OtherToken(logs, k, q, 4); }
  }

  lemma DetourPass()
    ensures PassAt([MINT, INIT, KEY, PASSWORD], TokenKey(1, 5), 4) == Some(TokenLedger(9, 1,
      [Started("k", "p", [Stamp(Created, 2), Stamp(PublicKeySaved, 3), Stamp(PasswordSaved, 4)])]))
  {
    var logs := [MINT, INIT, KEY, PASSWORD];
    var k := TokenKey(1, 5);
    assert PassAt(logs, k, 0) == None;
    assert PassAt(logs, k, 1) == Some(TokenLedger(9, 1, []));
    var t := Started("", "", [Stamp(Created, 2)]);
    assert [] + [t] == [t];
    assert PassAt(logs, k, 2) == Some(TokenLedger(9, 1, [t]));
    var u := Stamped(t, KEY.event, 3);
    assert [t][0 := u] == [u];
    assert PassAt(logs, k, 3) == Some(TokenLedger(9, 1, [u]));
    var w := Stamped(u, PASSWORD.event, 4);
    assert [u][0 := w] == [w];
    assert PassAt(logs, k, 4) == Some(TokenLedger(9, 1, [w]));
    assert w == Started("k", "p", [Stamp(Created, 2), Stamp(PublicKeySaved, 3), Stamp(PasswordSaved, 4)]);
  }

  /** Why exactly-once asks for the order: every log was taken in and the follower is as far as it ever
      was, and yet the tables are not those of a clean pass. */
  lemma OutOfOrder()
    ensures Run(CHAIN, START, DETOUR).Some? && Possible(All(CHAIN)) && Base(CHAIN, 4) <= |All(CHAIN)|
    ensures
      var n := Run(CHAIN, START, DETOUR).value;
      n.latest == n.tip == 4 && AllTaken(All(CHAIN), Taken(CHAIN, DETOUR), Base(CHAIN, 4))
      && Clean(Flat(CHAIN, 4)) != Some(n.view)
  {
    hide RunAt, TakenAt, Possible, PassAt, Handle, StateAt, FollowedAt, Flat;
    DetourEnds();
    Bases();
    DetourPossible();
    DetourPass();
    var v := Run(CHAIN, START, DETOUR).value.view;
    var logs := [MINT, INIT, KEY, PASSWORD];
    var k := TokenKey(1, 5);
    assert v[k].transfers[0].statuses[1] != PassAt(logs, k, 4).value.transfers[0].statuses[1];
    assert PassAt(logs, k, 4) != Some(v[k]);
    CleanPass(logs, 4);
  }
}
