/**
  Deduplication by transaction, status and token id: on which histories it swallows nothing.
 */
module Dedup {
  import opened Wrappers
  import opened Chain
  import opened Ledger
  import opened Refinement

  /** A history the contracts can produce, sent home, whatever its transactions. */
  ghost predicate Emittable(logs: seq<Log>) { (forall k :: StateAfter(logs, k).Some?) && SentHome(logs) }

  /** Log n repeats the token id, transaction and status of an earlier log - of any collection. */
  ghost predicate Repeats(logs: seq<Log>, n: nat)
    requires n < |logs|
  {
    exists i :: 0 <= i < n && SameStamp(logs[i], logs[n])
  }

  // ---------- Counting status rows ----------

  function Stamps(ts: seq<Transfer>): nat {
    if ts == [] then 0 else Stamps(ts[..|ts| - 1]) + |ts[|ts| - 1].statuses|
  }

  lemma StampsAppend(ts: seq<Transfer>, t: Transfer)
    ensures Stamps(ts + [t]) == Stamps(ts) + |t.statuses|
  {
    assert (ts + [t])[..|ts|] == ts;
  }

  lemma {:induction false} StampsUpdate(ts: seq<Transfer>, i: nat, t: Transfer)
    requires i < |ts|
    ensures Stamps(ts[i := t]) == Stamps(ts) - |ts[i].statuses| + |t.statuses|
  {
    var n := |ts| - 1;
    if i < n {
      StampsUpdate(ts[..n], i, t);
      assert ts[i := t][..n] == ts[..n][i := t];
    } else {
      assert ts[i := t][..n] == ts[..n];
    }
  }

  function StampsOf(g: Option<TokenLedger>): nat { if g.Some? then Stamps(g.value.transfers) else 0 }

  function At(v: View, k: TokenKey): Option<TokenLedger> { if k in v then Some(v[k]) else None }

  predicate Leaves(l: Log, k: TokenKey) { l.Key() == k && StatusOf(l.event).Some? }

  /** Handling a log adds at most one status row, to its own token. */
  lemma HandleStamps(v: View, l: Log, w: Weather, k: TokenKey)
    requires l.event.Mint? || l.event.TransferInit? ==> l.txTo == l.address
    requires Handle(v, l, w).Some?
    ensures StampsOf(At(Handle(v, l, w).value, k)) <= StampsOf(At(v, k)) + if Leaves(l, k) then 1 else 0
  {
    hide Seen;
    var e := Handle(v, l, w).value;
    if e != v && Leaves(l, k) {
      var ts := v[k].transfers;
      if l.event.TransferInit? || l.event.TransferDraft? {
        StampsAppend(ts, Opened(l.event, l.tx));
      } else {
        var i := FirstActive(ts).value;
        StampsUpdate(ts, i, Stamped(ts[i], l.event, l.tx));
      }
    }
  }

  /** The status logs of a token among the first n. */
  function Left(logs: seq<Log>, k: TokenKey, n: nat): nat
    requires n <= |logs|
  {
    if n == 0 then 0 else Left(logs, k, n - 1) + if Leaves(logs[n - 1], k) then 1 else 0
  }

  /** A ledger has one transfer for each that was started. */
  predicate Sized(g: Option<TokenLedger>, s: TokenState) {
    && (s.Held? <==> g.Some?)
    && (s.Held? ==> |g.value.transfers| == s.started && (s.deal.Some? ==> s.started > 0))
  }

  lemma ContinueStampsMore(g: TokenLedger, l: Log)
    requires StatusOf(l.event).Some? && Answered(l.event)
    requires l.event.TransferInit? || l.event.TransferDraft? || g.transfers != []
    ensures Stamps(Continue(g, l).transfers) == Stamps(g.transfers) + 1
    ensures |Continue(g, l).transfers| ==
      |g.transfers| + if l.event.TransferInit? || l.event.TransferDraft? then 1 else 0
  {
    var ts := g.transfers;
    if l.event.TransferInit? || l.event.TransferDraft? {
      StampsAppend(ts, Opened(l.event, l.tx));
    } else {
      StampsUpdate(ts, |ts| - 1, Stamped(ts[|ts| - 1], l.event, l.tx));
    }
  }

  lemma NextCounts(g: Option<TokenLedger>, s: TokenState, l: Log)
    requires Sized(g, s) && Follows(s, l.event)
    ensures Sized(Next(g, l), Emit(s, l.event).value)
    ensures StampsOf(Next(g, l)) == StampsOf(g) + if StatusOf(l.event).Some? then 1 else 0
  {
    hide Continue, Stamps;
    if g.Some? && StatusOf(l.event).Some? { ContinueStampsMore(g.value, l); }
    if l.event.Mint? { NoStampsYet(); }
  }

  lemma NoStampsYet()
    ensures Stamps([]) == 0
  {
  }

  /** A token's own logs leave one row each. */
  lemma {:induction false} PassCounts(logs: seq<Log>, k: TokenKey, n: nat)
    requires n <= |logs| && StateAt(logs, k, n).Some? && (forall i: nat :: i < n ==> FollowedAt(logs, i))
    ensures Sized(PassAt(logs, k, n), StateAt(logs, k, n).value)
    ensures StampsOf(PassAt(logs, k, n)) == Left(logs, k, n)
  {
    hide Follows, Emit, Next;
    if n > 0 {
      PassCounts(logs, k, n - 1);
      if logs[n - 1].Key() == k {
        assert FollowedAt(logs, n - 1);
        NextCounts(PassAt(logs, k, n - 1), StateAt(logs, k, n - 1).value, logs[n - 1]);
      }
    }
  }

  lemma {:induction false} CleanCounts(logs: seq<Log>, k: TokenKey, m: nat, n: nat)
    requires SentHome(logs) && m <= n <= |logs| && CleanAt(logs, n).Some?
    ensures CleanAt(logs, m).Some?
    ensures StampsOf(At(CleanAt(logs, n).value, k)) <=
      StampsOf(At(CleanAt(logs, m).value, k)) + (Left(logs, k, n) - Left(logs, k, m))
  {
    hide Handle, Leaves, StampsOf;
    if m < n {
      CleanCounts(logs, k, m, n - 1);
      HandleStamps(CleanAt(logs, n - 1).value, logs[n - 1], Clear, k);
    }
  }

  // ---------- The first repetition ----------

  lemma {:induction false} FirstRepeat(logs: seq<Log>, n: nat) returns (m: nat)
    requires n < |logs| && Repeats(logs, n)
    ensures m <= n && Repeats(logs, m) && forall i: nat :: i < m ==> !Repeats(logs, i)
  {
    hide Repeats;
    if i: nat :| i < n && Repeats(logs, i) { m := FirstRepeat(logs, i); } else { m := n; }
  }

  lemma PrefixPossible(logs: seq<Log>, n: nat)
    requires Emittable(logs) && n <= |logs| && forall i: nat :: i < n ==> !Repeats(logs, i)
    ensures Possible(logs[..n])
  {
    hide StateAt, SameStamp;
    forall k ensures StateAfter(logs[..n], k).Some? {
      assert StateAfter(logs, k).Some?;
      StateExists(logs, k, n, |logs|);
      SameState(logs, logs[..n], k, n);
    }
    forall i, j | 0 <= i < j < n ensures !SameStamp(logs[..n][i], logs[..n][j]) {
      assert !Repeats(logs, j);
    }
  }

  /** A log that repeats is swallowed: its handler returns early, without an error. */
  lemma RepeatSwallowed(logs: seq<Log>, n: nat)
    requires Emittable(logs) && n < |logs| && Repeats(logs, n) && (forall i: nat :: i < n ==> !Repeats(logs, i))
    requires forall i: nat :: i < n ==> FollowedAt(logs, i)
    ensures CleanAt(logs, n).Some? && CleanAt(logs, n + 1) == CleanAt(logs, n)
    ensures PassedAt(CleanAt(logs, n).value, logs, n)
  {
    hide Emittable, FollowedAt, PassAt, HasStamp, StateAt;
    var part := logs[..n];
    PrefixPossible(logs, n);
    forall i: nat | i < n ensures FollowedAt(part, i) { SameFollowed(logs, part, i); }
    CleanPass(part, n);
    SameClean(logs, part, n);
    var v := CleanAt(logs, n).value;
    forall k ensures PassAt(logs, k, n) == PassAt(part, k, n) { SamePass(logs, part, k, n); }
    var i :| 0 <= i < n && SameStamp(logs[i], logs[n]);
    var k := logs[i].Key();
    var stamp := Stamp(StatusOf(logs[n].event).value, logs[n].tx);
    assert LeftBy(part, i, k, stamp);
    PassStamps(part, k, n, stamp);
    assert PassAt(part, k, n) == if k in v then Some(v[k]) else None;
    assert Seen(v, logs[n].token, stamp.status, stamp.tx);
  }

  lemma SameFollowed(a: seq<Log>, b: seq<Log>, i: nat)
    requires i < |a| && i < |b| && FollowedAt(a, i) && forall j :: 0 <= j <= i ==> a[j] == b[j]
    ensures FollowedAt(b, i)
  {
    SameState(a, b, a[i].Key(), i);
  }

  lemma {:induction false} SamePass(a: seq<Log>, b: seq<Log>, k: TokenKey, n: nat)
    requires n <= |a| && n <= |b| && forall i :: 0 <= i < n ==> a[i] == b[i]
    ensures PassAt(a, k, n) == PassAt(b, k, n)
  {
    if n > 0 { SamePass(a, b, k, n - 1); }
  }

  lemma NoRepeats(logs: seq<Log>)
    ensures DistinctStamps(logs) <==> forall n: nat :: n < |logs| ==> !Repeats(logs, n)
  {
    if DistinctStamps(logs) {
      forall n: nat | n < |logs| ensures !Repeats(logs, n) {}
    } else {
      var i, j :| 0 <= i < j < |logs| && SameStamp(logs[i], logs[j]);
      assert Repeats(logs, j);
    }
  }

  /** Over every history the contracts can produce and the indexer can follow, a clean pass leaves every
      token where its own logs leave it if and only if no transaction gives one token id the same
      status twice, be it in two collections. */
  lemma NothingSwallowedIff(logs: seq<Log>)
    requires Emittable(logs) && Followable(logs)
    ensures (Clean(logs).Some? && PassedAt(Clean(logs).value, logs, |logs|)) <==> DistinctStamps(logs)
  {
    hide FollowedAt, PassAt, StateAt, Repeats, DistinctStamps;
    NoRepeats(logs);
    if DistinctStamps(logs) {
      assert Possible(logs);
      CleanPass(logs, |logs|);
    } else {
      var n: nat :| n < |logs| && Repeats(logs, n);
      var m := FirstRepeat(logs, n);
      RepeatSwallowed(logs, m);
      if Clean(logs).Some? && PassedAt(Clean(logs).value, logs, |logs|) {
        OneShort(logs, m);
      }
    }
  }

  lemma OneShort(logs: seq<Log>, m: nat)
    requires Emittable(logs) && Followable(logs) && m < |logs| && Repeats(logs, m)
    requires CleanAt(logs, m).Some? && PassedAt(CleanAt(logs, m).value, logs, m)
    requires CleanAt(logs, m + 1) == CleanAt(logs, m) && Clean(logs).Some?
    ensures !PassedAt(Clean(logs).value, logs, |logs|)
  {
    hide FollowedAt, PassAt, StateAt, CleanAt, StampsOf;
    var k := logs[m].Key();
    var v, w := CleanAt(logs, m).value, CleanAt(logs, |logs|).value;
    assert StateAfter(logs, k).Some?;
    StateExists(logs, k, m, |logs|);
    PassCounts(logs, k, m);
    PassCounts(logs, k, |logs|);
    CleanCounts(logs, k, m + 1, |logs|);
    assert Leaves(logs[m], k);
    PassedHere(v, logs, m, k);
    if PassedAt(w, logs, |logs|) {
      PassedHere(w, logs, |logs|, k);
      assert false;
    }
  }

  lemma PassedHere(v: View, logs: seq<Log>, n: nat, k: TokenKey)
    requires n <= |logs| && PassedAt(v, logs, n)
    ensures PassAt(logs, k, n) == At(v, k)
  {
  }

  /** Two collections, one token id, and one transaction that drafts a transfer in both: the indexer
      never hears of the second. */
  lemma SharedId()
    ensures
      var logs := [Log(1, 1, 1, 5, Mint(9)), Log(2, 2, 2, 5, Mint(9)),
                   Log(4, 3, 1, 5, TransferDraft(9, 1, Some(7), Some(7))),
                   Log(4, 3, 2, 5, TransferDraft(9, 1, Some(7), Some(7)))];
      var k := TokenKey(2, 5);
      && Emittable(logs) && Followable(logs)
      && Clean(logs).Some? && k in Clean(logs).value && Clean(logs).value[k].transfers == []
      && StateAfter(logs, k).Some? && StateAfter(logs, k).value.Held? && StateAfter(logs, k).value.started == 1
  {
    var logs := [Log(1, 1, 1, 5, Mint(9)), Log(2, 2, 2, 5, Mint(9)),
                 Log(4, 3, 1, 5, TransferDraft(9, 1, Some(7), Some(7))),
                 Log(4, 3, 2, 5, TransferDraft(9, 1, Some(7), Some(7)))];
    hide CleanAt, PassedAt;
    SharedStates(logs);
    assert SameStamp(logs[2], logs[3]);
    RepeatSwallowed(logs, 3);
    PassedHere(CleanAt(logs, 3).value, logs, 3, TokenKey(2, 5));
    SharedPass(logs);
  }

  lemma SharedStates(logs: seq<Log>)
    requires logs == [Log(1, 1, 1, 5, Mint(9)), Log(2, 2, 2, 5, Mint(9)),
                      Log(4, 3, 1, 5, TransferDraft(9, 1, Some(7), Some(7))),
                      Log(4, 3, 2, 5, TransferDraft(9, 1, Some(7), Some(7)))]
    ensures Emittable(logs) && Followable(logs)
    ensures StateAfter(logs, TokenKey(2, 5)).Some? && StateAfter(logs, TokenKey(2, 5)).value.Held?
    ensures StateAfter(logs, TokenKey(2, 5)).value.started == 1
    ensures !Repeats(logs, 0) && !Repeats(logs, 1) && !Repeats(logs, 2)
  {
    forall k ensures StateAt(logs, k, 0) == StateAt(logs, TokenKey(2, 5), 1) == Some(Unminted)
      && StateAt(logs, k, 4).Some?
      && (k in {TokenKey(1, 5), TokenKey(2, 5)} ==> StateAt(logs, k, 2) == Some(Held(9, 0, None, 0, 0)))
    {
      assert StateAt(logs, k, 1) == Some(if k == TokenKey(1, 5) then Held(9, 0, None, 0, 0) else Unminted);
      assert StateAt(logs, k, 2) ==
        Some(if k in {TokenKey(1, 5), TokenKey(2, 5)} then Held(9, 0, None, 0, 0) else Unminted);
      assert StateAt(logs, k, 3).Some?;
    }
    assert StateAt(logs, TokenKey(2, 5), 3) == StateAt(logs, TokenKey(2, 5), 2);
    forall n: nat | n < 4 ensures FollowedAt(logs, n) { assert n in {0, 1, 2, 3}; }
  }

  lemma SharedPass(logs: seq<Log>)
    requires |logs| == 4 && logs[0].Key() == logs[2].Key() == TokenKey(1, 5)
    requires logs[1] == Log(2, 2, 2, 5, Mint(9))
    ensures PassAt(logs, TokenKey(2, 5), 3) == Some(TokenLedger(9, 2, []))
  {
    var k := TokenKey(2, 5);
    assert PassAt(logs, k, 0) == None && PassAt(logs, k, 1) == None;
    assert PassAt(logs, k, 2) == Some(TokenLedger(9, 2, []));
  }
}
