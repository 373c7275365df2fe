/**
  Which runs take in every log: what stepping over a round loses, and what a failed look-up loses.
 */
module Delivery {
  import opened Wrappers
  import opened Chain
  import opened Ledger
  import opened Refinement
  import opened Runs
  import opened Replay

  // ---------- Rounds that were stepped over ----------

  predicate InRound(chain: seq<seq<Log>>, b: nat, p: nat) {
    b < |chain| && Base(chain, b) <= p < Base(chain, b + 1)
  }

  ghost predicate InSome(chain: seq<seq<Log>>, rounds: set<nat>, p: nat) {
    exists b :: b in rounds && InRound(chain, b, p)
  }

  /** The positions in some rounds. */
  ghost function Positions(chain: seq<seq<Log>>, rounds: set<nat>): set<nat> {
    set p: nat | p < |All(chain)| && InSome(chain, rounds, p)
  }

  /** Of each token taken in, all earlier logs are known. */
  ghost predicate Backed(logs: seq<Log>, taken: set<nat>, known: set<nat>) {
    forall p :: p in taken && p < |logs| ==> Ready(logs, known, p)
  }

  lemma SourcedMore(v: View, logs: seq<Log>, taken: set<nat>, known: set<nat>)
    requires Sourced(v, logs, taken) && taken <= known
    ensures Sourced(v, logs, known)
  {
    hide HasStamp;
    forall k | k in v ensures MintedBy(logs, known, k) { assert MintedBy(logs, taken, k); }
    forall k, stamp | k in v && HasStamp(v[k], stamp) ensures LeftByTaken(logs, known, k, stamp) {
      assert LeftByTaken(logs, taken, k, stamp);
    }
  }

  lemma {:induction false} TakenIndex(v: View, block: seq<Log>, ws: seq<Weather>, base: nat, n: nat, p: nat)
    returns (i: nat)
    requires n <= |block| == |ws| && p in TakenFirst(v, block, ws, base, n)
    ensures i < n && p == base + i && TakesAt(v, block, ws, i)
  {
    hide Takes, HandleFirst;
    if p in TakenFirst(v, block, ws, base, n - 1) {
      i := TakenIndex(v, block, ws, base, n - 1, p);
    } else {
      i := n - 1;
    }
  }

  /** After a block, what it took in is backed as well. */
  lemma BlockBacked(v: View, logs: seq<Log>, taken: set<nat>, known: set<nat>, base: nat, block: seq<Log>,
          ws: seq<Weather>)
    requires |block| == |ws| && IsBlockAt(block, logs, base) && Backed(logs, taken, known)
    requires ReadyFirst(v, logs, known, base, block, ws, |block|)
    ensures var more := TakenFirst(v, block, ws, base, |block|); Backed(logs, taken + more, known + more)
  {
    hide TakesAt, TakenFirst;
    var more := TakenFirst(v, block, ws, base, |block|);
    forall p | p in taken + more && p < |logs| ensures Ready(logs, known + more, p) {
      if p in taken {
        assert Ready(logs, known, p);
      } else {
        var i := TakenIndex(v, block, ws, base, |block|, p);
        TakenSplit(v, block, ws, base, i, |block|);
        assert ReadyAt(v, logs, known, base, block, ws, i);
      }
    }
  }

  /** Every log missing from the tables of a token, up to the follower's position, lies in a round that
      was stepped over. */
  ghost predicate OnlySkipped(chain: seq<seq<Log>>, v: View, latest: nat, taken: set<nat>, skipped: set<nat>) {
    var known := taken + Positions(chain, skipped);
    && latest <= |chain| && Complete(v, All(chain), known, Base(chain, latest))
    && Backed(All(chain), taken, known)
  }

  lemma LessComplete(v: View, logs: seq<Log>, known: set<nat>, n: nat, m: nat)
    requires Complete(v, logs, known, n) && m <= n
    ensures Complete(v, logs, known, m)
  {
  }

  /** Stepping over a round. */
  lemma SkipComplete(chain: seq<seq<Log>>, v: View, taken: set<nat>, skipped: set<nat>, b: nat)
    requires b < |chain|
    requires Complete(v, All(chain), taken + Positions(chain, skipped), Base(chain, b))
    ensures
      var more := if Silent(chain[b]) then skipped else skipped + {b};
      && Complete(v, All(chain), taken + Positions(chain, more), Base(chain, b + 1))
      && Positions(chain, skipped) <= Positions(chain, more)
  {
    BlockHere(chain, b);
    hide Flat;
    var more := if Silent(chain[b]) then skipped else skipped + {b};
    forall p | p in Positions(chain, skipped) ensures p in Positions(chain, more) {
      var r :| r in skipped && InRound(chain, r, p);
      assert r in more;
    }
    forall p: nat | p < Base(chain, b + 1) && p < |All(chain)| && All(chain)[p].Key() in v && Indexed(All(chain)[p])
      ensures p in taken + Positions(chain, more)
    {
      if p >= Base(chain, b) {
        assert All(chain)[Base(chain, b) + (p - Base(chain, b))] == chain[b][p - Base(chain, b)];
        assert InRound(chain, b, p);
      }
    }
  }

  lemma MoreBacked(logs: seq<Log>, taken: set<nat>, known: set<nat>, more: set<nat>)
    requires Backed(logs, taken, known) && known <= more
    ensures Backed(logs, taken, more)
  {
    forall p | p in taken && p < |logs| ensures Ready(logs, more, p) { assert Ready(logs, known, p); }
  }

  lemma CommitMissing(chain: seq<seq<Log>>, n: Node, taken: set<nat>, skipped: set<nat>, ws: seq<Weather>)
    requires Possible(All(chain)) && OnlySkipped(chain, n.view, n.latest, taken, skipped)
    requires Sourced(n.view, All(chain), taken)
    requires Attempt(chain, n, ws).Some?
    ensures n.latest < |chain|
    ensures
      var more := TakenFirst(n.view, chain[n.latest], ws, Base(chain, n.latest), |ws|);
      && OnlySkipped(chain, Attempt(chain, n, ws).value, n.latest, taken + more, skipped)
      && OnlySkipped(chain, Attempt(chain, n, ws).value, n.latest + 1, taken + more, skipped)
  {
    hide Possible, Complete, Backed, Flat, Sourced, SentHome, Positions, TakenFirst, HandleFirst;
    var logs, block, base := All(chain), chain[n.latest], Base(chain, n.latest);
    var known := taken + Positions(chain, skipped);
    var more := TakenFirst(n.view, block, ws, base, |ws|);
    var v := Attempt(chain, n, ws).value;
    BlockAtBase(chain, n.latest);
    BlockHere(chain, n.latest);
    SourcedMore(n.view, logs, taken, known);
    BlockComplete(n.view, logs, known, base, block, ws, |block|);
    BlockBacked(n.view, logs, taken, known, base, block, ws);
    assert known + more == (taken + more) + Positions(chain, skipped);
    LessComplete(v, logs, known + more, Base(chain, n.latest + 1), base);
  }

  lemma SkipMissing(chain: seq<seq<Log>>, n: Node, taken: set<nat>, skipped: set<nat>)
    requires OnlySkipped(chain, n.view, n.latest, taken, skipped) && n.latest < |chain|
    ensures
      var more := if Silent(chain[n.latest]) then skipped else skipped + {n.latest};
      OnlySkipped(chain, n.view, n.latest + 1, taken, more)
  {
    hide Complete, Backed, Flat, Silent, Positions;
    var more := if Silent(chain[n.latest]) then skipped else skipped + {n.latest};
    SkipComplete(chain, n.view, taken, skipped, n.latest);
    MoreBacked(All(chain), taken, taken + Positions(chain, skipped), taken + Positions(chain, more));
  }

  lemma BackMissing(chain: seq<seq<Log>>, n: Node, taken: set<nat>, skipped: set<nat>, latest: nat)
    requires OnlySkipped(chain, n.view, n.latest, taken, skipped) && latest <= n.latest
    ensures OnlySkipped(chain, n.view, latest, taken, skipped)
  {
    hide Complete, Backed, Flat, Positions;
    FlatMonotone(chain, latest, n.latest);
    LessComplete(n.view, All(chain), taken + Positions(chain, skipped), Base(chain, n.latest), Base(chain, latest));
  }

  lemma {:induction false} OnlySkippedMissing(chain: seq<seq<Log>>, steps: seq<Step>, m: nat)
    requires Possible(All(chain)) && m <= |steps| && RunAt(chain, START, steps, m).Some?
    ensures var n := RunAt(chain, START, steps, m).value;
      OnlySkipped(chain, n.view, n.latest, TakenAt(chain, steps, m), SkippedAt(chain, steps, m))
  {
    hide Possible, OnlySkipped, Flat, Silent, Sourced, SentHome, TakenFirst, HandleAll;
    if m == 0 {
      NothingMissing(chain);
      return;
    }
    OnlySkippedMissing(chain, steps, m - 1);
    RunBounds(chain, steps, m - 1);
    var n := RunAt(chain, START, steps, m - 1).value;
    var taken, skipped := TakenAt(chain, steps, m - 1), SkippedAt(chain, steps, m - 1);
    match steps[m - 1]
    case Skipped(_) => SkipMissing(chain, n, taken, skipped);
      assert TakenAt(chain, steps, m) == taken;
      assert SkippedAt(chain, steps, m) == if Silent(chain[n.latest]) then skipped else skipped + {n.latest};
    case Failed => assert TakenAt(chain, steps, m) == taken && SkippedAt(chain, steps, m) == skipped;
    case Restarted => BackMissing(chain, n, taken, skipped, n.recorded.value);
      assert TakenAt(chain, steps, m) == taken && SkippedAt(chain, steps, m) == skipped;
    case Committed(ws, _) => CommitStep(chain, n, steps, m, ws);
    case Unacknowledged(ws) => CommitStep(chain, n, steps, m, ws);
  }

  lemma CommitStep(chain: seq<seq<Log>>, n: Node, steps: seq<Step>, m: nat, ws: seq<Weather>)
    requires Possible(All(chain)) && 0 < m <= |steps| && RunAt(chain, START, steps, m - 1) == Some(n)
    requires steps[m - 1].Commits() && steps[m - 1].ws == ws && RunAt(chain, START, steps, m).Some?
    requires OnlySkipped(chain, n.view, n.latest, TakenAt(chain, steps, m - 1), SkippedAt(chain, steps, m - 1))
    ensures var n := RunAt(chain, START, steps, m).value;
      OnlySkipped(chain, n.view, n.latest, TakenAt(chain, steps, m), SkippedAt(chain, steps, m))
  {
    hide Possible, Complete, Backed, Flat, Silent, Sourced, SentHome, TakenFirst, HandleAll, Positions;
    var taken, skipped := TakenAt(chain, steps, m - 1), SkippedAt(chain, steps, m - 1);
    PossibleParts(All(chain));
    RunSourced(chain, steps, m - 1);
    CommitMissing(chain, n, taken, skipped, ws);
    var after := RunAt(chain, START, steps, m).value;
    var more := TakenFirst(n.view, chain[n.latest], ws, Base(chain, n.latest), |ws|);
    assert TakenAt(chain, steps, m) == taken + more && SkippedAt(chain, steps, m) == skipped;
  }

  lemma NothingMissing(chain: seq<seq<Log>>)
    ensures OnlySkipped(chain, START.view, START.latest, {}, {})
  {
  }

  /** A run that never goes back over a lost round takes in each token's logs in order. */
  lemma NeverBackInOrder(chain: seq<seq<Log>>, steps: seq<Step>)
    requires Possible(All(chain)) && Run(chain, START, steps).Some? && NeverBack(chain, steps)
    ensures InOrder(chain, steps)
  {
    hide Possible, Flat, Silent, OnlySkipped, NeverBack;
    forall m: nat | m < |steps| ensures TakesOnwards(chain, steps, m) {
      RunExists(chain, START, steps, m, |steps|);
      OnlySkippedMissing(chain, steps, m);
      LaterOnly(chain, steps, m);
    }
  }

  lemma LaterOnly(chain: seq<seq<Log>>, steps: seq<Step>, m: nat)
    requires m < |steps| && RunAt(chain, START, steps, m).Some? && NeverBack(chain, steps)
    requires var n := RunAt(chain, START, steps, m).value;
      OnlySkipped(chain, n.view, n.latest, TakenAt(chain, steps, m), SkippedAt(chain, steps, m))
    ensures TakesOnwards(chain, steps, m)
  {
    hide Flat, Silent, HandleAll, Complete, RunAt, TakenFirst;
    var n := RunAt(chain, START, steps, m).value;
    var before, after := TakenAt(chain, steps, m), TakenAt(chain, steps, m + 1);
    var skipped := SkippedAt(chain, steps, m);
    forall p, q | p in before && q in after && q !in before && SameToken(All(chain), p, q) ensures p < q {
      var ws := steps[m].ws;
      BlockHere(chain, n.latest);
      TakenSplit(n.view, chain[n.latest], ws, Base(chain, n.latest), 0, |ws|);
      var i := TakenIndex(n.view, chain[n.latest], ws, Base(chain, n.latest), |ws|, q);
      assert Indexed(All(chain)[q]) by { TakesIndexed(chain, n, ws, i); }
      assert Ready(All(chain), before + Positions(chain, skipped), p);
      if q < p {
        var b :| b in skipped && InRound(chain, b, q);
        FlatMonotone(chain, b + 1, n.latest);
        assert false;
      }
    }
  }

  lemma TakesIndexed(chain: seq<seq<Log>>, n: Node, ws: seq<Weather>, i: nat)
    requires n.latest < |chain| && i < |ws| == |chain[n.latest]| && TakesAt(n.view, chain[n.latest], ws, i)
    ensures Base(chain, n.latest) + i < |All(chain)| && Indexed(All(chain)[Base(chain, n.latest) + i])
  {
    BlockHere(chain, n.latest);
  }

  /** Exactly once.  After any run that never goes back over a lost round - with failed blocks, lost
      acknowledgements, a record that lags behind, rounds stepped over, and restarts that process
      committed blocks again - whenever the follower is as far as it ever was, its tables are exactly
      those of one clean pass over the blocks so far, if and only if every log so far was taken in by
      some committed attempt. */
  lemma {:induction false} ExactlyOnce(chain: seq<seq<Log>>, steps: seq<Step>)
    requires Possible(All(chain)) && Run(chain, START, steps).Some? && NeverBack(chain, steps)
    requires var n := Run(chain, START, steps).value; n.latest == n.tip
    ensures
      var n := Run(chain, START, steps).value;
      && n.latest <= |chain| && Base(chain, n.latest) <= |All(chain)|
      && (Clean(Flat(chain, n.latest)) == Some(n.view) <==>
          AllTaken(All(chain), Taken(chain, steps), Base(chain, n.latest)))
  {
    hide Possible, Flat, CleanAt, RunAt, TakenAt, AllTaken, InOrder, NeverBack;
    NeverBackInOrder(chain, steps);
    ExactlyOnceInOrder(chain, steps);
  }

  /** Such tables mirror the contracts, so that all that is proved of faithful tables holds of them. */
  lemma {:induction false} CaughtUpIsFaithful(chain: seq<seq<Log>>, steps: seq<Step>)
    requires Possible(All(chain)) && Run(chain, START, steps).Some? && NeverBack(chain, steps)
    requires var n := Run(chain, START, steps).value; n.latest == n.tip
    ensures
      var n := Run(chain, START, steps).value;
      && n.latest <= |chain| && Base(chain, n.latest) <= |All(chain)|
      && (AllTaken(All(chain), Taken(chain, steps), Base(chain, n.latest)) ==>
          Legal(Flat(chain, n.latest)) && Faithful(n.view, Flat(chain, n.latest)))
  {
    hide Possible, Flat, CleanAt, RunAt, TakenAt, AllTaken, NeverBack, Faithful, Followable;
    ExactlyOnce(chain, steps);
    var n := Run(chain, START, steps).value;
    if AllTaken(All(chain), Taken(chain, steps), Base(chain, n.latest)) {
      FlatMonotone(chain, n.latest, |chain|);
      LegalPrefix(All(chain), Base(chain, n.latest));
      CleanPassSucceedsIff(Flat(chain, n.latest));
      var v := CleanPassMirrors(Flat(chain, n.latest));
    }
  }

  /** What was taken in of a round, some step has committed from there. */
  lemma {:induction false} TakenFromRound(chain: seq<seq<Log>>, steps: seq<Step>, m: nat, b: nat, p: nat)
    returns (j: nat)
    requires m <= |steps| && p in TakenAt(chain, steps, m) && InRound(chain, b, p)
    ensures j < m && steps[j].Commits() && RunAt(chain, START, steps, j).Some?
    ensures RunAt(chain, START, steps, j).value.latest == b
  {
    hide Flat, HandleAll, TakenFirst;
    if p in TakenAt(chain, steps, m - 1) {
      j := TakenFromRound(chain, steps, m - 1, b, p);
    } else {
      j := m - 1;
      var n := RunAt(chain, START, steps, j).value;
      BlockHere(chain, n.latest);
      TakenSplit(n.view, chain[n.latest], steps[j].ws, Base(chain, n.latest), 0, |steps[j].ws|);
      if n.latest < b { FlatMonotone(chain, n.latest + 1, b); }
      if b < n.latest { FlatMonotone(chain, b + 1, n.latest); }
    }
  }

  /** No run, whatever it does, has the tables of the clean pass once it has got past a round with
      something to index that none of its steps committed. */
  lemma {:induction false} LostRound(chain: seq<seq<Log>>, steps: seq<Step>, b: nat)
    requires Possible(All(chain)) && Run(chain, START, steps).Some?
    requires b < |chain| && b < Run(chain, START, steps).value.latest && !Silent(chain[b])
    requires forall j: nat :: j < |steps| && steps[j].Commits() && RunAt(chain, START, steps, j).Some? ==>
      RunAt(chain, START, steps, j).value.latest != b
    ensures
      var n := Run(chain, START, steps).value;
      n.latest <= |chain| && Clean(Flat(chain, n.latest)) != Some(n.view)
  {
    hide Possible, Flat, CleanAt, RunAt, TakenAt, Handle;
    var n := Run(chain, START, steps).value;
    NothingMayBeMissing(chain, steps);
    FlatMonotone(chain, b + 1, n.latest);
    BlockHere(chain, b);
    var i :| 0 <= i < |chain[b]| && Indexed(chain[b][i]);
    var p := Base(chain, b) + i;
    assert Indexed(All(chain)[p]) && InRound(chain, b, p);
    if p in Taken(chain, steps) {
      var j := TakenFromRound(chain, steps, |steps|, b, p);
      assert false;
    }
  }

  // ---------- Runs that step over silent rounds only ----------

  lemma {:induction false} SkippedGrows(chain: seq<seq<Log>>, steps: seq<Step>, i: nat, m: nat)
    requires i <= m <= |steps|
    ensures SkippedAt(chain, steps, i) <= SkippedAt(chain, steps, m)
  {
    hide RunAt, Silent;
    if i < m { SkippedGrows(chain, steps, i, m - 1); }
  }

  lemma NoPositions(chain: seq<seq<Log>>)
    ensures Positions(chain, {}) == {}
  {
  }

  lemma BackedClosed(logs: seq<Log>, taken: set<nat>)
    requires Backed(logs, taken, taken)
    ensures DownClosed(logs, taken)
  {
  }

  lemma SilentComplete(chain: seq<seq<Log>>, steps: seq<Step>, m: nat)
    requires Possible(All(chain)) && m <= |steps| && RunAt(chain, START, steps, m).Some?
    requires SkippedAt(chain, steps, m) == {}
    ensures var n := RunAt(chain, START, steps, m).value;
      n.latest <= |chain| && Complete(n.view, All(chain), TakenAt(chain, steps, m), Base(chain, n.latest))
    ensures DownClosed(All(chain), TakenAt(chain, steps, m))
  {
    hide Possible, Flat, RunAt, TakenAt, SkippedAt, Complete, Backed, DownClosed, Positions;
    OnlySkippedMissing(chain, steps, m);
    NoPositions(chain);
    assert TakenAt(chain, steps, m) + {} == TakenAt(chain, steps, m);
    BackedClosed(All(chain), TakenAt(chain, steps, m));
  }

  /** In every state such a run reaches, every token stands where the logs taken in leave it, and all
      logs of the tokens in the tables, up to the follower's position, have been taken in. */
  lemma SilentTracked(chain: seq<seq<Log>>, steps: seq<Step>, m: nat)
    requires Possible(All(chain)) && m <= |steps| && RunAt(chain, START, steps, m).Some?
    requires SkippedAt(chain, steps, m) == {}
    ensures var n := RunAt(chain, START, steps, m).value;
      && n.latest <= |chain| && Complete(n.view, All(chain), TakenAt(chain, steps, m), Base(chain, n.latest))
      && Tracks(n.view, All(chain), TakenAt(chain, steps, m))
  {
    hide Possible, Flat, RunAt, TakenAt, SkippedAt, Complete, DownClosed, Tracks;
    SilentComplete(chain, steps, m);
    forall i: nat | i <= m ensures DownClosed(All(chain), TakenAt(chain, steps, i)) {
      RunExists(chain, START, steps, i, m);
      SkippedGrows(chain, steps, i, m);
      SilentComplete(chain, steps, i);
    }
    RunTracked(chain, steps, m);
  }

  lemma SilentNeverBack(chain: seq<seq<Log>>, steps: seq<Step>)
    requires SkipsSilent(chain, steps)
    ensures NeverBack(chain, steps)
  {
    hide RunAt, SkippedAt;
    forall m: nat | m <= |steps| ensures SkippedAt(chain, steps, m) == {} { SkippedGrows(chain, steps, m, |steps|); }
  }

  lemma {:induction false} BlockPresent(v: View, block: seq<Log>, ws: seq<Weather>, base: nat, n: nat)
    requires n <= |block| == |ws|
    requires SentHome(block)
    ensures var r := HandleFirst(v, block, ws, n);
      r.Some? ==>
        && v.Keys <= r.value.Keys
        && (forall q :: q in TakenFirst(v, block, ws, base, n) ==>
              base <= q < base + n && block[q - base].Key() in r.value)
        && (forall k :: k in r.value && k !in v ==>
              exists i :: 0 <= i < n && block[i].event.Mint? && block[i].Key() == k)
  {
    hide Handle;
    if n > 0 {
      BlockPresent(v, block, ws, base, n - 1);
      var before := HandleFirst(v, block, ws, n - 1);
      if before.Some? {
        HandleEffect(before.value, block[n - 1], ws[n - 1]);
        TakesPresent(before.value, block[n - 1], ws[n - 1]);
      }
    }
  }

  lemma TakesPresent(v: View, l: Log, w: Weather)
    requires l.event.Mint? ==> l.txTo == l.address
    ensures var r := Handle(v, l, w); r.Some? && l.event.Mint? && Takes(v, l, w) ==> l.Key() in r.value
  {
  }

  lemma BlockHome(chain: seq<seq<Log>>, b: nat)
    requires SentHome(All(chain)) && b < |chain|
    ensures SentHome(chain[b])
  {
    BlockHere(chain, b);
    forall i | 0 <= i < |chain[b]| && (chain[b][i].event.Mint? || chain[b][i].event.TransferInit?)
      ensures chain[b][i].txTo == chain[b][i].address
    {
      assert All(chain)[Base(chain, b) + i] == chain[b][i];
    }
  }

  /** The token of whatever was taken in is in the tables. */
  lemma {:induction false} TakenPresent(chain: seq<seq<Log>>, steps: seq<Step>, m: nat)
    requires SentHome(All(chain)) && m <= |steps| && RunAt(chain, START, steps, m).Some?
    ensures forall p :: p in TakenAt(chain, steps, m) ==>
      p < |All(chain)| && All(chain)[p].Key() in RunAt(chain, START, steps, m).value.view
  {
    hide Flat, SentHome, TakenBy, Take;
    if m > 0 {
      TakenPresent(chain, steps, m - 1);
      StepPresent(chain, RunAt(chain, START, steps, m - 1).value, steps[m - 1]);
    }
  }

  lemma StepPresent(chain: seq<seq<Log>>, n: Node, s: Step)
    requires SentHome(All(chain)) && Take(chain, n, s).Some?
    ensures n.view.Keys <= Take(chain, n, s).value.view.Keys
    ensures forall p :: p in TakenBy(chain, n, s) ==>
      p < |All(chain)| && All(chain)[p].Key() in Take(chain, n, s).value.view
  {
    hide Flat, SentHome, HandleFirst, TakenFirst;
    if s.Commits() {
      BlockHome(chain, n.latest);
      BlockHere(chain, n.latest);
      BlockPresent(n.view, chain[n.latest], s.ws, Base(chain, n.latest), |chain[n.latest]|);
    }
  }

  /** Every mint before a position was looked up successfully by some committed attempt. */
  ghost predicate MintsTaken(logs: seq<Log>, taken: set<nat>, n: nat)
    requires n <= |logs|
  {
    forall p: nat :: p < n && logs[p].event.Mint? ==> p in taken
  }

  lemma {:induction false} MintBefore(logs: seq<Log>, k: TokenKey, n: nat) returns (p: nat)
    requires n <= |logs| && StateAt(logs, k, n).Some? && StateAt(logs, k, n).value.Held?
    ensures p < n && logs[p].event.Mint? && logs[p].Key() == k
  {
    var before := StateAt(logs, k, n - 1);
    if before.value.Held? { p := MintBefore(logs, k, n - 1); } else { p := n - 1; }
  }

  lemma MintOf(logs: seq<Log>, p: nat) returns (q: nat)
    requires Possible(logs) && p < |logs| && Indexed(logs[p])
    ensures q <= p && logs[q].event.Mint? && logs[q].Key() == logs[p].Key()
  {
    hide Possible;
    Emitted(logs, p);
    if logs[p].event.Mint? { return p; }
    q := MintBefore(logs, logs[p].Key(), p);
  }

  /** In such a run the mints decide: whatever is missing is missing with its token. */
  lemma MintsDecide(chain: seq<seq<Log>>, steps: seq<Step>)
    requires Possible(All(chain)) && Run(chain, START, steps).Some? && SkipsSilent(chain, steps)
    ensures
      var n := Run(chain, START, steps).value;
      && n.latest <= |chain| && Base(chain, n.latest) <= |All(chain)|
      && (AllTaken(All(chain), Taken(chain, steps), Base(chain, n.latest)) <==>
          MintsTaken(All(chain), Taken(chain, steps), Base(chain, n.latest)))
  {
    hide Possible, Flat, RunAt, TakenAt, SkippedAt, Tracks, SentHome;
    SilentTracked(chain, steps, |steps|);
    PossibleParts(All(chain));
    TakenPresent(chain, steps, |steps|);
    var n := Run(chain, START, steps).value;
    FlatMonotone(chain, n.latest, |chain|);
    if MintsTaken(All(chain), Taken(chain, steps), Base(chain, n.latest)) {
      forall p: nat | p < Base(chain, n.latest) && Indexed(All(chain)[p]) ensures p in Taken(chain, steps) {
        var q := MintOf(All(chain), p);
      }
    }
  }

  /** Exactly once, when only silent rounds are stepped over: if and only if every minted token was
      looked up successfully by some committed attempt. */
  lemma ExactlyOnceSilent(chain: seq<seq<Log>>, steps: seq<Step>)
    requires Possible(All(chain)) && Run(chain, START, steps).Some? && SkipsSilent(chain, steps)
    requires var n := Run(chain, START, steps).value; n.latest == n.tip
    ensures
      var n := Run(chain, START, steps).value;
      && n.latest <= |chain| && Base(chain, n.latest) <= |All(chain)|
      && (Clean(Flat(chain, n.latest)) == Some(n.view) <==>
          MintsTaken(All(chain), Taken(chain, steps), Base(chain, n.latest)))
  {
    hide Possible, Flat, RunAt, TakenAt, SkippedAt, CleanAt, AllTaken, MintsTaken, NeverBack;
    SilentNeverBack(chain, steps);
    ExactlyOnce(chain, steps);
    MintsDecide(chain, steps);
  }

  // ---------- When no lookup fails ----------

  predicate LookupsAnswer(ws: seq<Weather>) { forall i :: 0 <= i < |ws| ==> !ws[i].LookupFails? }

  predicate NoLookupFails(steps: seq<Step>) {
    forall j :: 0 <= j < |steps| && steps[j].Commits() ==> LookupsAnswer(steps[j].ws)
  }

  lemma BaseZero(chain: seq<seq<Log>>)
    ensures Base(chain, 0) == 0
  {
  }

  lemma BlockMintsTaken(v: View, block: seq<Log>, ws: seq<Weather>, base: nat)
    requires |block| == |ws| && LookupsAnswer(ws) && HandleAll(v, block, ws).Some?
    ensures forall i :: 0 <= i < |block| && block[i].event.Mint? ==> base + i in TakenFirst(v, block, ws, base, |block|)
  {
    hide Handle;
    forall i: nat | i < |block| && block[i].event.Mint? ensures base + i in TakenFirst(v, block, ws, base, |block|) {
      if HandleFirst(v, block, ws, i).None? { StuckStays(v, block, ws, i, |block|); }
      TakenNow(v, block, ws, base, i);
      TakenSplit(v, block, ws, base, i + 1, |block|);
    }
  }

  /** The mints of the round the follower gets past first. */
  lemma NewMintsTaken(chain: seq<seq<Log>>, steps: seq<Step>, m: nat)
    requires m < |steps| && RunAt(chain, START, steps, m).Some? && RunAt(chain, START, steps, m + 1).Some?
    requires SkippedAt(chain, steps, m + 1) == {} && NoLookupFails(steps)
    requires RunAt(chain, START, steps, m).value.tip < RunAt(chain, START, steps, m + 1).value.tip
    ensures var n := RunAt(chain, START, steps, m).value;
      && n.latest < |chain| && RunAt(chain, START, steps, m + 1).value.tip == n.latest + 1
      && forall i :: 0 <= i < |chain[n.latest]| && chain[n.latest][i].event.Mint? ==>
           Base(chain, n.latest) + i in TakenAt(chain, steps, m + 1)
  {
    hide Flat, TakenFirst, HandleFirst;
    var n := RunAt(chain, START, steps, m).value;
    if steps[m].Commits() {
      BlockMintsTaken(n.view, chain[n.latest], steps[m].ws, Base(chain, n.latest));
    } else {
      assert Silent(chain[n.latest]);
      assert forall i :: 0 <= i < |chain[n.latest]| && chain[n.latest][i].event.Mint? ==> Indexed(chain[n.latest][i]);
    }
  }

  lemma {:induction false} MintsNeverDropped(chain: seq<seq<Log>>, steps: seq<Step>, m: nat)
    requires m <= |steps| && RunAt(chain, START, steps, m).Some? && SkippedAt(chain, steps, m) == {}
    requires NoLookupFails(steps)
    ensures var n := RunAt(chain, START, steps, m).value;
      && n.tip <= |chain| && Base(chain, n.tip) <= |All(chain)|
      && MintsTaken(All(chain), TakenAt(chain, steps, m), Base(chain, n.tip))
  {
    hide Flat, TakenBy, Take, Silent, NoLookupFails;
    RunBounds(chain, steps, m);
    var tip := RunAt(chain, START, steps, m).value.tip;
    FlatMonotone(chain, tip, |chain|);
    if m == 0 {
      BaseZero(chain);
    } else {
      MintsNeverDropped(chain, steps, m - 1);
      RunBounds(chain, steps, m - 1);
      var n := RunAt(chain, START, steps, m - 1).value;
      if n.tip < tip {
        NewMintsTaken(chain, steps, m - 1);
        BlockHere(chain, n.latest);
        FlatMonotone(chain, n.latest, n.tip);
        var block, base := chain[n.latest], Base(chain, n.latest);
        forall p: nat | base <= p < base + |block| && All(chain)[p].event.Mint? ensures p in TakenAt(chain, steps, m) {
          assert All(chain)[base + (p - base)] == block[p - base] && base + (p - base) == p;
        }
      } else {
        TipGrows(chain, n, steps[m - 1]);
      }
    }
  }

  lemma TipGrows(chain: seq<seq<Log>>, n: Node, s: Step)
    ensures Take(chain, n, s).Some? ==> n.tip <= Take(chain, n, s).value.tip
  {
  }

  /** If no mint's block lookup fails in a committed attempt, every caught-up run that steps over
      silent rounds only is exactly once. */
  lemma ExactlyOnceWhenLookupsAnswer(chain: seq<seq<Log>>, steps: seq<Step>)
    requires Possible(All(chain)) && Run(chain, START, steps).Some? && SkipsSilent(chain, steps) && NoLookupFails(steps)
    requires var n := Run(chain, START, steps).value; n.latest == n.tip
    ensures var n := Run(chain, START, steps).value; n.latest <= |chain| && Clean(Flat(chain, n.latest)) == Some(n.view)
  {
    hide Possible, Flat, RunAt, TakenAt, SkippedAt, CleanAt, MintsTaken, NoLookupFails;
    MintsNeverDropped(chain, steps, |steps|);
    ExactlyOnceSilent(chain, steps);
  }
}
