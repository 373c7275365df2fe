/**
  What a run of the follower makes of the tables: exactly what one clean pass makes of them, if and
  only if every log so far has been taken in.
 */
module Replay {
  import opened Wrappers
  import opened Chain
  import opened Ledger
  import opened Refinement
  import opened Runs

  // ---------- Where a token stands ----------

  /** A ledger is that of a clean pass over the first m logs, and of the token's logs exactly those
      before m have been taken in. */
  ghost predicate StandsAt(g: TokenLedger, logs: seq<Log>, taken: set<nat>, k: TokenKey, m: nat) {
    && m <= |logs| && PassAt(logs, k, m) == Some(g) && FollowedUpto(logs, k, m)
    && forall p: nat :: p < |logs| && logs[p].Key() == k && Indexed(logs[p]) ==> (p in taken <==> p < m)
  }

  ghost predicate Stands(g: Option<TokenLedger>, logs: seq<Log>, taken: set<nat>, k: TokenKey) {
    if g.Some? then exists m: nat :: StandsAt(g.value, logs, taken, k, m)
    else forall p :: p in taken && p < |logs| ==> logs[p].Key() != k
  }

  ghost predicate Proper(logs: seq<Log>, taken: set<nat>) {
    forall p :: p in taken ==> p < |logs| && Indexed(logs[p])
  }

  function Lookup(v: View, k: TokenKey): Option<TokenLedger> { if k in v then Some(v[k]) else None }

  ghost predicate Tracks(v: View, logs: seq<Log>, taken: set<nat>) {
    Proper(logs, taken) && forall k :: Stands(Lookup(v, k), logs, taken, k)
  }

  /** All earlier logs of its token have been taken in. */
  ghost predicate Ready(logs: seq<Log>, taken: set<nat>, p: nat)
    requires p < |logs|
  {
    forall q: nat :: q < p && logs[q].Key() == logs[p].Key() && Indexed(logs[q]) ==> q in taken
  }

  ghost predicate DownClosed(logs: seq<Log>, taken: set<nat>) {
    forall p :: p in taken && p < |logs| ==> Ready(logs, taken, p)
  }

  /** Logs of other tokens, and logs with nothing to index, leave a token's ledger alone. */
  lemma {:induction false} PassQuiet(logs: seq<Log>, k: TokenKey, m: nat, n: nat)
    requires Possible(logs) && m <= n <= |logs| && FollowedUpto(logs, k, m)
    requires forall p :: m <= p < n && logs[p].Key() == k ==> !Indexed(logs[p])
    ensures PassAt(logs, k, n) == PassAt(logs, k, m) && FollowedUpto(logs, k, n)
  {
    hide Possible, FollowedAt, Emit;
    if m < n {
      PassQuiet(logs, k, m, n - 1);
      if logs[n - 1].Key() == k { QuietFollowed(logs, n - 1); }
    }
  }

  lemma QuietFollowed(logs: seq<Log>, p: nat)
    requires Possible(logs) && p < |logs| && !Indexed(logs[p])
    ensures FollowedAt(logs, p)
  {
    hide Possible, StateAt;
    Emitted(logs, p);
  }

  // ---------- One log ----------

  /** A log its token's ledger already covers changes nothing. */
  lemma CoveredLog(v: View, logs: seq<Log>, taken: set<nat>, p: nat, m: nat, w: Weather)
    requires Possible(logs) && p < m && p < |logs| && logs[p].Key() in v
    requires StandsAt(v[logs[p].Key()], logs, taken, logs[p].Key(), m)
    ensures Handle(v, logs[p], w) == Some(v)
  {
    hide Possible, FollowedAt, PassAt;
    var l := logs[p];
    HomeLog(logs, p);
    if StatusOf(l.event).Some? {
      var stamp := Stamp(StatusOf(l.event).value, l.tx);
      assert LeftBy(logs, p, l.Key(), stamp);
      PassStamps(logs, l.Key(), m, stamp);
    }
  }

  lemma TrackedElsewhere(v: View, logs: seq<Log>, taken: set<nat>, p: nat, m: nat)
    requires Possible(logs) && Tracks(v, logs, taken) && p < |logs| && logs[p].Key() in v && m <= p
    requires StandsAt(v[logs[p].Key()], logs, taken, logs[p].Key(), m)
    ensures LeftElsewhere(v, logs, p)
  {
    hide Possible, FollowedAt, PassAt, HasStamp;
    forall k, stamp | k in v && HasStamp(v[k], stamp) ensures exists i :: i != p && LeftBy(logs, i, k, stamp) {
      assert Stands(Lookup(v, k), logs, taken, k);
      var at: nat :| StandsAt(v[k], logs, taken, k, at);
      var n := if k == logs[p].Key() then m else at;
      PassStamps(logs, k, n, stamp);
      var i :| i < n && LeftBy(logs, i, k, stamp);
      assert i != p;
    }
  }

  /** The next log of a token advances its ledger as the clean pass does, or cannot be followed. */
  lemma NextLog(v: View, logs: seq<Log>, taken: set<nat>, p: nat, m: nat, w: Weather)
    requires Possible(logs) && Tracks(v, logs, taken) && p < |logs| && Indexed(logs[p]) && logs[p].Key() in v
    requires StandsAt(v[logs[p].Key()], logs, taken, logs[p].Key(), m) && m <= p && Ready(logs, taken, p)
    ensures StatusOf(logs[p].event).Some?
    ensures
      var k := logs[p].Key();
      var r := Handle(v, logs[p], w);
      if w.CallFails? || !FollowedAt(logs, p) then r.None?
      else
        && PassAt(logs, k, p + 1).Some? && r == Some(v[k := PassAt(logs, k, p + 1).value])
        && FollowedUpto(logs, k, p + 1)
  {
    hide Possible, Mirrors, Continue, Emit, Seen, Handle;
    var l := logs[p];
    var k := l.Key();
    PassQuiet(logs, k, m, p);
    PassMirrors(logs, k, p);
    var s := StateAt(logs, k, p).value;
    Emitted(logs, p);
    HeldEmits(v[k], s, l.event);
    HomeLog(logs, p);
    TrackedElsewhere(v, logs, taken, p, m);
    PossibleParts(logs);
    NotSeenYet(v, logs, p);
    FreshLogHandled(v, s, l, w);
    if FollowedAt(logs, p) { NextMirrors(Some(v[k]), s, l); }
  }

  lemma HeldEmits(g: TokenLedger, s: TokenState, e: Event)
    requires Mirrors(g, s) && Emit(s, e).Some? && !e.Unindexed?
    ensures StatusOf(e).Some?
  {
  }

  /** The mint of a token missing from the tables starts its ledger. */
  lemma FirstLog(v: View, logs: seq<Log>, taken: set<nat>, p: nat, w: Weather)
    requires Possible(logs) && p < |logs| && logs[p].event.Mint? && Stands(None, logs, taken, logs[p].Key())
    requires logs[p].Key() !in v && !w.LookupFails? && Ready(logs, taken, p)
    ensures FollowedAt(logs, p) && FollowedUpto(logs, logs[p].Key(), p + 1)
    ensures
      var k := logs[p].Key();
      && PassAt(logs, k, p + 1).Some?
      && Handle(v, logs[p], w) == if w.CallFails? then None else Some(v[k := PassAt(logs, k, p + 1).value])
  {
    hide Possible, StateAt;
    HomeLog(logs, p);
    PassQuiet(logs, logs[p].Key(), 0, p);
    Emitted(logs, p);
  }

  /** Handling a log keeps track of every token; with the calls answering it fails exactly if it is
      taken in and cannot be followed. */
  lemma LogTracked(v: View, logs: seq<Log>, taken: set<nat>, p: nat, w: Weather)
    requires Possible(logs) && Tracks(v, logs, taken) && p < |logs|
    requires Takes(v, logs[p], w) ==> Ready(logs, taken, p)
    ensures
      var r := Handle(v, logs[p], w);
      && (r.Some? ==> Tracks(r.value, logs, taken + if Takes(v, logs[p], w) then {p} else {}))
      && (!w.CallFails? ==> (r.None? <==> Takes(v, logs[p], w) && !FollowedAt(logs, p)))
      && (Takes(v, logs[p], w) && !FollowedAt(logs, p) ==> r.None?)
  {
    hide Possible, FollowedAt, PassAt, Ready, FollowedUpto, Handle, Seen;
    var l := logs[p];
    var k := l.Key();
    assert Stands(Lookup(v, k), logs, taken, k);
    if !Takes(v, l, w) {
      IgnoredLog(v, logs, p, w);
      assert taken + {} == taken;
    } else if k in v {
      var m: nat :| StandsAt(v[k], logs, taken, k, m);
      if p < m {
        CoveredLog(v, logs, taken, p, m, w);
        FollowedBefore(logs, k, m, p);
        assert taken + {p} == taken;
      } else {
        NextLog(v, logs, taken, p, m, w);
        assert forall q :: p <= q && q in taken ==> logs[q].Key() != k;
        TrackedFurther(v, logs, taken, p);
      }
    } else {
      FirstLog(v, logs, taken, p, w);
      TrackedFurther(v, logs, taken, p);
    }
  }

  lemma FollowedBefore(logs: seq<Log>, k: TokenKey, m: nat, p: nat)
    requires m <= |logs| && FollowedUpto(logs, k, m) && p < m && logs[p].Key() == k
    ensures FollowedAt(logs, p)
  {
  }

  lemma IgnoredLog(v: View, logs: seq<Log>, p: nat, w: Weather)
    requires Possible(logs) && p < |logs| && !Takes(v, logs[p], w)
    ensures Handle(v, logs[p], w) == Some(v)
  {
  }

  lemma TrackedFurther(v: View, logs: seq<Log>, taken: set<nat>, p: nat)
    requires Tracks(v, logs, taken) && p < |logs| && Ready(logs, taken, p)
    requires Stands(Lookup(v, logs[p].Key()), logs, taken, logs[p].Key())
    requires Indexed(logs[p]) && forall q :: p <= q && q in taken ==> logs[q].Key() != logs[p].Key()
    ensures
      var k := logs[p].Key();
      PassAt(logs, k, p + 1).Some? && FollowedUpto(logs, k, p + 1) ==>
        Tracks(v[k := PassAt(logs, k, p + 1).value], logs, taken + {p})
  {
    hide PassAt, FollowedUpto;
    var k := logs[p].Key();
    if PassAt(logs, k, p + 1).Some? && FollowedUpto(logs, k, p + 1) {
      var g := PassAt(logs, k, p + 1).value;
      var w := v[k := g];
      forall q ensures Stands(Lookup(w, q), logs, taken + {p}, q) {
        if q == k {
          assert StandsAt(g, logs, taken + {p}, k, p + 1);
        } else {
          assert Stands(Lookup(v, q), logs, taken, q);
          if q in v {
            var m: nat :| StandsAt(v[q], logs, taken, q, m);
            assert StandsAt(v[q], logs, taken + {p}, q, m);
          }
        }
      }
    }
  }

  // ---------- One block ----------

  /** Does the list hold this block from a position on? */
  predicate IsBlockAt(block: seq<Log>, logs: seq<Log>, base: nat) {
    base + |block| <= |logs| && forall i :: 0 <= i < |block| ==> logs[base + i] == block[i]
  }

  /** Whatever the first n logs of a block take in comes after all earlier logs of its token. */
  ghost predicate ReadyFirst(v: View, logs: seq<Log>, taken: set<nat>, base: nat, block: seq<Log>,
          ws: seq<Weather>, n: nat)
    requires n <= |block| == |ws| && IsBlockAt(block, logs, base)
  {
    forall i: nat :: i < n ==> ReadyAt(v, logs, taken, base, block, ws, i)
  }

  ghost predicate ReadyAt(v: View, logs: seq<Log>, taken: set<nat>, base: nat, block: seq<Log>, ws: seq<Weather>,
          i: nat)
    requires i < |block| == |ws| && IsBlockAt(block, logs, base)
  {
    TakesAt(v, block, ws, i) ==> Ready(logs, taken + TakenFirst(v, block, ws, base, i), base + i)
  }

  ghost predicate TakesAt(v: View, block: seq<Log>, ws: seq<Weather>, i: nat)
    requires i < |block| == |ws|
  {
    var before := HandleFirst(v, block, ws, i);
    before.Some? && Takes(before.value, block[i], ws[i])
  }

  /** One of the first n logs of a block is taken in but cannot be followed. */
  ghost predicate Unfollowed(v: View, logs: seq<Log>, base: nat, block: seq<Log>, ws: seq<Weather>, n: nat)
    requires n <= |block| == |ws| && IsBlockAt(block, logs, base)
  {
    exists i: nat :: i < n && TakesAt(v, block, ws, i) && !FollowedAt(logs, base + i)
  }

  lemma UnfollowedStep(v: View, logs: seq<Log>, base: nat, block: seq<Log>, ws: seq<Weather>, n: nat)
    requires 0 < n <= |block| == |ws| && IsBlockAt(block, logs, base)
    ensures Unfollowed(v, logs, base, block, ws, n) <==>
      Unfollowed(v, logs, base, block, ws, n - 1) || (TakesAt(v, block, ws, n - 1) && !FollowedAt(logs, base + n - 1))
  {
    hide FollowedAt, TakesAt;
    if TakesAt(v, block, ws, n - 1) && !FollowedAt(logs, base + n - 1) {
      assert base + (n - 1) == base + n - 1;
      assert Unfollowed(v, logs, base, block, ws, n);
    }
  }

  /** A block keeps track of every token; with the calls answering it fails exactly if it takes in a
      log that cannot be followed. */
  lemma {:induction false} BlockTracked(v: View, logs: seq<Log>, taken: set<nat>, base: nat, block: seq<Log>,
          ws: seq<Weather>, n: nat)
    requires Possible(logs) && Tracks(v, logs, taken) && n <= |block| == |ws| && IsBlockAt(block, logs, base)
    requires ReadyFirst(v, logs, taken, base, block, ws, n)
    ensures
      var r := HandleFirst(v, block, ws, n);
      && (r.Some? ==> Tracks(r.value, logs, taken + TakenFirst(v, block, ws, base, n)))
      && ((forall i :: 0 <= i < n ==> !ws[i].CallFails?) ==> (r.None? <==> Unfollowed(v, logs, base, block, ws, n)))
  {
    hide Possible, Tracks, Ready, Handle, FollowedAt, Takes;
    if n == 0 {
      assert taken + {} == taken;
    } else {
      BlockTracked(v, logs, taken, base, block, ws, n - 1);
      UnfollowedStep(v, logs, base, block, ws, n);
      var before := HandleFirst(v, block, ws, n - 1);
      var t := taken + TakenFirst(v, block, ws, base, n - 1);
      if before.Some? {
        assert ReadyAt(v, logs, taken, base, block, ws, n - 1);
        LogTracked(before.value, logs, t, base + n - 1, ws[n - 1]);
        assert taken + TakenFirst(v, block, ws, base, n) ==
          t + if Takes(before.value, block[n - 1], ws[n - 1]) then {base + n - 1} else {};
      }
    }
  }

  lemma {:induction false} TakenSplit(v: View, block: seq<Log>, ws: seq<Weather>, base: nat, m: nat, n: nat)
    requires m <= n <= |block| == |ws|
    ensures TakenFirst(v, block, ws, base, m) <= TakenFirst(v, block, ws, base, n)
    ensures forall q :: q in TakenFirst(v, block, ws, base, n) ==>
      base <= q < base + n && (q < base + m ==> q in TakenFirst(v, block, ws, base, m))
    decreases n
  {
    hide Takes, HandleFirst;
    if m < n {
      TakenSplit(v, block, ws, base, m, n - 1);
    } else if n > 0 {
      TakenSplit(v, block, ws, base, n - 1, n - 1);
    }
  }

  lemma TakenNow(v: View, block: seq<Log>, ws: seq<Weather>, base: nat, i: nat)
    requires i < |block| == |ws| && TakesAt(v, block, ws, i)
    ensures base + i in TakenFirst(v, block, ws, base, i + 1)
  {
  }

  lemma ClosedBefore(logs: seq<Log>, taken: set<nat>, some: set<nat>, more: set<nat>, p: nat)
    requires DownClosed(logs, taken + more) && p in more && p < |logs| && forall q :: q in more && q < p ==> q in some
    ensures Ready(logs, taken + some, p)
  {
  }

  lemma ReadyIfClosed(v: View, logs: seq<Log>, taken: set<nat>, base: nat, block: seq<Log>, ws: seq<Weather>)
    requires |block| == |ws| && IsBlockAt(block, logs, base)
    requires DownClosed(logs, taken + TakenFirst(v, block, ws, base, |block|))
    ensures ReadyFirst(v, logs, taken, base, block, ws, |block|)
  {
    hide Takes, TakenFirst, HandleFirst, Indexed, DownClosed;
    forall i: nat | i < |block| ensures ReadyAt(v, logs, taken, base, block, ws, i) {
      if TakesAt(v, block, ws, i) {
        TakenSplit(v, block, ws, base, i, |block|);
        TakenSplit(v, block, ws, base, i + 1, |block|);
        TakenNow(v, block, ws, base, i);
        ClosedBefore(logs, taken, TakenFirst(v, block, ws, base, i), TakenFirst(v, block, ws, base, |block|), base + i);
      }
    }
  }

  // ---------- Where rows come from ----------

  /** A mint of this token is among the positions. */
  ghost predicate MintedBy(logs: seq<Log>, taken: set<nat>, k: TokenKey) {
    exists p :: p in taken && p < |logs| && logs[p].event.Mint? && logs[p].Key() == k
  }

  ghost predicate LeftByTaken(logs: seq<Log>, taken: set<nat>, k: TokenKey, stamp: Stamp<Status>) {
    exists p :: p in taken && LeftBy(logs, p, k, stamp)
  }

  /** Every token and every stamp comes from a log that was taken in. */
  ghost predicate Sourced(v: View, logs: seq<Log>, taken: set<nat>) {
    && (forall k :: k in v ==> MintedBy(logs, taken, k))
    && (forall k, stamp :: k in v && HasStamp(v[k], stamp) ==> LeftByTaken(logs, taken, k, stamp))
  }

  lemma StampedHas(ts: seq<Transfer>, us: seq<Transfer>, i: nat, mine: Stamp<Status>, stamp: Stamp<Status>)
    requires i < |ts| == |us| && us[i].statuses == ts[i].statuses + [mine]
    requires forall j :: 0 <= j < |ts| && j != i ==> us[j] == ts[j]
    requires exists j :: 0 <= j < |us| && stamp in us[j].statuses
    ensures stamp == mine || exists j :: 0 <= j < |ts| && stamp in ts[j].statuses
  {
  }

  /** What a log changes: nothing, a new token without stamps, or one stamp more on its token. */
  lemma HandleEffect(v: View, l: Log, w: Weather)
    requires l.event.Mint? || l.event.TransferInit? ==> l.txTo == l.address
    ensures
      var r := Handle(v, l, w);
      r.Some? && r.value != v ==>
        && Takes(v, l, w) && r.value.Keys == v.Keys + {l.Key()}
        && (forall k :: k in v && k != l.Key() ==> r.value[k] == v[k])
        && (l.event.Mint? ==> r.value[l.Key()].transfers == [])
        && (!l.event.Mint? ==>
              && StatusOf(l.event).Some? && l.Key() in v
              && forall stamp :: HasStamp(r.value[l.Key()], stamp) ==>
                   stamp == Stamp(StatusOf(l.event).value, l.tx) || HasStamp(v[l.Key()], stamp))
  {
    hide Seen;
    var r := Handle(v, l, w);
    if r.Some? && r.value != v && !l.event.Mint? {
      var g := v[l.Key()];
      var h := r.value[l.Key()];
      var mine := Stamp(StatusOf(l.event).value, l.tx);
      forall stamp | HasStamp(h, stamp) ensures stamp == mine || HasStamp(g, stamp) {
        if l.event.TransferInit? || l.event.TransferDraft? {
          assert h.transfers[|g.transfers|].statuses == [mine];
        } else {
          var i := FirstActive(g.transfers).value;
          StampedHas(g.transfers, h.transfers, i, mine, stamp);
        }
      }
    }
  }

  lemma LogSourced(v: View, logs: seq<Log>, taken: set<nat>, p: nat, w: Weather)
    requires SentHome(logs) && Sourced(v, logs, taken) && p < |logs|
    ensures
      var r := Handle(v, logs[p], w);
      r.Some? ==> Sourced(r.value, logs, taken + if Takes(v, logs[p], w) then {p} else {})
  {
    hide Handle, HasStamp;
    var l := logs[p];
    var r := Handle(v, l, w);
    HandleEffect(v, l, w);
    if r.Some? {
      var after := taken + if Takes(v, l, w) then {p} else {};
      forall k | k in r.value ensures MintedBy(logs, after, k) {
        assert k in v ==> MintedBy(logs, taken, k);
      }
      forall k, stamp | k in r.value && HasStamp(r.value[k], stamp) ensures LeftByTaken(logs, after, k, stamp) {
        if k in v && HasStamp(v[k], stamp) {
          assert LeftByTaken(logs, taken, k, stamp);
        } else if l.event.Mint? {
          NoStamps(r.value[k], stamp);
        } else {
          assert LeftBy(logs, p, k, stamp);
        }
      }
    }
  }

  // ---------- No gaps ----------

  /** All earlier logs of the tokens in the tables are known. */
  ghost predicate Complete(v: View, logs: seq<Log>, known: set<nat>, n: nat) {
    forall p: nat :: p < n && p < |logs| && logs[p].Key() in v && Indexed(logs[p]) ==> p in known
  }

  lemma {:induction false} HeldStays(logs: seq<Log>, k: TokenKey, m: nat, n: nat)
    requires m <= n <= |logs| && StateAt(logs, k, n).Some? && StateAt(logs, k, m).Some?
    requires StateAt(logs, k, m).value.Held?
    ensures StateAt(logs, k, n).value.Held?
  {
    if m < n {
      StateExists(logs, k, n - 1, n);
      HeldStays(logs, k, m, n - 1);
    }
  }

  /** The mint is the first log of its token. */
  lemma MintFirst(logs: seq<Log>, p: nat, q: nat)
    requires Possible(logs) && p < |logs| && q < |logs| && logs[p].event.Mint? && Indexed(logs[q])
    requires logs[q].Key() == logs[p].Key()
    ensures p <= q
  {
    if q < p {
      var k := logs[p].Key();
      Emitted(logs, q);
      Emitted(logs, p);
      HeldStays(logs, k, q + 1, p);
    }
  }

  lemma LogComplete(v: View, logs: seq<Log>, known: set<nat>, p: nat, w: Weather)
    requires Possible(logs) && Sourced(v, logs, known) && Complete(v, logs, known, p) && p < |logs|
    ensures Takes(v, logs[p], w) ==> Ready(logs, known, p)
    ensures
      var r := Handle(v, logs[p], w);
      r.Some? ==> Complete(r.value, logs, known + if Takes(v, logs[p], w) then {p} else {}, p + 1)
  {
    hide Possible, Handle, HasStamp, LeftByTaken;
    var l := logs[p];
    PossibleParts(logs);
    HomeLog(logs, p);
    HandleEffect(v, l, w);
    if l.event.Mint? {
      forall q: nat | q < |logs| && logs[q].Key() == l.Key() && Indexed(logs[q]) ensures p <= q {
        MintFirst(logs, p, q);
      }
      if l.Key() in v {
        var q :| q in known && q < |logs| && logs[q].event.Mint? && logs[q].Key() == l.Key();
        MintFirst(logs, q, p);
      }
    }
  }

  lemma {:induction false} BlockComplete(v: View, logs: seq<Log>, known: set<nat>, base: nat, block: seq<Log>,
          ws: seq<Weather>, n: nat)
    requires Possible(logs) && Sourced(v, logs, known) && Complete(v, logs, known, base)
    requires n <= |block| == |ws| && IsBlockAt(block, logs, base)
    ensures ReadyFirst(v, logs, known, base, block, ws, n)
    ensures
      var r := HandleFirst(v, block, ws, n);
      var after := known + TakenFirst(v, block, ws, base, n);
      r.Some? ==> Sourced(r.value, logs, after) && Complete(r.value, logs, after, base + n)
  {
    hide Possible, Sourced, Complete, Ready, Handle, Takes;
    if n == 0 {
      assert known + {} == known;
    } else {
      BlockComplete(v, logs, known, base, block, ws, n - 1);
      var before := HandleFirst(v, block, ws, n - 1);
      var t := known + TakenFirst(v, block, ws, base, n - 1);
      if before.Some? {
        PossibleParts(logs);
        LogSourced(before.value, logs, t, base + n - 1, ws[n - 1]);
        LogComplete(before.value, logs, t, base + n - 1, ws[n - 1]);
        assert known + TakenFirst(v, block, ws, base, n) ==
          t + if Takes(before.value, block[n - 1], ws[n - 1]) then {base + n - 1} else {};
      }
      assert ReadyAt(v, logs, known, base, block, ws, n - 1);
    }
  }

  // ---------- Runs ----------

  lemma {:induction false} RunBounds(chain: seq<seq<Log>>, steps: seq<Step>, m: nat)
    requires m <= |steps| && RunAt(chain, START, steps, m).Some?
    ensures var n := RunAt(chain, START, steps, m).value;
      && n.latest <= n.tip <= |chain| && n.recorded.Some? && n.recorded.value <= n.latest
      && (forall p :: p in TakenAt(chain, steps, m) ==> p < Base(chain, n.tip))
      && (forall b :: b in SkippedAt(chain, steps, m) ==> b < |chain|)
  {
    hide HandleAll, Flat, Silent, TakenFirst;
    if m > 0 {
      RunBounds(chain, steps, m - 1);
      var n := RunAt(chain, START, steps, m - 1).value;
      var s := steps[m - 1];
      var after := RunAt(chain, START, steps, m).value;
      if s.Commits() {
        BlockHere(chain, n.latest);
        TakenSplit(n.view, chain[n.latest], s.ws, Base(chain, n.latest), 0, |s.ws|);
        FlatMonotone(chain, n.latest + 1, after.tip);
      }
      FlatMonotone(chain, n.tip, after.tip);
    }
  }

  lemma BlockAtBase(chain: seq<seq<Log>>, n: nat)
    requires n < |chain|
    ensures IsBlockAt(chain[n], All(chain), Base(chain, n))
  {
    BlockHere(chain, n);
  }

  /** In every state every token and every stamp comes from a log that was taken in. */
  lemma {:induction false} RunSourced(chain: seq<seq<Log>>, steps: seq<Step>, m: nat)
    requires SentHome(All(chain)) && m <= |steps| && RunAt(chain, START, steps, m).Some?
    ensures Sourced(RunAt(chain, START, steps, m).value.view, All(chain), TakenAt(chain, steps, m))
  {
    hide Sourced, Flat, SentHome;
    if m == 0 {
      NothingSourced(All(chain));
    } else {
      RunSourced(chain, steps, m - 1);
      var n := RunAt(chain, START, steps, m - 1).value;
      if steps[m - 1].Commits() {
        BlockAtBase(chain, n.latest);
        var ws := steps[m - 1].ws;
        var taken := TakenAt(chain, steps, m - 1);
        BlockSourced(n.view, All(chain), taken, Base(chain, n.latest), chain[n.latest], ws, |ws|);
      } else {
        assert TakenAt(chain, steps, m) == TakenAt(chain, steps, m - 1);
      }
    }
  }

  lemma NothingSourced(logs: seq<Log>)
    ensures Sourced(map[], logs, {})
  {
  }

  lemma {:induction false} BlockSourced(v: View, logs: seq<Log>, taken: set<nat>, base: nat, block: seq<Log>,
          ws: seq<Weather>, n: nat)
    requires SentHome(logs) && Sourced(v, logs, taken) && n <= |block| == |ws| && IsBlockAt(block, logs, base)
    ensures var r := HandleFirst(v, block, ws, n);
      r.Some? ==> Sourced(r.value, logs, taken + TakenFirst(v, block, ws, base, n))
  {
    hide Sourced, Handle, Takes;
    if n == 0 {
      assert taken + {} == taken;
    } else {
      BlockSourced(v, logs, taken, base, block, ws, n - 1);
      var before := HandleFirst(v, block, ws, n - 1);
      var t := taken + TakenFirst(v, block, ws, base, n - 1);
      if before.Some? {
        LogSourced(before.value, logs, t, base + n - 1, ws[n - 1]);
        assert taken + TakenFirst(v, block, ws, base, n) ==
          t + if Takes(before.value, block[n - 1], ws[n - 1]) then {base + n - 1} else {};
      }
    }
  }

  /** As long as nothing was taken in ahead of an earlier log of its token, every token stands where
      the logs taken in leave it. */
  lemma {:induction false} RunTracked(chain: seq<seq<Log>>, steps: seq<Step>, m: nat)
    requires Possible(All(chain)) && m <= |steps| && RunAt(chain, START, steps, m).Some?
    requires forall i: nat :: i <= m ==> DownClosed(All(chain), TakenAt(chain, steps, i))
    ensures Tracks(RunAt(chain, START, steps, m).value.view, All(chain), TakenAt(chain, steps, m))
  {
    hide Possible, Tracks, DownClosed, Flat;
    var logs := All(chain);
    if m == 0 {
      NothingTracked(logs);
    } else {
      RunTracked(chain, steps, m - 1);
      var n := RunAt(chain, START, steps, m - 1).value;
      var taken := TakenAt(chain, steps, m - 1);
      if steps[m - 1].Commits() {
        var block, ws := chain[n.latest], steps[m - 1].ws;
        BlockAtBase(chain, n.latest);
        assert TakenAt(chain, steps, m) == taken + TakenFirst(n.view, block, ws, Base(chain, n.latest), |block|);
        ReadyIfClosed(n.view, logs, taken, Base(chain, n.latest), block, ws);
        BlockTracked(n.view, logs, taken, Base(chain, n.latest), block, ws, |block|);
      } else {
        assert TakenAt(chain, steps, m) == taken;
      }
    }
  }

  lemma NothingTracked(logs: seq<Log>)
    ensures Tracks(map[], logs, {})
  {
  }

  // ---------- Exactly once ----------

  /** A pass ends in these tables only if everything before its end was taken in. */
  lemma PassNeedsAll(v: View, logs: seq<Log>, taken: set<nat>, n: nat)
    requires Possible(logs) && n <= |logs| && Sourced(v, logs, taken)
    requires PassedAt(v, logs, n) && forall i: nat :: i < n ==> FollowedAt(logs, i)
    ensures AllTaken(logs, taken, n)
  {
    hide Possible, FollowedAt, PassAt, HasStamp;
    forall p: nat | p < n && Indexed(logs[p]) ensures p in taken {
      var l := logs[p];
      var k := l.Key();
      assert PassAt(logs, k, n) == if k in v then Some(v[k]) else None;
      if l.event.Mint? {
        MintPassed(logs, p, n);
        var q :| q in taken && q < |logs| && logs[q].event.Mint? && logs[q].Key() == k;
        MintFirst(logs, p, q);
        MintFirst(logs, q, p);
      } else {
        var stamp := Stamp(StatusOf(l.event).value, l.tx);
        assert LeftBy(logs, p, k, stamp);
        PassStamps(logs, k, n, stamp);
        assert LeftByTaken(logs, taken, k, stamp);
        var q :| q in taken && LeftBy(logs, q, k, stamp);
        PossibleParts(logs);
        if q != p {
          OneStamp(logs, p, q);
          assert false;
        }
      }
    }
  }

  lemma {:induction false} MintPassed(logs: seq<Log>, p: nat, n: nat)
    requires p < n <= |logs| && logs[p].event.Mint?
    ensures PassAt(logs, logs[p].Key(), n).Some?
  {
    if p + 1 < n { MintPassed(logs, p, n - 1); }
  }

  /** Tables that keep track of every token are those of a pass once everything was taken in. */
  lemma AllTakenPassed(v: View, logs: seq<Log>, taken: set<nat>, n: nat)
    requires Possible(logs) && n <= |logs| && Tracks(v, logs, taken) && AllTaken(logs, taken, n)
    requires forall p :: p in taken ==> p < n
    ensures PassedAt(v, logs, n) && forall i: nat :: i < n ==> FollowedAt(logs, i)
  {
    hide Possible, FollowedAt, PassAt, FollowedUpto;
    forall k ensures PassAt(logs, k, n) == Lookup(v, k) && FollowedUpto(logs, k, n) {
      assert Stands(Lookup(v, k), logs, taken, k);
      if k in v {
        var m: nat :| StandsAt(v[k], logs, taken, k, m);
        if m <= n {
          PassQuiet(logs, k, m, n);
        } else {
          FollowedLess(logs, k, n, m);
          PassQuiet(logs, k, n, m);
        }
      } else {
        FollowedNone(logs, k);
        PassQuiet(logs, k, 0, n);
      }
    }
    forall i: nat | i < n ensures FollowedAt(logs, i) { FollowedBefore(logs, logs[i].Key(), n, i); }
  }

  lemma FollowedLess(logs: seq<Log>, k: TokenKey, m: nat, n: nat)
    requires m <= n <= |logs| && FollowedUpto(logs, k, n)
    ensures FollowedUpto(logs, k, m)
  {
  }

  lemma FollowedNone(logs: seq<Log>, k: TokenKey)
    ensures FollowedUpto(logs, k, 0) && PassAt(logs, k, 0) == None
  {
  }

  lemma SamePassed(v: View, w: View, logs: seq<Log>, n: nat)
    requires n <= |logs| && PassedAt(v, logs, n) && PassedAt(w, logs, n)
    ensures v == w
  {
    forall k ensures Lookup(v, k) == Lookup(w, k) { assert PassAt(logs, k, n) == Lookup(v, k); }
    assert forall k :: k in v <==> k in w by {
      forall k ensures k in v <==> k in w { assert Lookup(v, k) == Lookup(w, k); }
    }
    assert forall k :: k in v ==> v[k] == w[k] by {
      forall k | k in v ensures v[k] == w[k] { assert Lookup(v, k) == Lookup(w, k); }
    }
  }

  /** Tables that are those of a clean pass show that everything before its end was taken in. */
  lemma CleanNeedsAll(v: View, logs: seq<Log>, taken: set<nat>, n: nat)
    requires Possible(logs) && n <= |logs| && Sourced(v, logs, taken) && CleanAt(logs, n) == Some(v)
    ensures AllTaken(logs, taken, n)
  {
    hide Possible, FollowedAt, PassedAt, Sourced, Handle, AllTaken;
    CleanPass(logs, n);
    PassNeedsAll(v, logs, taken, n);
  }

  /** ... and the converse, when every token is kept track of. */
  lemma AllTakenIsClean(v: View, logs: seq<Log>, taken: set<nat>, n: nat)
    requires Possible(logs) && n <= |logs| && Tracks(v, logs, taken) && AllTaken(logs, taken, n)
    requires forall p :: p in taken ==> p < n
    ensures CleanAt(logs, n) == Some(v)
  {
    hide Possible, FollowedAt, PassedAt, Tracks, Handle, AllTaken;
    AllTakenPassed(v, logs, taken, n);
    CleanPass(logs, n);
    SamePassed(v, CleanAt(logs, n).value, logs, n);
  }

  /** The clean pass over the blocks before n, as part of all blocks. */
  lemma CleanOfBlocks(chain: seq<seq<Log>>, n: nat)
    requires n <= |chain|
    ensures Base(chain, n) <= |All(chain)| && CleanAt(All(chain), Base(chain, n)) == Clean(Flat(chain, n))
  {
    hide CleanAt;
    FlatMonotone(chain, n, |chain|);
    var part := Flat(chain, n);
    assert forall i :: 0 <= i < |part| ==> part[i] == All(chain)[..|part|][i];
    SameClean(All(chain), part, |part|);
  }

  /** Whatever a run has done - failed blocks, lost acknowledgements, rounds stepped over, restarts
      anywhere - its tables are those of the clean pass so far only if every log so far was taken in. */
  lemma NothingMayBeMissing(chain: seq<seq<Log>>, steps: seq<Step>)
    requires Possible(All(chain)) && Run(chain, START, steps).Some?
    ensures
      var n := Run(chain, START, steps).value;
      && n.latest <= |chain| && Base(chain, n.latest) <= |All(chain)|
      && (Clean(Flat(chain, n.latest)) == Some(n.view) ==>
          AllTaken(All(chain), Taken(chain, steps), Base(chain, n.latest)))
  {
    hide Possible, Flat, CleanAt, RunAt, TakenAt, Sourced, AllTaken, SentHome;
    RunBounds(chain, steps, |steps|);
    var n := Run(chain, START, steps).value;
    CleanOfBlocks(chain, n.latest);
    PossibleParts(All(chain));
    RunSourced(chain, steps, |steps|);
    if Clean(Flat(chain, n.latest)) == Some(n.view) {
      CleanNeedsAll(n.view, All(chain), Taken(chain, steps), Base(chain, n.latest));
    }
  }

  /** In a run that takes in each token's logs in order, a gap is never closed. */
  lemma {:induction false} GapStays(chain: seq<seq<Log>>, steps: seq<Step>, i: nat, m: nat, q: nat, p: nat)
    requires i <= m <= |steps| && InOrder(chain, steps)
    requires q < p && SameToken(All(chain), p, q) && p in TakenAt(chain, steps, i) && q !in TakenAt(chain, steps, i)
    ensures p in TakenAt(chain, steps, m) && q !in TakenAt(chain, steps, m)
  {
    hide Flat, RunAt, TakenBy;
    if i < m {
      GapStays(chain, steps, i, m - 1, q, p);
      assert TakesOnwards(chain, steps, m - 1);
    }
  }

  /** So if nothing is missing at the end, nothing was ever taken in ahead. */
  lemma NoGaps(chain: seq<seq<Log>>, steps: seq<Step>, n: nat)
    requires InOrder(chain, steps) && n <= |All(chain)| && AllTaken(All(chain), Taken(chain, steps), n)
    requires forall p :: p in Taken(chain, steps) ==> p < n
    ensures forall i: nat :: i <= |steps| ==> DownClosed(All(chain), TakenAt(chain, steps, i))
  {
    hide Flat, RunAt, TakenAt, InOrder;
    var logs := All(chain);
    forall i: nat | i <= |steps| ensures DownClosed(logs, TakenAt(chain, steps, i)) {
      var taken := TakenAt(chain, steps, i);
      forall p, q: nat | p in taken && p < |logs| && q < p && logs[q].Key() == logs[p].Key() && Indexed(logs[q])
        ensures q in taken
      {
        if q !in taken { GapStays(chain, steps, i, |steps|, q, p); }
      }
    }
  }

  /** Exactly once.  After any run that takes in each token's logs in their own order, whenever the
      follower is as far as it ever was, its tables are exactly those of one clean pass over the blocks
      so far, if and only if every log so far was taken in by some committed attempt. */
  lemma {:induction false} ExactlyOnceInOrder(chain: seq<seq<Log>>, steps: seq<Step>)
    requires Possible(All(chain)) && Run(chain, START, steps).Some? && InOrder(chain, steps)
    requires var n := Run(chain, START, steps).value; n.latest == n.tip
    ensures
      var n := Run(chain, START, steps).value;
      && n.latest <= |chain| && Base(chain, n.latest) <= |All(chain)|
      && (Clean(Flat(chain, n.latest)) == Some(n.view) <==>
          AllTaken(All(chain), Taken(chain, steps), Base(chain, n.latest)))
  {
    hide Possible, Flat, CleanAt, RunAt, TakenAt, Tracks, AllTaken, InOrder, DownClosed;
    NothingMayBeMissing(chain, steps);
    RunBounds(chain, steps, |steps|);
    var n := Run(chain, START, steps).value;
    CleanOfBlocks(chain, n.latest);
    if AllTaken(All(chain), Taken(chain, steps), Base(chain, n.latest)) {
      NoGaps(chain, steps, Base(chain, n.latest));
      RunTracked(chain, steps, |steps|);
      AllTakenIsClean(n.view, All(chain), Taken(chain, steps), Base(chain, n.latest));
    }
  }
}
