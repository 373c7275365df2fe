/**
  The session store: the session-number allocator and the sign-in, refresh, logout and check
  steps over the auth_tokens table.
 */
module Sessions {
  import opened Wrappers

  // Addresses and secrets are opaque; times are in nanoseconds, expiry claims in seconds.
  type Address = nat
  type Secret = nat
  const SECOND := 1_000_000_000

  datatype Purpose = Access | Refresh

  datatype Key = Key(address: Address, number: nat, purpose: Purpose)
  datatype Row = Row(secret: Secret, expiresAt: int)
  type Table = map<Key, Row>

  /** What a presented token claims, whoever signed it. */
  datatype Claims = Claims(address: Address, number: nat, secret: Secret, exp: int)

  // ---------- Session numbers ----------

  function Numbers(t: Table, a: Address, p: Purpose): (s: set<nat>)
    ensures forall n :: n in s <==> Key(a, n, p) in t
  {
    set k | k in t && k.address == a && k.purpose == p :: k.number
  }

  predicate IsLeast(s: set<nat>, m: nat) { m in s && forall x :: x in s ==> m <= x }

  /** Every number from lo up to, but not including, hi is in use. */
  predicate Filled(s: set<nat>, lo: nat, hi: nat) { forall x :: lo <= x < hi ==> x in s }

  lemma LeastExists(s: set<nat>) returns (m: nat)
    requires s != {}
    ensures IsLeast(s, m)
  {
    m :| m in s;
    var rest := s - {m};
    if rest != {} {
      var other := LeastExists(rest);
      assert forall x :: x in s ==> x == m || x in rest;
      if other < m { m := other; }
    } else {
      assert s == {m};
    }
  }

  /** 0 for no session; otherwise the least unused number above the smallest one in use. */
  ghost predicate IsNext(s: set<nat>, n: nat) {
    if s == {} then n == 0
    else n !in s && exists least: nat :: IsLeast(s, least) && least < n && Filled(s, least, n)
  }

  lemma NextIsUnique(s: set<nat>, m: nat, n: nat)
    requires IsNext(s, m) && IsNext(s, n)
    ensures m == n
  {
  }

  lemma NextExists(s: set<nat>) returns (n: nat)
    ensures IsNext(s, n)
  {
    if s == {} { return 0; }
    var least := LeastExists(s);
    n := least + 1;
    ghost var above := s;
    while n in s
      invariant least < n && Filled(s, least, n)
      invariant above <= s && forall x :: x in s && x >= n ==> x in above
      decreases above
    {
      above := above - {n};
      n := n + 1;
    }
  }

  ghost function Next(s: set<nat>): (n: nat)
    ensures IsNext(s, n)
  {
    assert exists n :: IsNext(s, n) by { var n := NextExists(s); }
    assert forall m, n :: IsNext(s, m) && IsNext(s, n) ==> m == n by {
      forall m, n | IsNext(s, m) && IsNext(s, n) ensures m == n { NextIsUnique(s, m, n); }
    }
    var n :| IsNext(s, n);
    n
  }

  // ---------- What the operations do to the table ----------

  function Dropped(t: Table, a: Address, n: nat): Table {
    t - {Key(a, n, Access), Key(a, n, Refresh)}
  }

  function AllDropped(t: Table, a: Address): Table {
    map k | k in t && k.address != a :: t[k]
  }

  /** The two secrets and expiry times of one issue. */
  datatype Pair = Pair(access: Row, refresh: Row)

  function RowOf(p: Pair, purpose: Purpose): Row { if purpose.Access? then p.access else p.refresh }

  function Issued(t: Table, a: Address, n: nat, p: Pair): Table {
    t[Key(a, n, Access) := p.access][Key(a, n, Refresh) := p.refresh]
  }

  /** Does the table accept these claims for this purpose now?  The secret is looked up under the
      purpose asked for, and only the claim's own expiry counts. */
  predicate Accepts(t: Table, purpose: Purpose, c: Claims, now: int) {
    var k := Key(c.address, c.number, purpose);
    k in t && t[k].secret == c.secret && now <= c.exp * SECOND
  }

  // ---------- The code ----------

  /** The ordered rows skip a number: it is the next one. */
  lemma Gap(s: set<nat>, rows: seq<nat>, i: nat, n: nat)
    requires forall j, k :: 0 <= j < k < |rows| ==> rows[j] < rows[k]
    requires forall x :: x in rows <==> x in s
    requires 1 <= i <= |rows| && rows[i - 1] == n - 1 && Filled(s, rows[0], n)
    requires i < |rows| ==> rows[i] != n
    ensures n == Next(s)
  {
    assert IsLeast(s, rows[0]);
    forall k | 0 <= k < |rows| ensures rows[k] != n {
      if k < i - 1 { assert rows[k] < rows[i - 1]; } else if k > i { assert rows[i] < rows[k]; }
    }
    assert n !in rows;
    assert IsNext(s, n);
    NextIsUnique(s, n, Next(s));
  }

  class AuthStore {
    var tokens: Table

    constructor ()
      ensures tokens == map[]
    {
      tokens := map[];
    }

    /** SELECT number ... ORDER BY number. */
    method SelectNumbers(a: Address, p: Purpose) returns (rows: seq<nat>)
      ensures forall i, j :: 0 <= i < j < |rows| ==> rows[i] < rows[j]
      ensures forall n :: n in rows <==> n in Numbers(tokens, a, p)
    {
      rows := [];
      var left := Numbers(tokens, a, p);
      while left != {}
        invariant forall i, j :: 0 <= i < j < |rows| ==> rows[i] < rows[j]
        invariant forall n :: n in Numbers(tokens, a, p) <==> n in rows || n in left
        invariant forall i, n :: 0 <= i < |rows| && n in left ==> rows[i] < n
        decreases left
      {
        ghost var least := LeastExists(left);
        var m :| m in left && forall x :: x in left ==> m <= x;
        rows, left := rows + [m], left - {m};
      }
    }

    method GetJwtTokenNumber(a: Address, p: Purpose) returns (number: nat)
      ensures number == Next(Numbers(tokens, a, p))
    {
      ghost var s := Numbers(tokens, a, p);
      var rows := SelectNumbers(a, p);
      if |rows| == 0 {
        assert forall n :: n in s ==> n in rows;
        assert s == {};
        return 0;
      }
      ghost var least := rows[0];
      assert IsLeast(s, least);
      var nextNum := rows[0] + 1;
      var i := 1;
      while i < |rows|
        invariant 1 <= i <= |rows| && nextNum == least + i
        invariant rows[i - 1] == nextNum - 1 && Filled(s, least, nextNum)
      {
        number := rows[i];
        if number != nextNum {
          Gap(s, rows, i, nextNum);
          return nextNum;
        }
        nextNum := nextNum + 1;
        i := i + 1;
      }
      Gap(s, rows, i, nextNum);
      return nextNum;
    }

    /** INSERT INTO auth_tokens; fails on a taken primary key. */
    method InsertJwtToken(k: Key, row: Row) returns (ok: bool)
      modifies this
      ensures ok == (k !in old(tokens))
      ensures tokens == if ok then old(tokens)[k := row] else old(tokens)
    {
      ok := k !in tokens;
      if ok { tokens := tokens[k := row]; }
    }

    method GenerateTokens(a: Address, number: nat, p: Pair) returns (ok: bool)
      modifies this
      ensures ok <==> Key(a, number, Access) !in old(tokens) && Key(a, number, Refresh) !in old(tokens)
      ensures ok ==> tokens == Issued(old(tokens), a, number, p)
    {
      ok := InsertJwtToken(Key(a, number, Access), p.access);
      if !ok { return; }
      ok := InsertJwtToken(Key(a, number, Refresh), p.refresh);
    }

    /** The token part of AuthBySignature, after the message and signature checks; a failed insert
        is an internal error, which rolls back. */
    method AuthBySignature(a: Address, p: Pair) returns (number: Option<nat>)
      modifies this
      ensures Paired(old(tokens)) ==> number == Some(Next(Numbers(old(tokens), a, Access)))
      ensures tokens == if number.Some? then Apply(old(tokens), SignIn(a, p)) else old(tokens)
    {
      var saved := tokens;
      var n := GetJwtTokenNumber(a, Access);
      var ok := GenerateTokens(a, n, p);
      if !ok {
        tokens := saved;
        return None;
      }
      return Some(n);
    }

    method RefreshJwtTokens(a: Address, number: nat, p: Pair) returns (ok: bool)
      modifies this
      ensures ok && tokens == Apply(old(tokens), Renew(a, number, p))
    {
      tokens := Dropped(tokens, a, number);
      ok := GenerateTokens(a, number, p);
    }

    method Logout(a: Address, number: nat)
      modifies this
      ensures tokens == Apply(old(tokens), Op.Logout(a, number))
    {
      tokens := Dropped(tokens, a, number);
    }

    method FullLogout(a: Address)
      modifies this
      ensures tokens == Apply(old(tokens), Op.FullLogout(a))
    {
      tokens := AllDropped(tokens, a);
    }

    method GetUserByJwtToken(purpose: Purpose, c: Claims, now: int) returns (principal: Option<(Address, nat)>)
      ensures principal == if Accepts(tokens, purpose, c, now) then Some((c.address, c.number)) else None
    {
      var k := Key(c.address, c.number, purpose);
      if k !in tokens { return None; }
      if tokens[k].secret != c.secret { return None; }
      if now > c.exp * SECOND { return None; }
      return Some((c.address, c.number));
    }
  }

  /** The access and refresh numbers of every address are the same. */
  predicate Paired(t: Table) {
    forall k :: k in t ==> Key(k.address, k.number, Access) in t && Key(k.address, k.number, Refresh) in t
  }

  // ---------- Histories ----------

  datatype Op =
    | SignIn(address: Address, pair: Pair)
    | Renew(address: Address, number: nat, pair: Pair)
    | Logout(address: Address, number: nat)
    | FullLogout(address: Address)

  ghost function Apply(t: Table, op: Op): Table {
    match op
    case SignIn(a, p) => Issued(t, a, Next(Numbers(t, a, Access)), p)
    case Renew(a, n, p) => Issued(Dropped(t, a, n), a, n, p)
    case Logout(a, n) => Dropped(t, a, n)
    case FullLogout(a) => AllDropped(t, a)
  }

  /** The table after the first m operations. */
  ghost function After(h: seq<Op>, m: nat): Table
    requires m <= |h|
  {
    if m == 0 then map[] else Apply(After(h, m - 1), h[m - 1])
  }

  lemma StaysPaired(t: Table, op: Op)
    requires Paired(t)
    ensures Paired(Apply(t, op))
  {
    hide Next, Numbers;
    forall k | k in Apply(t, op)
      ensures Key(k.address, k.number, Access) in Apply(t, op) && Key(k.address, k.number, Refresh) in Apply(t, op)
    {
      assert k == Key(k.address, k.number, k.purpose);
      assert k.purpose == Access || k.purpose == Refresh;
    }
  }

  lemma PairedNumbers(t: Table, a: Address)
    requires Paired(t)
    ensures Numbers(t, a, Access) == Numbers(t, a, Refresh)
  {
    forall n ensures n in Numbers(t, a, Access) <==> n in Numbers(t, a, Refresh) {
      assert Key(a, n, Access) in t <==> Key(a, n, Refresh) in t;
    }
  }

  /** In every reachable table the two purposes hold the same numbers, so a number fresh for
      access tokens is fresh for refresh tokens. */
  lemma {:induction false} AlwaysPaired(h: seq<Op>, m: nat)
    requires m <= |h|
    ensures Paired(After(h, m))
    ensures forall a :: Numbers(After(h, m), a, Access) == Numbers(After(h, m), a, Refresh)
  {
    if m > 0 {
      AlwaysPaired(h, m - 1);
      StaysPaired(After(h, m - 1), h[m - 1]);
    }
    forall a { PairedNumbers(After(h, m), a); }
  }

  predicate IsIssue(op: Op) { op.SignIn? || op.Renew? }

  /** The session number operation i issued. */
  ghost function NumberOf(h: seq<Op>, i: nat): nat
    requires i < |h| && IsIssue(h[i])
  {
    if h[i].Renew? then h[i].number else Next(Numbers(After(h, i), h[i].address, Access))
  }

  /** Does the operation end session n of a? */
  predicate Ends(op: Op, a: Address, n: nat) {
    op.address == a && (op.FullLogout? || ((op.Logout? || op.Renew?) && op.number == n))
  }

  /** Issue i has not been ended by an operation before m. */
  ghost predicate Standing(h: seq<Op>, i: nat, m: nat)
    requires i < m <= |h| && IsIssue(h[i])
  {
    forall j :: i < j < m ==> !Ends(h[j], h[i].address, NumberOf(h, i))
  }

  lemma StandingStep(h: seq<Op>, i: nat, m: nat)
    requires i + 1 < m <= |h| && IsIssue(h[i])
    ensures Standing(h, i, m) <==> Standing(h, i, m - 1) && !Ends(h[m - 1], h[i].address, NumberOf(h, i))
  {
  }

  /** An operation that neither ends nor issues session n of a leaves its rows alone. */
  lemma RowsStay(t: Table, op: Op, a: Address, n: nat, p: Purpose)
    requires Paired(t) && Key(a, n, p) in t && !Ends(op, a, n)
    ensures Key(a, n, p) in Apply(t, op) && Apply(t, op)[Key(a, n, p)] == t[Key(a, n, p)]
  {
    if op.SignIn? {
      var s := Numbers(t, op.address, Access);
      var next := Next(s);
      if op.address == a {
        assert n in s;
        assert next !in s;
      }
    }
  }

  /** A standing issue has exactly its rows in the table. */
  lemma {:induction false} StandingHasRows(h: seq<Op>, i: nat, m: nat, p: Purpose)
    requires i < m <= |h| && IsIssue(h[i]) && Standing(h, i, m)
    ensures Key(h[i].address, NumberOf(h, i), p) in After(h, m)
    ensures After(h, m)[Key(h[i].address, NumberOf(h, i), p)] == RowOf(h[i].pair, p)
    decreases m
  {
    hide Next, Numbers;
    if i + 1 < m {
      StandingStep(h, i, m);
      StandingHasRows(h, i, m - 1, p);
      AlwaysPaired(h, m - 1);
      RowsStay(After(h, m - 1), h[m - 1], h[i].address, NumberOf(h, i), p);
    }
  }

  /** A row that the operation did not issue was there before, and its session was not ended. */
  lemma RowWasThere(t: Table, op: Op, k: Key)
    requires k in Apply(t, op)
    requires op.SignIn? && op.address == k.address ==> k.number != Next(Numbers(t, k.address, Access))
    requires op.Renew? && op.address == k.address ==> k.number != op.number
    ensures k in t && !Ends(op, k.address, k.number)
  {
    assert k == Key(k.address, k.number, k.purpose);
    assert k.purpose == Access || k.purpose == Refresh;
  }

  /** Every row comes from a standing issue. */
  lemma {:induction false} RowHasStanding(h: seq<Op>, m: nat, k: Key) returns (i: nat)
    requires m <= |h| && k in After(h, m)
    ensures i < m && IsIssue(h[i]) && Standing(h, i, m) && h[i].address == k.address && NumberOf(h, i) == k.number
  {
    var last := h[m - 1];
    if IsIssue(last) && last.address == k.address && NumberOf(h, m - 1) == k.number {
      return m - 1;
    }
    RowWasThere(After(h, m - 1), last, k);
    i := RowHasStanding(h, m - 1, k);
    StandingStep(h, i, m);
  }

  /** Is session n of a standing before operation m? */
  ghost predicate HasSession(h: seq<Op>, m: nat, a: Address, n: nat)
    requires m <= |h|
  {
    exists i :: 0 <= i < m && IsIssue(h[i]) && h[i].address == a && NumberOf(h, i) == n && Standing(h, i, m)
  }

  lemma SessionsAreNumbers(h: seq<Op>, m: nat, a: Address, n: nat)
    requires m <= |h|
    ensures HasSession(h, m, a, n) <==> n in Numbers(After(h, m), a, Access)
  {
    if HasSession(h, m, a, n) {
      var i :| 0 <= i < m && IsIssue(h[i]) && h[i].address == a && NumberOf(h, i) == n && Standing(h, i, m);
      StandingHasRows(h, i, m, Access);
    }
    if n in Numbers(After(h, m), a, Access) {
      var i := RowHasStanding(h, m, Key(a, n, Access));
    }
  }

  /** The number a sign-in gets: 0 if the address has no session standing; otherwise the first one after
      its smallest standing number that is not standing - so smaller numbers are not used again before
      all sessions have ended. */
  lemma SignInNumber(h: seq<Op>, i: nat)
    requires i < |h| && h[i].SignIn?
    ensures !HasSession(h, i, h[i].address, NumberOf(h, i))
    ensures (forall n :: !HasSession(h, i, h[i].address, n)) ==> NumberOf(h, i) == 0
    ensures (exists n :: HasSession(h, i, h[i].address, n)) ==>
      exists least: nat ::
        && HasSession(h, i, h[i].address, least) && (forall n :: HasSession(h, i, h[i].address, n) ==> least <= n)
        && least < NumberOf(h, i) && forall n :: least <= n < NumberOf(h, i) ==> HasSession(h, i, h[i].address, n)
  {
    var a := h[i].address;
    var s := Numbers(After(h, i), a, Access);
    hide HasSession, After, Numbers;
    forall n ensures HasSession(h, i, a, n) <==> n in s { SessionsAreNumbers(h, i, a, n); }
    assert IsNext(s, NumberOf(h, i));
    if s == {} {
      assert forall n :: n !in s;
    } else {
      var least: nat :| IsLeast(s, least) && least < NumberOf(h, i) && Filled(s, least, NumberOf(h, i));
      assert HasSession(h, i, a, least);
    }
  }

  predicate SameSecret(h: seq<Op>, i: nat, p: Purpose, j: nat, q: Purpose)
    requires i < |h| && j < |h| && IsIssue(h[i]) && IsIssue(h[j])
  {
    RowOf(h[i].pair, p).secret == RowOf(h[j].pair, q).secret
  }

  /** No two issued tokens share their secret. */
  ghost predicate DistinctSecrets(h: seq<Op>) {
    forall i: nat, j: nat, p, q | i < |h| && j < |h| && IsIssue(h[i]) && IsIssue(h[j]) ::
      SameSecret(h, i, p, j, q) ==> i == j && p == q
  }

  /** Whatever is accepted carries the secret of a standing issue for the same address, number and
      purpose. */
  lemma OnlyIssuedAccepted(h: seq<Op>, purpose: Purpose, c: Claims, now: int) returns (i: nat)
    requires Accepts(After(h, |h|), purpose, c, now)
    ensures i < |h| && IsIssue(h[i]) && Standing(h, i, |h|)
    ensures c.address == h[i].address && c.number == NumberOf(h, i) && c.secret == RowOf(h[i].pair, purpose).secret
  {
    i := RowHasStanding(h, |h|, Key(c.address, c.number, purpose));
    StandingHasRows(h, i, |h|, purpose);
  }

  /** Revocation over whole histories.  A token carrying the secret that operation i issued for
      purpose p is accepted for a purpose exactly if it is that purpose, the token names the
      session it was issued for, the session has not been refreshed, logged out or fully logged
      out since, and the token is not expired. */
  lemma AcceptedIff(h: seq<Op>, i: nat, p: Purpose, purpose: Purpose, c: Claims, now: int)
    requires DistinctSecrets(h) && i < |h| && IsIssue(h[i]) && c.secret == RowOf(h[i].pair, p).secret
    ensures Accepts(After(h, |h|), purpose, c, now) <==>
      && purpose == p && c.address == h[i].address && c.number == NumberOf(h, i)
      && (forall j :: i < j < |h| ==>
            && h[j] != FullLogout(h[i].address) && h[j] != Op.Logout(h[i].address, NumberOf(h, i))
            && !(h[j].Renew? && h[j].address == h[i].address && h[j].number == NumberOf(h, i)))
      && now <= c.exp * 1_000_000_000
  {
    assert Standing(h, i, |h|) <==> forall j :: i < j < |h| ==>
      && h[j] != FullLogout(h[i].address) && h[j] != Op.Logout(h[i].address, NumberOf(h, i))
      && !(h[j].Renew? && h[j].address == h[i].address && h[j].number == NumberOf(h, i));
    if Accepts(After(h, |h|), purpose, c, now) {
      var j := OnlyIssuedAccepted(h, purpose, c, now);
      assert SameSecret(h, j, purpose, i, p);
    }
    if Standing(h, i, |h|) { StandingHasRows(h, i, |h|, p); }
  }

  /** The token that issue i handed out for purpose p; its expiry is truncated to seconds. */
  ghost function IssuedToken(h: seq<Op>, i: nat, p: Purpose): Claims
    requires i < |h| && IsIssue(h[i])
  {
    var row := RowOf(h[i].pair, p);
    Claims(h[i].address, NumberOf(h, i), row.secret, row.expiresAt / SECOND)
  }

  /** A handed-out token works for its own purpose only, until its session is ended, and never
      after the expiry it was given. */
  lemma IssuedTokenWorks(h: seq<Op>, i: nat, p: Purpose, purpose: Purpose, now: int)
    requires DistinctSecrets(h) && i < |h| && IsIssue(h[i])
    ensures Accepts(After(h, |h|), purpose, IssuedToken(h, i, p), now) <==>
      purpose == p && Standing(h, i, |h|) && now <= RowOf(h[i].pair, p).expiresAt / 1_000_000_000 * 1_000_000_000
    ensures Accepts(After(h, |h|), purpose, IssuedToken(h, i, p), now) ==> now <= RowOf(h[i].pair, p).expiresAt
  {
    AcceptedIff(h, i, p, purpose, IssuedToken(h, i, p), now);
  }

  /** Once ended, a session's tokens are never accepted again, whatever happens later. */
  lemma NeverAcceptedAgain(h: seq<Op>, i: nat, j: nat, p: Purpose, purpose: Purpose, c: Claims, now: int)
    requires DistinctSecrets(h) && i < j < |h| && IsIssue(h[i]) && c.secret == RowOf(h[i].pair, p).secret
    requires Ends(h[j], h[i].address, NumberOf(h, i))
    ensures !Accepts(After(h, |h|), purpose, c, now)
  {
    AcceptedIff(h, i, p, purpose, c, now);
  }
}
