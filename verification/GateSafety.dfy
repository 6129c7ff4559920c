/** Safety of the connect gate over every run: what a reachable row looks like, and what
    happens to a nonce. */
module GateSafety {
  import opened Common
  import opened Sessions
  import opened Gate
  import opened GateInvariant
  import Policy
  import Remediation

  // --- Rows ------------------------------------------------------------------------------

  /** Every reachable row: sealed exactly while unclaimed, claimed before expiry, pending only
      while unclaimed and undecided, active only when allowed and heard from; at most one
      snapshot, so the pinned build is the attested one. */
  lemma ReachableRows(c: Crypto, s: State, sid: Sid)
    requires Reachable(c, s) && sid in s.rows
    ensures var r := s.rows[sid];
      && (r.sealed.None? <==> r.consumedAt.Some?)
      && (r.consumedAt.Some? ==> r.consumedAt.value < r.expiresAt)
      && (r.state == Pending ==> r.consumedAt.None? && r.verdict.None?)
      && (r.state == Active ==> r.verdict.Some? && r.verdict.value.decision == Policy.Allow && r.lastHeartbeat.Some?)
    ensures sid in s.snaps ==> |s.snaps[sid]| == 1 && CurrentBuild(s.snaps, sid) == Some(s.snaps[sid][0].buildHash)
  {
    ReachableInv(c, s);
    assert RowOk(c, s.rows[sid], s.now);
  }

  // --- A nonce is consumed once -------------------------------------------------------------

  /** The session whose nonce this step reports as consumed. */
  ghost function Consumes(s: State, a: Action): Option<Sid> {
    if a.Run? && a.pid in s.procs && s.procs[a.pid].Attesting?
    then Claimable(s.rows, s.procs[a.pid].nonceHash, s.now)
    else None
  }

  lemma ConsumedStays(c: Crypto, s: State, a: Action, sid: Sid)
    requires Inv(c, s) && Consumes(s, a) == Some(sid)
    ensures sid in s.rows && Live(s.rows[sid], s.now) && s.rows[sid].nonceHash == s.procs[a.pid].nonceHash
    ensures var t := Next(c, s, a); sid in t.rows && t.rows[sid].consumedAt == Some(s.now)
  {
  }

  /** However many attestations race: once a nonce was reported consumed, no later step of
      any run reports that session, or any nonce of the same digest, consumed again. */
  lemma ConsumedOnce(c: Crypto, s: State, a: Action, run: seq<Action>, b: Action)
    requires Reachable(c, s) && Consumes(s, a).Some?
    requires Consumes(After(c, Next(c, s, a), run), b).Some?
    ensures var t := After(c, Next(c, s, a), run);
      Consumes(t, b) != Consumes(s, a) && t.procs[b.pid].nonceHash != s.procs[a.pid].nonceHash
  {
    var sid := Consumes(s, a).value;
    ReachableInv(c, s);
    ConsumedStays(c, s, a, sid);
    NextKeeps(c, s, a);
    var u := Next(c, s, a);
    AfterKeeps(c, u, run);
    var t := After(c, u, run);
    ConsumedStays(c, t, b, Consumes(t, b).value);
    assert t.rows[sid].consumedAt.Some?;
  }

  // --- The nonce handed to a companion --------------------------------------------------------

  lemma OneOf<T>(s: set<T>, x: T, y: T)
    requires |s| == 1 && x in s && y in s
    ensures x == y
  {
    assert |s - {x}| == 0;
  }

  /** The companion's poll in full: the one live unclaimed session for its address, if there
      is exactly one, and then always with its nonce, so neither a row without a sealed nonce
      nor one that does not open is ever met. */
  lemma PendingReadExactly(c: Crypto, s: State, origin: string)
    requires Reachable(c, s)
    ensures var pending := set sid | sid in s.rows && s.rows[sid].gameIp == origin
                                     && s.rows[sid].consumedAt == None && s.now < s.rows[sid].expiresAt;
      match PendingRead(c, s, origin)
      case NonePending => pending == {}
      case Ambiguous => |pending| > 1
      case Unopened => false
      case Handed(sid, nonce) => pending == {sid} && c.hash(nonce) == s.rows[sid].nonceHash
  {
    ReachableInv(c, s);
    var pending := PendingFor(s.rows, origin, s.now);
    assert pending == set sid | sid in s.rows && s.rows[sid].gameIp == origin
                                && s.rows[sid].consumedAt == None && s.now < s.rows[sid].expiresAt;
    if |pending| <= 1 && pending != {} {
      forall sid | sid in pending ensures pending == {sid} && RowOk(c, s.rows[sid], s.now) {
        forall other | other in pending ensures other == sid { OneOf(pending, sid, other); }
      }
    }
  }

  predicate ClaimTimed(a: Row, b: Row, now: nat) {
    b.consumedAt == a.consumedAt || b.consumedAt == Some(now)
  }

  lemma AttestClaims(s: State, pid: Pid, p: Proc, sid: Sid)
    requires sid in s.rows
    ensures sid in Attest(s, pid, p).rows && ClaimTimed(s.rows[sid], Attest(s, pid, p).rows[sid], s.now)
  {
  }

  lemma OthersClaimNothing(s: State, pid: Pid, p: Proc, sid: Sid)
    requires sid in s.rows
    ensures sid in Poll(s, pid, p).rows && Poll(s, pid, p).rows[sid].consumedAt == s.rows[sid].consumedAt
    ensures sid in Beat(s, pid, p).rows && Beat(s, pid, p).rows[sid].consumedAt == s.rows[sid].consumedAt
    ensures sid in Look(s, pid, p).rows && Look(s, pid, p).rows[sid].consumedAt == s.rows[sid].consumedAt
  {
  }

  /** One step claims at the time it is taken, if at all. */
  lemma NextClaims(c: Crypto, s: State, a: Action, sid: Sid)
    requires sid in s.rows
    ensures sid in Next(c, s, a).rows && ClaimTimed(s.rows[sid], Next(c, s, a).rows[sid], s.now)
  {
    if a.Run? && a.pid in s.procs {
      AttestClaims(s, a.pid, s.procs[a.pid], sid);
      OthersClaimNothing(s, a.pid, s.procs[a.pid], sid);
    }
  }

  /** A claim is never earlier than a moment at which the row was seen unclaimed. */
  lemma {:induction false} ClaimedLater(c: Crypto, s: State, run: seq<Action>, sid: Sid)
    requires Inv(c, s) && sid in s.rows && s.rows[sid].consumedAt.None?
    ensures var t := After(c, s, run);
      sid in t.rows && (t.rows[sid].consumedAt.Some? ==> t.rows[sid].consumedAt.value >= s.now)
  {
    if run != [] {
      ClaimedLater(c, s, run[..|run| - 1], sid);
      AfterKeeps(c, s, run[..|run| - 1]);
      NextClaims(c, After(c, s, run[..|run| - 1]), run[|run| - 1], sid);
    }
  }

  /** A nonce is handed out only before its claim: if it is handed out now, no earlier state
      of the run had it claimed, and any claim to come is not earlier than now. */
  lemma HandedOutBeforeClaim(c: Crypto, s: State, before: seq<Action>, after: seq<Action>, origin: string)
    requires Reachable(c, s) && PendingRead(c, After(c, s, before), origin).Handed?
    ensures var t := After(c, s, before);
      var sid := PendingRead(c, t, origin).sid;
      var u := After(c, t, after);
      && (sid in s.rows ==> s.rows[sid].consumedAt.None?)
      && sid in u.rows && (u.rows[sid].consumedAt.Some? ==> u.rows[sid].consumedAt.value >= t.now)
  {
    ReachableInv(c, s);
    AfterKeeps(c, s, before);
    var t := After(c, s, before);
    ReachableAfter(c, s, before);
    PendingReadExactly(c, t, origin);
    ClaimedLater(c, t, after, PendingRead(c, t, origin).sid);
  }

  lemma {:induction false} AfterAppend(c: Crypto, s: State, first: seq<Action>, second: seq<Action>)
    ensures After(c, s, first + second) == After(c, After(c, s, first), second)
  {
    if second == [] {
      assert first + second == first;
    } else {
      var n := |second| - 1;
      assert (first + second)[..|first + second| - 1] == first + second[..n];
      AfterAppend(c, s, first, second[..n]);
    }
  }

  lemma ReachableAfter(c: Crypto, s: State, run: seq<Action>)
    requires Reachable(c, s)
    ensures Reachable(c, After(c, s, run))
  {
    var s0, first :| Init(s0) && After(c, s0, first) == s;
    AfterAppend(c, s0, first, run);
  }
}
