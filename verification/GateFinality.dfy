/** When a terminated session is final. It is not always: the nonce may still be live, the
    session undecided, or an `allow` in flight. Here is exactly when no run makes it active. */
module GateFinality {
  import opened Common
  import opened Sessions
  import opened Gate
  import opened GateInvariant
  import opened GateSafety
  import opened GateAdmission
  import opened GateStability
  import Policy
  import Remediation

  // --- Admissions in flight ------------------------------------------------------------

  /** The request may yet record an `allow` for the session: an attestation the policy would
      allow, were its build on the list when it is read; a poll of a tenant that failed open,
      that read the session undecided; or an `allow` about to be written. */
  predicate MayAdmit(p: Proc, sid: Sid) {
    match p
    case Claiming(id, session, snapshot, ip) =>
      id == sid && JudgedVerdict(session, snapshot, ip, true).decision == Policy.Allow
    case Storing(id, session, snapshot, ip) =>
      id == sid && JudgedVerdict(session, snapshot, ip, true).decision == Policy.Allow
    case Judging(id, session, snapshot, ip, accepted) =>
      id == sid && JudgedVerdict(session, snapshot, ip, accepted).decision == Policy.Allow
    case PollGot(_, _, _, mode, id, row) => id == sid && row.verdict.None? && mode == Remediation.FailOpen
    case PollWriting(_, id, verdict) => id == sid && verdict.decision == Policy.Allow
    case _ => false
  }

  ghost predicate NoAdmissionInFlight(s: State, sid: Sid) {
    forall pid | pid in s.procs :: !MayAdmit(s.procs[pid], sid)
  }

  /** Terminated and decided, with the nonce claimed or expired. */
  predicate Closed(s: State, sid: Sid) {
    sid in s.rows && s.rows[sid].state == Terminated && s.rows[sid].verdict.Some? && !Live(s.rows[sid], s.now)
  }

  ghost predicate Final(s: State, sid: Sid) {
    Closed(s, sid) && NoAdmissionInFlight(s, sid)
  }

  // --- A final session stays final -------------------------------------------------------

  /** What a step of one request leaves of a closed session. */
  predicate ClosedMove(s: State, t: State, pid: Pid, sid: Sid) {
    Closed(t, sid) && pid in t.procs && t.procs == s.procs[pid := t.procs[pid]] && !MayAdmit(t.procs[pid], sid)
  }

  lemma ClaimElsewhere(s: State, pid: Pid, p: Proc, sid: Sid)
    requires Closed(s, sid) && p.Attesting?
    ensures ClosedMove(s, Attest(s, pid, p), pid, sid)
  {
    assert Claimable(s.rows, p.nonceHash, s.now) != Some(sid);
  }

  lemma RefusalCloses(s: State, pid: Pid, p: Proc, sid: Sid)
    requires Closed(s, sid) && !MayAdmit(p, sid) && (p.Refused? || p.Claiming?)
    ensures ClosedMove(s, Attest(s, pid, p), pid, sid)
  {
  }

  lemma ListReadCloses(s: State, pid: Pid, p: Proc, sid: Sid)
    requires Closed(s, sid) && !MayAdmit(p, sid) && p.Storing?
    ensures ClosedMove(s, Attest(s, pid, p), pid, sid)
  {
    UnlistedIsDenied(p.session, p.snapshot, p.ip);
  }

  lemma JudgementCloses(s: State, pid: Pid, p: Proc, sid: Sid)
    requires Closed(s, sid) && !MayAdmit(p, sid) && p.Judging?
    ensures ClosedMove(s, Attest(s, pid, p), pid, sid)
  {
  }

  lemma PollReadCloses(s: State, pid: Pid, p: Proc, sid: Sid)
    requires Closed(s, sid) && !MayAdmit(p, sid) && (p.Polling? || p.PollGot?)
    ensures ClosedMove(s, Poll(s, pid, p), pid, sid)
  {
  }

  lemma PollWriteCloses(s: State, pid: Pid, p: Proc, sid: Sid)
    requires Closed(s, sid) && !MayAdmit(p, sid) && p.PollWriting?
    ensures ClosedMove(s, Poll(s, pid, p), pid, sid)
  {
  }

  lemma BeatCloses(s: State, pid: Pid, p: Proc, sid: Sid)
    requires Closed(s, sid) && (p.Beating? || p.BeatFound? || p.BeatEnding? || p.BeatExtending?)
    ensures ClosedMove(s, Beat(s, pid, p), pid, sid)
  {
  }

  lemma LookCloses(s: State, pid: Pid, p: Proc, sid: Sid)
    requires Closed(s, sid) && (p.Looking? || p.LookGot? || p.LookEnding?)
    ensures ClosedMove(s, Look(s, pid, p), pid, sid)
  {
  }

  lemma RunCloses(s: State, pid: Pid, sid: Sid)
    requires Closed(s, sid) && pid in s.procs && !MayAdmit(s.procs[pid], sid) && !s.procs[pid].Done?
    ensures ClosedMove(s, Advance(s, pid, s.procs[pid]), pid, sid)
  {
    var p := s.procs[pid];
    if p.Attesting? {
      ClaimElsewhere(s, pid, p, sid);
    } else if p.Refused? || p.Claiming? {
      RefusalCloses(s, pid, p, sid);
    } else if p.Storing? {
      ListReadCloses(s, pid, p, sid);
    } else if p.Judging? {
      JudgementCloses(s, pid, p, sid);
    } else if p.Polling? || p.PollGot? {
      PollReadCloses(s, pid, p, sid);
    } else if p.PollWriting? {
      PollWriteCloses(s, pid, p, sid);
    } else if p.Beating? || p.BeatFound? || p.BeatEnding? || p.BeatExtending? {
      BeatCloses(s, pid, p, sid);
    } else {
      LookCloses(s, pid, p, sid);
    }
  }

  lemma WorldFinal(c: Crypto, s: State, a: Action, sid: Sid)
    requires Final(s, sid) && Enabled(c, s, a) && !a.Run?
    ensures Final(Apply(c, s, a), sid)
  {
    if a.Spawn? { assert !MayAdmit(Start(c, s, a.request), sid); }
  }

  lemma NextFinal(c: Crypto, s: State, a: Action, sid: Sid)
    requires Final(s, sid)
    ensures Final(Next(c, s, a), sid)
  {
    if Enabled(c, s, a) {
      if a.Run? {
        if !s.procs[a.pid].Done? { RunCloses(s, a.pid, sid); }
      } else {
        WorldFinal(c, s, a, sid);
      }
    }
  }

  lemma {:induction false} FinalForever(c: Crypto, s: State, run: seq<Action>, sid: Sid)
    requires Final(s, sid)
    ensures Final(After(c, s, run), sid)
  {
    if run != [] {
      FinalForever(c, s, run[..|run| - 1], sid);
      NextFinal(c, After(c, s, run[..|run| - 1]), run[|run| - 1], sid);
    }
  }

  // --- Any other can become active again -------------------------------------------------------

  predicate IsActive(s: State, sid: Sid) {
    sid in s.rows && s.rows[sid].state == Active
  }

  ghost predicate CanBecomeActive(c: Crypto, s: State, sid: Sid) {
    exists t :: Reaches(c, s, t) && IsActive(t, sid)
  }

  lemma ReachesTransitive(c: Crypto, s: State, t: State, u: State)
    requires Reaches(c, s, t) && Reaches(c, t, u)
    ensures Reaches(c, s, u)
  {
    var first :| After(c, s, first) == t;
    var second :| After(c, t, second) == u;
    AfterAppend(c, s, first, second);
  }

  lemma ActiveLater(c: Crypto, s: State, t: State, sid: Sid)
    requires Reaches(c, s, t) && CanBecomeActive(c, t, sid)
    ensures CanBecomeActive(c, s, sid)
  {
    var u :| Reaches(c, t, u) && IsActive(u, sid);
    ReachesTransitive(c, s, t, u);
  }

  lemma OneStep(c: Crypto, s: State, a: Action)
    ensures Reaches(c, s, Next(c, s, a))
  {
    ReachesSelf(c, s);
    ReachesStep(c, s, s, a);
  }

  lemma JudgeAdmits(c: Crypto, s: State, pid: Pid, sid: Sid)
    requires Inv(c, s) && pid in s.procs && s.procs[pid].Judging? && MayAdmit(s.procs[pid], sid)
    ensures CanBecomeActive(c, s, sid)
  {
    assert ProcOk(s, s.procs[pid]);
    OneStep(c, s, Run(pid));
    JudgeActivates(c, s, pid, sid);
  }

  lemma JudgeActivates(c: Crypto, s: State, pid: Pid, sid: Sid)
    requires pid in s.procs && s.procs[pid].Judging? && MayAdmit(s.procs[pid], sid)
    requires sid in s.rows && s.rows[sid].tenant == s.procs[pid].session.tenant
    ensures IsActive(Next(c, s, Run(pid)), sid)
  {
  }

  lemma ListedIsJudged(c: Crypto, s: State, pid: Pid, sid: Sid)
    requires pid in s.procs && s.procs[pid].Storing? && MayAdmit(s.procs[pid], sid)
    requires s.procs[pid].snapshot.buildHash in s.builds
    ensures var t := Next(c, s, Run(pid)); pid in t.procs && t.procs[pid].Judging? && MayAdmit(t.procs[pid], sid)
  {
  }

  lemma ListedAdmits(c: Crypto, s: State, pid: Pid, sid: Sid)
    requires Inv(c, s) && pid in s.procs && s.procs[pid].Storing? && MayAdmit(s.procs[pid], sid)
    requires s.procs[pid].snapshot.buildHash in s.builds
    ensures CanBecomeActive(c, s, sid)
  {
    NextKeeps(c, s, Run(pid));
    OneStep(c, s, Run(pid));
    ListedIsJudged(c, s, pid, sid);
    JudgeAdmits(c, Next(c, s, Run(pid)), pid, sid);
    ActiveLater(c, s, Next(c, s, Run(pid)), sid);
  }

  /** The build may yet come on the list. */
  lemma StorerAdmits(c: Crypto, s: State, pid: Pid, sid: Sid)
    requires Inv(c, s) && pid in s.procs && s.procs[pid].Storing? && MayAdmit(s.procs[pid], sid)
    ensures CanBecomeActive(c, s, sid)
  {
    var build := s.procs[pid].snapshot.buildHash;
    ListsBuild(c, s, build);
    NextKeeps(c, s, SetBuild(build, true));
    OneStep(c, s, SetBuild(build, true));
    ListedAdmits(c, Next(c, s, SetBuild(build, true)), pid, sid);
    ActiveLater(c, s, Next(c, s, SetBuild(build, true)), sid);
  }

  lemma ListsBuild(c: Crypto, s: State, build: string)
    ensures var t := Next(c, s, SetBuild(build, true)); build in t.builds && t.procs == s.procs
  {
  }

  lemma ClaimIsStored(c: Crypto, s: State, pid: Pid, sid: Sid)
    requires pid in s.procs && s.procs[pid].Claiming? && MayAdmit(s.procs[pid], sid)
    ensures var t := Next(c, s, Run(pid)); pid in t.procs && t.procs[pid].Storing? && MayAdmit(t.procs[pid], sid)
  {
  }

  lemma ClaimerAdmits(c: Crypto, s: State, pid: Pid, sid: Sid)
    requires Inv(c, s) && pid in s.procs && s.procs[pid].Claiming? && MayAdmit(s.procs[pid], sid)
    ensures CanBecomeActive(c, s, sid)
  {
    var t := Next(c, s, Run(pid));
    NextKeeps(c, s, Run(pid));
    OneStep(c, s, Run(pid));
    ClaimIsStored(c, s, pid, sid);
    StorerAdmits(c, t, pid, sid);
    ActiveLater(c, s, t, sid);
  }

  lemma WriterAdmits(c: Crypto, s: State, pid: Pid, sid: Sid)
    requires Inv(c, s) && pid in s.procs && s.procs[pid].PollWriting? && MayAdmit(s.procs[pid], sid)
    ensures CanBecomeActive(c, s, sid)
  {
    assert ProcOk(s, s.procs[pid]);
    OneStep(c, s, Run(pid));
    assert IsActive(Next(c, s, Run(pid)), sid);
  }

  lemma PollerAdmits(c: Crypto, s: State, pid: Pid, sid: Sid)
    requires Inv(c, s) && pid in s.procs && s.procs[pid].PollGot? && MayAdmit(s.procs[pid], sid)
    ensures CanBecomeActive(c, s, sid)
  {
    var wait := Tick(s.procs[pid].deadline);
    var t := Next(c, s, wait);
    NextKeeps(c, s, wait);
    OneStep(c, s, wait);
    NextKeeps(c, t, Run(pid));
    OneStep(c, t, Run(pid));
    WriterAdmits(c, Next(c, t, Run(pid)), pid, sid);
    ActiveLater(c, t, Next(c, t, Run(pid)), sid);
    ActiveLater(c, s, t, sid);
  }

  lemma InFlightAdmits(c: Crypto, s: State, pid: Pid, sid: Sid)
    requires Inv(c, s) && pid in s.procs && MayAdmit(s.procs[pid], sid)
    ensures CanBecomeActive(c, s, sid)
  {
    match s.procs[pid] {
      case Claiming(_, _, _, _) => ClaimerAdmits(c, s, pid, sid);
      case Storing(_, _, _, _) => StorerAdmits(c, s, pid, sid);
      case Judging(_, _, _, _, _) => JudgeAdmits(c, s, pid, sid);
      case PollGot(_, _, _, _, _, _) => PollerAdmits(c, s, pid, sid);
      case PollWriting(_, _, _) => WriterAdmits(c, s, pid, sid);
      case _ =>
    }
  }

  /** The poll of a tenant that fails open reads an undecided session. */
  lemma OpenPollReads(c: Crypto, s: State, sid: Sid, nonce: string) returns (t: State, pid: Pid)
    requires Inv(c, s) && sid in s.rows && s.rows[sid].verdict.None?
    requires c.hash(nonce) == s.rows[sid].nonceHash && s.rows[sid].tenant in s.open
    ensures Reaches(c, s, t) && Inv(c, t) && pid in t.procs && t.procs[pid].PollGot? && MayAdmit(t.procs[pid], sid)
  {
    pid := FreshPid(s.procs.Keys);
    var spawn := Spawn(pid, VerdictRequest(s.rows[sid].tenant, nonce));
    var u := Next(c, s, spawn);
    OneStep(c, s, spawn);
    NextKeeps(c, s, spawn);
    t := Next(c, u, Run(pid));
    ReachesStep(c, s, u, Run(pid));
    NextKeeps(c, u, Run(pid));
    PollReadsUndecided(c, u, pid, sid);
  }

  lemma PollReadsUndecided(c: Crypto, s: State, pid: Pid, sid: Sid)
    requires HashesUnique(s.rows) && pid in s.procs && s.procs[pid].Polling? && sid in s.rows
    requires s.procs[pid].nonceHash == s.rows[sid].nonceHash && s.procs[pid].tenant == s.rows[sid].tenant
    requires s.rows[sid].verdict.None? && s.procs[pid].mode == Remediation.FailOpen
    ensures var t := Next(c, s, Run(pid)); pid in t.procs && t.procs[pid].PollGot? && MayAdmit(t.procs[pid], sid)
  {
    assert Holder(s.rows, s.procs[pid].nonceHash) == Some(sid);
  }

  /** An undecided session comes back even when its nonce is dead: by the verdict poll of a
      tenant that fails open. */
  lemma UndecidedAdmits(c: Crypto, s: State, sid: Sid, nonce: string)
    requires Inv(c, s) && sid in s.rows && s.rows[sid].verdict.None? && c.hash(nonce) == s.rows[sid].nonceHash
    ensures CanBecomeActive(c, s, sid)
  {
    var fail := SetFailMode(s.rows[sid].tenant, Remediation.FailOpen);
    var t := Next(c, s, fail);
    OneStep(c, s, fail);
    NextKeeps(c, s, fail);
    var u, pid := OpenPollReads(c, t, sid, nonce);
    PollerAdmits(c, u, pid, sid);
    ActiveLater(c, t, u, sid);
    ActiveLater(c, s, t, sid);
  }

  // --- Every digest is that of a nonce -----------------------------------------------------

  ghost predicate IsDigest(c: Crypto, digest: string) {
    exists nonce :: c.hash(nonce) == digest
  }

  lemma NextDigests(c: Crypto, s: State, a: Action, sid: Sid)
    requires Inv(c, s) && sid in Next(c, s, a).rows
    ensures (sid in s.rows && Next(c, s, a).rows[sid].nonceHash == s.rows[sid].nonceHash)
      || IsDigest(c, Next(c, s, a).rows[sid].nonceHash)
  {
    if sid in s.rows {
      NextKeeps(c, s, a);
    } else {
      NewRowDigests(c, s, a, sid);
    }
  }

  lemma NewRowDigests(c: Crypto, s: State, a: Action, sid: Sid)
    requires sid !in s.rows && sid in Next(c, s, a).rows
    ensures IsDigest(c, Next(c, s, a).rows[sid].nonceHash)
  {
    if a.Run? && a.pid in s.procs { NoRowComes(s, a.pid, s.procs[a.pid]); }
  }

  lemma NoRowComes(s: State, pid: Pid, p: Proc)
    ensures Advance(s, pid, p).rows.Keys == s.rows.Keys
  {
  }

  lemma {:induction false} AfterDigests(c: Crypto, s: State, run: seq<Action>, sid: Sid)
    requires Init(s) && sid in After(c, s, run).rows
    ensures IsDigest(c, After(c, s, run).rows[sid].nonceHash)
  {
    if run != [] {
      var front := run[..|run| - 1];
      AfterKeeps(c, s, front);
      NextDigests(c, After(c, s, front), run[|run| - 1], sid);
      if sid in After(c, s, front).rows { AfterDigests(c, s, front, sid); }
    }
  }

  const CLEAN_MACHINE := Policy.Snapshot(
    Policy.Features(Policy.Enabled, Policy.Enabled, Policy.Disabled, Policy.Disabled, Policy.Enabled, Policy.Enabled),
    true, true, [], "")

  lemma LiveAdmits(c: Crypto, s: State, sid: Sid)
    requires Inv(c, s) && sid in s.rows && Live(s.rows[sid], s.now)
    ensures CanBecomeActive(c, s, sid)
  {
    var list := SetBuild("", true);
    var t := Next(c, s, list);
    OneStep(c, s, list);
    NextKeeps(c, s, list);
    var u := LiveNonceRevives(c, t, sid, CLEAN_MACHINE);
    assert IsActive(u, sid);
    ActiveLater(c, s, t, sid);
  }

  // --- Exactly when -----------------------------------------------------------------------------

  /** No run makes a terminated session active if and only if it is decided, its nonce is claimed
      or expired, and no `allow` for it can come of a request in flight. */
  lemma FinalExactly(c: Crypto, s: State, sid: Sid)
    requires Reachable(c, s) && sid in s.rows && s.rows[sid].state == Terminated
    ensures !CanBecomeActive(c, s, sid)
      <==> s.rows[sid].verdict.Some? && !Live(s.rows[sid], s.now) && NoAdmissionInFlight(s, sid)
  {
    ReachableInv(c, s);
    if Final(s, sid) {
      forall t | Reaches(c, s, t) ensures !IsActive(t, sid) {
        var run :| After(c, s, run) == t;
        FinalForever(c, s, run, sid);
      }
    } else if s.rows[sid].verdict.None? {
      var s0, run :| Init(s0) && After(c, s0, run) == s;
      AfterDigests(c, s0, run, sid);
      var nonce :| c.hash(nonce) == s.rows[sid].nonceHash;
      UndecidedAdmits(c, s, sid, nonce);
    } else if Live(s.rows[sid], s.now) {
      LiveAdmits(c, s, sid);
    } else {
      var pid :| pid in s.procs && MayAdmit(s.procs[pid], sid);
      InFlightAdmits(c, s, pid, sid);
    }
  }

  // --- A session terminated before it was decided ---------------------------------------------------

  lemma CloseArrives(c: Crypto, s0: State, s: State, sid: Sid) returns (t: State)
    requires Reaches(c, s0, s) && sid in s.rows && s.snaps == map[] && 0 !in s.procs
    ensures Reaches(c, s0, t) && t == Moved(s, 0, BeatEnding(sid, Policy.HeartbeatLost))
  {
    var request := HeartbeatRequest(sid, "", true, true);
    ReachesStep(c, s0, s, Spawn(0, request));
    var s1 := Moved(s, 0, Beating(sid, "", true, true));
    assert Next(c, s, Spawn(0, request)) == s1;
    ReachesStep(c, s0, s1, Run(0));
    var s2 := Moved(s1, 0, BeatFound(sid, "", true, true));
    assert Next(c, s1, Run(0)) == s2;
    ReachesStep(c, s0, s2, Run(0));
    t := Next(c, s2, Run(0));
    assert t.procs == s.procs[0 := t.procs[0]];
  }

  lemma ClosesAndExpires(c: Crypto, s0: State, s: State, sid: Sid) returns (t: State)
    requires Reaches(c, s0, s) && sid in s.rows && 0 in s.procs && s.procs[0] == BeatEnding(sid, Policy.HeartbeatLost)
    requires s.rows[sid].verdict.None? && s.rows[sid].expiresAt <= s.now + NONCE_TTL
    ensures Reaches(c, s0, t) && sid in t.rows && t.rows[sid].state == Terminated && t.rows[sid].verdict.None?
    ensures !Live(t.rows[sid], t.now) && t.procs.Keys == s.procs.Keys && t.rows[sid].nonceHash == s.rows[sid].nonceHash
  {
    ReachesStep(c, s0, s, Run(0));
    var u := Next(c, s, Run(0));
    ReachesStep(c, s0, u, Tick(NONCE_TTL));
    t := Next(c, u, Tick(NONCE_TTL));
  }

  /** A closing heartbeat before any attestation, and 30 seconds: a reachable session that is
      terminated with its nonce dead, and can become active all the same. */
  lemma UndecidedRevives(c: Crypto, sid: Sid, nonce: string, sealed: string, gameIp: string, tier: Policy.Tier)
    returns (s: State)
    requires c.open(sealed) == Some(nonce)
    ensures Reachable(c, s) && sid in s.rows && s.rows[sid].state == Terminated && s.rows[sid].verdict.None?
    ensures !Live(s.rows[sid], s.now) && s.procs.Keys <= {0} && CanBecomeActive(c, s, sid)
  {
    var s0 := State(0, map[], map[], {}, {}, {}, {}, map[]);
    var create := Create(sid, 0, nonce, sealed, gameIp, tier);
    var s1 := Next(c, s0, create);
    OneStep(c, s0, create);
    var s2 := CloseArrives(c, s0, s1, sid);
    s := ClosesAndExpires(c, s0, s2, sid);
    ReachableInv(c, s);
    UndecidedAdmits(c, s, sid, nonce);
  }
}
