/** What every reachable state of the connect gate satisfies, whatever the interleaving. */
module GateInvariant {
  import opened Common
  import opened Sessions
  import opened Gate
  import Policy
  import Remediation

  // --- Rows ----------------------------------------------------------------------

  /** The columns agree with one another at a time. */
  predicate RowShape(r: Row, now: nat) {
    && r.issuedAt <= now && r.expiresAt == r.issuedAt + NONCE_TTL
    && (r.sealed.None? <==> r.consumedAt.Some?)
    && (r.attestationIp.Some? <==> r.consumedAt.Some?)
    && (r.consumedAt.Some? ==> r.consumedAt.value < r.expiresAt && r.consumedAt.value <= now)
    && (r.state == Pending ==> r.consumedAt.None? && r.verdict.None?)
    && (r.state == Active ==> r.verdict.Some? && r.verdict.value.decision == Policy.Allow && r.lastHeartbeat.Some?)
    && (r.lastHeartbeat.Some? ==> r.issuedAt <= r.lastHeartbeat.value <= now)
  }

  /** A sealed nonce opens to the nonce of the digest. */
  predicate NonceOk(c: Crypto, r: Row) {
    r.sealed.Some? ==> c.open(r.sealed.value).Some? && c.hash(c.open(r.sealed.value).value) == r.nonceHash
  }

  ghost predicate RowOk(c: Crypto, r: Row, now: nat) {
    RowShape(r, now) && NonceOk(c, r)
  }

  /** The columns no statement writes after the INSERT. */
  predicate SameSession(a: Row, b: Row) {
    a.tenant == b.tenant && a.nonceHash == b.nonceHash && a.gameIp == b.gameIp && a.tier == b.tier
    && a.issuedAt == b.issuedAt && a.expiresAt == b.expiresAt
  }

  /** A later version of the row: a claim, once made, stays as it is, and a decided session
      stays decided. */
  predicate RowGrows(a: Row, b: Row) {
    && SameSession(a, b)
    && (a.verdict.Some? ==> b.verdict.Some?)
    && (a.consumedAt.Some? ==> b.consumedAt == a.consumedAt && b.attestationIp == a.attestationIp)
  }

  // --- Verdicts ---------------------------------------------------------------------

  /** The verdict is the policy's judgement of the session's one stored snapshot, claimed from
      the recorded address; `accepted` only for a build that has been on the list. */
  ghost predicate Judged(s: State, sid: Sid, v: Verdict, accepted: bool)
    requires sid in s.rows
  {
    var r := s.rows[sid];
    && r.consumedAt.Some? && r.attestationIp.Some?
    && sid in s.snaps && |s.snaps[sid]| == 1
    && (accepted ==> s.snaps[sid][0].buildHash in s.everAccepted)
    && v == JudgedVerdict(r, s.snaps[sid][0], r.attestationIp.value, accepted)
  }

  /** A timeout; failing open only for a tenant that has been set to. */
  ghost predicate TimedOut(s: State, tenant: Tenant, v: Verdict) {
    || v == Remediation.TimeoutVerdict(Remediation.FailClosed)
    || (v == Remediation.TimeoutVerdict(Remediation.FailOpen) && tenant in s.everOpen)
  }

  /** Where a verdict can come from. */
  ghost predicate Explained(s: State, sid: Sid, v: Verdict) {
    && sid in s.rows
    && (TimedOut(s, s.rows[sid].tenant, v) || Judged(s, sid, v, true) || Judged(s, sid, v, false))
  }

  // --- Requests in flight ---------------------------------------------------------------

  /** The attestation holds this session's claim, and has not recorded its verdict. */
  predicate Claims(p: Proc, sid: Sid) {
    (p.Claiming? || p.Storing? || p.Judging?) && p.sid == sid
  }

  ghost predicate ClaimOk(s: State, sid: Sid, session: Row, ip: string) {
    && sid in s.rows && SameSession(session, s.rows[sid])
    && s.rows[sid].consumedAt.Some? && s.rows[sid].attestationIp == Some(ip)
  }

  ghost predicate AnswerOk(s: State, answer: Answer) {
    match answer
    case Accepted(sid, v) => Explained(s, sid, v)
    case VerdictAnswer(sid, v) => Explained(s, sid, v)
    case _ => true
  }

  ghost predicate ProcOk(s: State, p: Proc) {
    match p
    case Claiming(sid, session, _, ip) => ClaimOk(s, sid, session, ip) && sid !in s.snaps
    case Storing(sid, session, snapshot, ip) =>
      ClaimOk(s, sid, session, ip) && sid in s.snaps && s.snaps[sid] == [snapshot]
    case Judging(sid, session, snapshot, ip, accepted) =>
      && ClaimOk(s, sid, session, ip) && sid in s.snaps && s.snaps[sid] == [snapshot]
      && (accepted ==> snapshot.buildHash in s.everAccepted)
    case Polling(tenant, _, _, mode) => mode == Remediation.FailOpen ==> tenant in s.everOpen
    case PollGot(tenant, _, _, mode, sid, row) =>
      && (mode == Remediation.FailOpen ==> tenant in s.everOpen)
      && sid in s.rows && s.rows[sid].tenant == tenant
      && (row.verdict.Some? ==> Explained(s, sid, row.verdict.value))
    case PollWriting(tenant, sid, v) =>
      sid in s.rows && s.rows[sid].tenant == tenant && TimedOut(s, tenant, v)
    case LookGot(sid, row, readAt) =>
      && readAt <= s.now && RowShape(row, readAt)
      && sid in s.rows && SameSession(row, s.rows[sid]) && (row.verdict.Some? ==> s.rows[sid].verdict.Some?)
    case LookEnding(sid, _) => sid in s.rows && s.rows[sid].verdict.Some? && s.rows[sid].expiresAt <= s.now
    case Done(answer) => AnswerOk(s, answer)
    case _ => true
  }

  // --- The invariant -----------------------------------------------------------------------

  ghost predicate RowsOk(c: Crypto, s: State) {
    forall sid | sid in s.rows :: RowOk(c, s.rows[sid], s.now)
  }

  ghost predicate SnapsOk(s: State) {
    forall sid | sid in s.snaps :: sid in s.rows && |s.snaps[sid]| == 1 && s.rows[sid].consumedAt.Some?
  }

  ghost predicate VerdictsOk(s: State) {
    forall sid | sid in s.rows && s.rows[sid].verdict.Some? :: Explained(s, sid, s.rows[sid].verdict.value)
  }

  ghost predicate ProcsOk(s: State) {
    forall pid | pid in s.procs :: ProcOk(s, s.procs[pid])
  }

  /** No two attestations hold the same claim. */
  ghost predicate ClaimsUnique(s: State) {
    forall p, q, sid | p in s.procs && q in s.procs && Claims(s.procs[p], sid) && Claims(s.procs[q], sid) :: p == q
  }

  ghost predicate Registered(s: State) {
    s.builds <= s.everAccepted && s.open <= s.everOpen
  }

  ghost predicate TableOk(c: Crypto, s: State) {
    RowsOk(c, s) && HashesUnique(s.rows) && SnapsOk(s) && VerdictsOk(s) && Registered(s)
  }

  ghost predicate Inv(c: Crypto, s: State) {
    TableOk(c, s) && ProcsOk(s) && ClaimsUnique(s)
  }

  // --- Evidence only accumulates -------------------------------------------------------------

  ghost predicate Grows(s: State, t: State) {
    && s.now <= t.now
    && (forall sid | sid in s.rows :: sid in t.rows && RowGrows(s.rows[sid], t.rows[sid]))
    && (forall sid | sid in s.snaps :: sid in t.snaps && t.snaps[sid] == s.snaps[sid])
    && s.everAccepted <= t.everAccepted && s.everOpen <= t.everOpen
  }

  ghost predicate Follows(c: Crypto, s: State, t: State) {
    Inv(c, t) && Grows(s, t)
  }

  lemma ExplainedGrows(s: State, t: State, sid: Sid, v: Verdict)
    requires Grows(s, t) && Explained(s, sid, v)
    ensures Explained(t, sid, v)
  {
  }

  /** What a step leaves in flight stays in order, unless it is an unstored claim. */
  lemma ProcGrows(s: State, t: State, p: Proc)
    requires Grows(s, t) && ProcOk(s, p)
    requires p.Claiming? ==> p.sid !in t.snaps
    ensures ProcOk(t, p)
  {
    match p {
      case PollGot(_, _, _, _, sid, row) => if row.verdict.Some? { ExplainedGrows(s, t, sid, row.verdict.value); }
      case Done(Accepted(sid, v)) => ExplainedGrows(s, t, sid, v);
      case Done(VerdictAnswer(sid, v)) => ExplainedGrows(s, t, sid, v);
      case _ =>
    }
  }

  // --- Kinds of step -----------------------------------------------------------------------------

  /** A statement rewrites at most one row, and writes no verdict that has no origin. */
  ghost predicate RowWritten(c: Crypto, s: State, t: State, sid: Sid) {
    && t == s.(rows := t.rows, procs := t.procs)
    && sid in s.rows && sid in t.rows && t.rows == s.rows[sid := t.rows[sid]]
    && RowGrows(s.rows[sid], t.rows[sid]) && RowOk(c, t.rows[sid], t.now)
    && (|| t.rows[sid].verdict == s.rows[sid].verdict
        || (t.rows[sid].verdict.Some? && Explained(s, sid, t.rows[sid].verdict.value)))
  }

  lemma RowWrittenKeeps(c: Crypto, s: State, t: State, sid: Sid)
    requires Inv(c, s) && RowWritten(c, s, t, sid)
    ensures TableOk(c, t) && Grows(s, t)
  {
    assert Grows(s, t);
    forall id | id in t.rows && t.rows[id].verdict.Some? ensures Explained(t, id, t.rows[id].verdict.value) {
      ExplainedGrows(s, t, id, t.rows[id].verdict.value);
    }
  }

  /** The requests after one of them moved. */
  lemma FlightKept(s: State, t: State, pid: Pid, p: Proc)
    requires ProcsOk(s) && ClaimsUnique(s) && Grows(s, t)
    requires t.procs == s.procs[pid := p] && ProcOk(t, p)
    requires forall q | q in s.procs && q != pid && s.procs[q].Claiming? :: s.procs[q].sid !in t.snaps
    requires forall q, sid | q in s.procs && q != pid && Claims(p, sid) :: !Claims(s.procs[q], sid)
    ensures ProcsOk(t) && ClaimsUnique(t)
  {
    forall q | q in t.procs ensures ProcOk(t, t.procs[q]) {
      if q != pid { ProcGrows(s, t, s.procs[q]); }
    }
  }

  /** A request that only read, or that rewrote one row. */
  lemma PlainStepKeeps(c: Crypto, s: State, t: State, pid: Pid, p: Proc)
    requires Inv(c, s) && TableOk(c, t) && Grows(s, t) && t.snaps == s.snaps
    requires pid in s.procs && t.procs == s.procs[pid := p] && ProcOk(t, p)
    requires forall sid | Claims(p, sid) :: Claims(s.procs[pid], sid)
    ensures Follows(c, s, t)
  {
    forall q | q in s.procs && s.procs[q].Claiming? ensures s.procs[q].sid !in t.snaps { assert ProcOk(s, s.procs[q]); }
    FlightKept(s, t, pid, p);
  }

  /** Where a request may go by reading alone. */
  ghost predicate ReadsTo(s: State, p: Proc, q: Proc) {
    && ProcOk(s, q)
    && (forall sid | Claims(q, sid) :: Claims(p, sid))
    && (q.Claiming? ==> q.sid !in s.snaps)
  }

  lemma ReadKeeps(c: Crypto, s: State, pid: Pid, q: Proc)
    requires Inv(c, s) && pid in s.procs && ReadsTo(s, s.procs[pid], q)
    ensures Follows(c, s, Moved(s, pid, q))
  {
    var t := Moved(s, pid, q);
    ProcGrows(s, t, q);
    PlainStepKeeps(c, s, t, pid, q);
  }

  // --- Attestations ----------------------------------------------------------------------------------

  lemma ClaimWritten(c: Crypto, s: State, t: State, sid: Sid, ip: string)
    requires Inv(c, s) && sid in s.rows && Live(s.rows[sid], s.now)
    requires t == s.(rows := s.rows[sid := Claimed(s.rows[sid], ip, s.now)], procs := t.procs)
    ensures TableOk(c, t) && Grows(s, t)
  {
    assert RowWritten(c, s, t, sid);
    RowWrittenKeeps(c, s, t, sid);
  }

  lemma NobodyClaims(c: Crypto, s: State, sid: Sid)
    requires Inv(c, s) && sid in s.rows && s.rows[sid].consumedAt.None?
    ensures forall q | q in s.procs :: !Claims(s.procs[q], sid)
    ensures forall q | q in s.procs && s.procs[q].Claiming? :: s.procs[q].sid !in s.snaps
  {
    forall q | q in s.procs
      ensures !Claims(s.procs[q], sid)
      ensures s.procs[q].Claiming? ==> s.procs[q].sid !in s.snaps
    {
      assert ProcOk(s, s.procs[q]);
    }
  }

  lemma RefusedReads(s: State, pid: Pid, p: Proc)
    requires p.Attesting? && Claimable(s.rows, p.nonceHash, s.now) == None
    ensures Attest(s, pid, p) == Moved(s, pid, Refused(p.nonceHash)) && ReadsTo(s, p, Refused(p.nonceHash))
  {
  }

  lemma ClaimMoves(s: State, pid: Pid, p: Proc, sid: Sid)
    requires p.Attesting? && Claimable(s.rows, p.nonceHash, s.now) == Some(sid)
    ensures var t, row := Attest(s, pid, p), Claimed(s.rows[sid], p.ip, s.now);
      && sid in s.rows && Live(s.rows[sid], s.now)
      && t == Moved(s.(rows := s.rows[sid := row]), pid, Claiming(sid, row, p.snapshot, p.ip))
      && (sid !in s.snaps ==> ProcOk(t, Claiming(sid, row, p.snapshot, p.ip)))
  {
  }

  lemma ClaimKeeps(c: Crypto, s: State, pid: Pid, p: Proc, sid: Sid)
    requires Inv(c, s) && pid in s.procs && s.procs[pid] == p && p.Attesting?
    requires Claimable(s.rows, p.nonceHash, s.now) == Some(sid)
    ensures Follows(c, s, Attest(s, pid, p))
  {
    var t := Attest(s, pid, p);
    ClaimMoves(s, pid, p, sid);
    ClaimWritten(c, s, t, sid, p.ip);
    NobodyClaims(c, s, sid);
    FlightKept(s, t, pid, t.procs[pid]);
  }

  lemma StoreMoves(s: State, pid: Pid, p: Proc)
    requires ProcOk(s, p) && p.Claiming? && SnapsOk(s)
    ensures var t, q := Attest(s, pid, p), Storing(p.sid, p.session, p.snapshot, p.ip);
      && t == Moved(s.(snaps := s.snaps[p.sid := [p.snapshot]]), pid, q) && ProcOk(t, q)
      && SnapsOk(t)
  {
    assert [] + [p.snapshot] == [p.snapshot];
  }

  lemma StoreKeeps(c: Crypto, s: State, pid: Pid, p: Proc)
    requires Inv(c, s) && pid in s.procs && s.procs[pid] == p && p.Claiming?
    ensures Follows(c, s, Attest(s, pid, p))
  {
    var t := Attest(s, pid, p);
    assert ProcOk(s, p);
    StoreMoves(s, pid, p);
    assert Grows(s, t);
    forall id | id in t.rows && t.rows[id].verdict.Some? ensures Explained(t, id, t.rows[id].verdict.value) {
      ExplainedGrows(s, t, id, t.rows[id].verdict.value);
    }
    forall q | q in s.procs && q != pid && s.procs[q].Claiming? ensures s.procs[q].sid !in t.snaps {
      assert ProcOk(s, s.procs[q]);
      assert Claims(p, p.sid) && Claims(s.procs[q], s.procs[q].sid);
    }
    FlightKept(s, t, pid, t.procs[pid]);
  }

  lemma JudgementExplained(s: State, p: Proc)
    requires ProcOk(s, p) && p.Judging?
    ensures Explained(s, p.sid, JudgedVerdict(p.session, p.snapshot, p.ip, p.accepted))
  {
    assert Judged(s, p.sid, JudgedVerdict(p.session, p.snapshot, p.ip, p.accepted), p.accepted);
  }

  lemma RecordKeeps(c: Crypto, s: State, t: State, pid: Pid, tenant: Tenant, sid: Sid, v: Verdict, p: Proc)
    requires Inv(c, s) && pid in s.procs && Explained(s, sid, v) && s.rows[sid].tenant == tenant
    requires t == Moved(s.(rows := RecordIn(s.rows, tenant, sid, v, s.now)), pid, p)
    requires p == Done(Accepted(sid, v)) || p == Done(VerdictAnswer(sid, v))
    ensures Follows(c, s, t)
  {
    assert RowWritten(c, s, t, sid);
    RowWrittenKeeps(c, s, t, sid);
    ExplainedGrows(s, t, sid, v);
    PlainStepKeeps(c, s, t, pid, p);
  }

  lemma AttestReads(s: State, pid: Pid, p: Proc)
    requires ProcOk(s, p) && (p.Refused? || p.Storing?) && Registered(s)
    ensures var q := Attest(s, pid, p).procs[pid]; Attest(s, pid, p) == Moved(s, pid, q) && ReadsTo(s, p, q)
  {
  }

  lemma AttestKeeps(c: Crypto, s: State, pid: Pid, p: Proc)
    requires Inv(c, s) && pid in s.procs && s.procs[pid] == p
    ensures Follows(c, s, Attest(s, pid, p))
  {
    assert ProcOk(s, p);
    var t := Attest(s, pid, p);
    match p {
      case Attesting(nonceHash, _, _) =>
        var holder := Claimable(s.rows, nonceHash, s.now);
        if holder.Some? {
          ClaimKeeps(c, s, pid, p, holder.value);
        } else {
          RefusedReads(s, pid, p);
          ReadKeeps(c, s, pid, Refused(nonceHash));
        }
      case Refused(_) =>
        AttestReads(s, pid, p);
        ReadKeeps(c, s, pid, t.procs[pid]);
      case Claiming(_, _, _, _) => StoreKeeps(c, s, pid, p);
      case Storing(_, _, _, _) =>
        AttestReads(s, pid, p);
        ReadKeeps(c, s, pid, t.procs[pid]);
      case Judging(sid, session, snapshot, ip, accepted) =>
        JudgementExplained(s, p);
        RecordKeeps(c, s, t, pid, session.tenant, sid, JudgedVerdict(session, snapshot, ip, accepted), t.procs[pid]);
      case _ =>
    }
  }

  // --- Verdict polls, heartbeats, liveness --------------------------------------------------------------

  lemma PollReads(s: State, pid: Pid, p: Proc)
    requires ProcOk(s, p) && (p.Polling? || p.PollGot?) && VerdictsOk(s)
    ensures var q := Poll(s, pid, p).procs[pid]; Poll(s, pid, p) == Moved(s, pid, q) && ReadsTo(s, p, q)
  {
  }

  lemma PollKeeps(c: Crypto, s: State, pid: Pid, p: Proc)
    requires Inv(c, s) && pid in s.procs && s.procs[pid] == p && (p.Polling? || p.PollGot? || p.PollWriting?)
    ensures Follows(c, s, Poll(s, pid, p))
  {
    assert ProcOk(s, p);
    var t := Poll(s, pid, p);
    if p.PollWriting? {
      RecordKeeps(c, s, t, pid, p.tenant, p.sid, p.verdict, Done(VerdictAnswer(p.sid, p.verdict)));
    } else {
      PollReads(s, pid, p);
      ReadKeeps(c, s, pid, t.procs[pid]);
    }
  }

  lemma EndWrites(c: Crypto, s: State, t: State, sid: Sid, reason: Reason)
    requires sid in s.rows && RowOk(c, s.rows[sid], s.now)
    requires t == s.(rows := EndIn(s.rows, sid, reason, s.now), procs := t.procs)
    ensures RowWritten(c, s, t, sid)
  {
  }

  lemma ExtendWrites(c: Crypto, s: State, t: State, sid: Sid)
    requires sid in s.rows && RowOk(c, s.rows[sid], s.now)
    requires t == s.(rows := ExtendIn(s.rows, sid, s.now), procs := t.procs)
    ensures RowWritten(c, s, t, sid)
  {
  }

  lemma EndKeeps(c: Crypto, s: State, t: State, pid: Pid, sid: Sid, reason: Reason, answer: Answer)
    requires Inv(c, s) && pid in s.procs && (answer.Terminate? || answer.LivenessAnswer?)
    requires t == Moved(s.(rows := EndIn(s.rows, sid, reason, s.now)), pid, Done(answer))
    ensures Follows(c, s, t)
  {
    if sid in s.rows {
      EndWrites(c, s, t, sid, reason);
      RowWrittenKeeps(c, s, t, sid);
    }
    PlainStepKeeps(c, s, t, pid, Done(answer));
  }

  lemma ExtendKeeps(c: Crypto, s: State, pid: Pid, sid: Sid, answer: Answer)
    requires Inv(c, s) && pid in s.procs && (answer.Acknowledged? || answer.Terminate?)
    ensures Follows(c, s, Moved(s.(rows := ExtendIn(s.rows, sid, s.now)), pid, Done(answer)))
  {
    var t := Moved(s.(rows := ExtendIn(s.rows, sid, s.now)), pid, Done(answer));
    if sid in s.rows {
      ExtendWrites(c, s, t, sid);
      RowWrittenKeeps(c, s, t, sid);
    }
    PlainStepKeeps(c, s, t, pid, Done(answer));
  }

  lemma BeatReads(s: State, pid: Pid, p: Proc)
    requires p.Beating? || p.BeatFound?
    ensures var q := Beat(s, pid, p).procs[pid]; Beat(s, pid, p) == Moved(s, pid, q) && ReadsTo(s, p, q)
  {
  }

  lemma BeatKeeps(c: Crypto, s: State, pid: Pid, p: Proc)
    requires Inv(c, s) && pid in s.procs && s.procs[pid] == p
    requires p.Beating? || p.BeatFound? || p.BeatEnding? || p.BeatExtending?
    ensures Follows(c, s, Beat(s, pid, p))
  {
    var t := Beat(s, pid, p);
    if p.BeatEnding? {
      EndKeeps(c, s, t, pid, p.sid, p.reason, Terminate(p.sid, p.reason));
    } else if p.BeatExtending? {
      ExtendKeeps(c, s, pid, p.sid, t.procs[pid].answer);
    } else {
      BeatReads(s, pid, p);
      ReadKeeps(c, s, pid, t.procs[pid]);
    }
  }

  lemma LookReads(c: Crypto, s: State, pid: Pid, p: Proc)
    requires RowsOk(c, s) && ProcOk(s, p) && (p.Looking? || p.LookGot?)
    ensures var q := Look(s, pid, p).procs[pid]; Look(s, pid, p) == Moved(s, pid, q) && ReadsTo(s, p, q)
  {
    if p.Looking? && p.sid in s.rows { assert RowOk(c, s.rows[p.sid], s.now); }
  }

  lemma LookKeeps(c: Crypto, s: State, pid: Pid, p: Proc)
    requires Inv(c, s) && pid in s.procs && s.procs[pid] == p && (p.Looking? || p.LookGot? || p.LookEnding?)
    ensures Follows(c, s, Look(s, pid, p))
  {
    assert ProcOk(s, p);
    var t := Look(s, pid, p);
    if p.LookEnding? {
      var reason := match p.liveness.reason case Some(r) => r case None => Policy.HeartbeatLost;
      EndKeeps(c, s, t, pid, p.sid, reason, LivenessAnswer(p.sid, p.liveness));
    } else {
      LookReads(c, s, pid, p);
      ReadKeeps(c, s, pid, t.procs[pid]);
    }
  }

  // --- The rest of the world ---------------------------------------------------------------------------------

  /** Steps that leave every request where it is. */
  lemma WorldStepKeeps(c: Crypto, s: State, t: State)
    requires Inv(c, s) && t.procs == s.procs && t.snaps == s.snaps && Grows(s, t)
    requires RowsOk(c, t) && HashesUnique(t.rows) && Registered(t)
    requires forall sid | sid in t.rows && t.rows[sid].verdict.Some? ::
      sid in s.rows && s.rows[sid].verdict == t.rows[sid].verdict
    ensures Follows(c, s, t)
  {
    forall sid | sid in t.rows && t.rows[sid].verdict.Some? ensures Explained(t, sid, t.rows[sid].verdict.value) {
      ExplainedGrows(s, t, sid, t.rows[sid].verdict.value);
    }
    forall q | q in s.procs ensures ProcOk(t, s.procs[q]) {
      assert ProcOk(s, s.procs[q]);
      ProcGrows(s, t, s.procs[q]);
    }
  }

  lemma SpawnKeeps(c: Crypto, s: State, pid: Pid, request: Request)
    requires Inv(c, s) && pid !in s.procs
    ensures Follows(c, s, Moved(s, pid, Start(c, s, request)))
  {
    var t := Moved(s, pid, Start(c, s, request));
    forall q | q in s.procs && s.procs[q].Claiming? ensures s.procs[q].sid !in t.snaps { assert ProcOk(s, s.procs[q]); }
    assert TableOk(c, t);
    FlightKept(s, t, pid, Start(c, s, request));
  }

  lemma CrashKeeps(c: Crypto, s: State, pid: Pid)
    requires Inv(c, s)
    ensures Follows(c, s, s.(procs := s.procs - {pid}))
  {
    var t := s.(procs := s.procs - {pid});
    forall q | q in t.procs ensures ProcOk(t, t.procs[q]) {
      assert ProcOk(s, s.procs[q]);
      ProcGrows(s, t, s.procs[q]);
    }
  }

  lemma CreateKeeps(c: Crypto, s: State, a: Action)
    requires Inv(c, s) && a.Create? && Enabled(c, s, a)
    ensures Follows(c, s, Apply(c, s, a))
  {
    WorldStepKeeps(c, s, Apply(c, s, a));
  }

  lemma RowsLater(c: Crypto, s: State, t: State)
    requires RowsOk(c, s) && t.rows == s.rows && s.now <= t.now
    ensures RowsOk(c, t)
  {
    forall sid | sid in t.rows ensures RowOk(c, t.rows[sid], t.now) { assert RowOk(c, s.rows[sid], s.now); }
  }

  lemma LaterKeeps(c: Crypto, s: State, t: State)
    requires Inv(c, s) && t == s.(now := t.now) && s.now <= t.now
    ensures Follows(c, s, t)
  {
    RowsLater(c, s, t);
    WorldStepKeeps(c, s, t);
  }

  lemma TickKeeps(c: Crypto, s: State, a: Action)
    requires Inv(c, s) && a.Tick?
    ensures Follows(c, s, Apply(c, s, a))
  {
    LaterKeeps(c, s, Apply(c, s, a));
  }

  lemma ListsKeep(c: Crypto, s: State, t: State)
    requires Inv(c, s) && Registered(t) && s.everAccepted <= t.everAccepted && s.everOpen <= t.everOpen
    requires t == s.(builds := t.builds, everAccepted := t.everAccepted, open := t.open, everOpen := t.everOpen)
    ensures Follows(c, s, t)
  {
    WorldStepKeeps(c, s, t);
  }

  lemma SwitchKeeps(c: Crypto, s: State, a: Action)
    requires Inv(c, s) && (a.SetBuild? || a.SetFailMode?)
    ensures Follows(c, s, Apply(c, s, a))
  {
    ListsKeep(c, s, Apply(c, s, a));
  }

  lemma SweptRows(c: Crypto, s: State)
    requires RowsOk(c, s)
    ensures forall sid | sid in s.rows ::
      RowOk(c, SweepAll(s.rows, s.now)[sid], s.now) && RowGrows(s.rows[sid], SweepAll(s.rows, s.now)[sid])
  {
    forall sid | sid in s.rows
      ensures RowOk(c, SweepAll(s.rows, s.now)[sid], s.now) && RowGrows(s.rows[sid], SweepAll(s.rows, s.now)[sid])
    {
      assert RowOk(c, s.rows[sid], s.now);
    }
  }

  lemma SweepKeeps(c: Crypto, s: State, a: Action)
    requires Inv(c, s) && a.Sweep?
    ensures Follows(c, s, Apply(c, s, a))
  {
    SweptRows(c, s);
    WorldStepKeeps(c, s, s.(rows := SweepAll(s.rows, s.now)));
  }

  lemma RunKeeps(c: Crypto, s: State, pid: Pid)
    requires Inv(c, s) && pid in s.procs
    ensures Follows(c, s, Advance(s, pid, s.procs[pid]))
  {
    var p := s.procs[pid];
    if p.Attesting? || p.Refused? || p.Claiming? || p.Storing? || p.Judging? {
      AttestKeeps(c, s, pid, p);
    } else if p.Polling? || p.PollGot? || p.PollWriting? {
      PollKeeps(c, s, pid, p);
    } else if p.Beating? || p.BeatFound? || p.BeatEnding? || p.BeatExtending? {
      BeatKeeps(c, s, pid, p);
    } else if !p.Done? {
      LookKeeps(c, s, pid, p);
    }
  }

  lemma WorldKeeps(c: Crypto, s: State, a: Action)
    requires Inv(c, s) && Enabled(c, s, a) && !a.Run? && !a.Spawn? && !a.Crash?
    ensures Follows(c, s, Apply(c, s, a))
  {
    if a.Create? {
      CreateKeeps(c, s, a);
    } else if a.Sweep? {
      SweepKeeps(c, s, a);
    } else if a.Tick? {
      TickKeeps(c, s, a);
    } else {
      SwitchKeeps(c, s, a);
    }
  }

  lemma NextKeeps(c: Crypto, s: State, a: Action)
    requires Inv(c, s)
    ensures Follows(c, s, Next(c, s, a))
  {
    if Enabled(c, s, a) {
      match a {
        case Spawn(pid, request) => SpawnKeeps(c, s, pid, request);
        case Crash(pid) => CrashKeeps(c, s, pid);
        case Run(pid) => RunKeeps(c, s, pid);
        case _ => WorldKeeps(c, s, a);
      }
    }
  }

  lemma GrowsTransitive(s: State, t: State, u: State)
    requires Grows(s, t) && Grows(t, u)
    ensures Grows(s, u)
  {
  }

  /** Every run keeps the invariant, and only adds evidence. */
  lemma {:induction false} AfterKeeps(c: Crypto, s: State, run: seq<Action>)
    requires Inv(c, s)
    ensures Follows(c, s, After(c, s, run))
  {
    if run != [] {
      var t := After(c, s, run[..|run| - 1]);
      AfterKeeps(c, s, run[..|run| - 1]);
      NextKeeps(c, t, run[|run| - 1]);
      GrowsTransitive(s, t, After(c, s, run));
    }
  }

  lemma ReachableInv(c: Crypto, s: State)
    requires Reachable(c, s)
    ensures Inv(c, s)
  {
    var s0, run :| Init(s0) && After(c, s0, run) == s;
    AfterKeeps(c, s0, run);
  }
}
