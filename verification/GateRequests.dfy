/** The gate's requests from arrival to answer, with any steps of others between their
    statements: what each is answered, and what it leaves in the tables. */
module GateRequests {
  import opened Common
  import opened Sessions
  import opened Gate
  import opened GateInvariant
  import opened GateAdmission
  import opened GateSafety
  import opened GateLiveness
  import Policy
  import Remediation

  // --- One statement after a wait -------------------------------------------------------

  lemma Resumes(c: Crypto, s: State, wait: seq<Action>, pid: Pid)
    requires pid in s.procs && Leaves(wait, pid)
    ensures var t := After(c, s, wait);
      pid in t.procs && t.procs[pid] == s.procs[pid] && Next(c, t, Run(pid)) == Advance(t, pid, s.procs[pid])
  {
    AfterLeaves(c, s, wait, pid);
  }

  lemma {:induction false} RowsStay(c: Crypto, s: State, run: seq<Action>, sid: Sid)
    requires sid in s.rows
    ensures sid in After(c, s, run).rows
  {
    if run != [] {
      RowsStay(c, s, run[..|run| - 1], sid);
      NextClaims(c, After(c, s, run[..|run| - 1]), run[|run| - 1], sid);
    }
  }

  /** A finished request stays finished, with the answer it gave. */
  lemma DoneStays(c: Crypto, s: State, wait: seq<Action>, pid: Pid, answer: Answer)
    requires pid in s.procs && s.procs[pid] == Done(answer) && Leaves(wait, pid)
    ensures var t := Next(c, After(c, s, wait), Run(pid)); pid in t.procs && t.procs[pid] == Done(answer)
  {
    Resumes(c, s, wait, pid);
  }

  // --- Heartbeats -----------------------------------------------------------------------

  /** The last step of a heartbeat that ends its session. */
  predicate Ends(s: State, t: State, pid: Pid, sid: Sid, reason: Reason)
    requires sid in s.rows
  {
    var row := s.rows[sid];
    t == s.(
      rows := s.rows[sid :=
        if row.state == Terminated then row
        else row.(state := Terminated, terminatedAt := Some(s.now), terminationReason := Some(reason))],
      procs := s.procs[pid := Done(Terminate(sid, reason))])
  }

  /** The last step of an acknowledged heartbeat. */
  predicate Extends(s: State, t: State, pid: Pid, sid: Sid)
    requires sid in s.rows
  {
    t == s.(rows := s.rows[sid := s.rows[sid].(lastHeartbeat := Some(s.now))],
            procs := s.procs[pid := Done(Acknowledged(sid))])
  }

  /** The snapshot received last is of another build. */
  predicate Swapped(s: State, sid: Sid, build: string) {
    sid in s.snaps && |s.snaps[sid]| > 0 && s.snaps[sid][|s.snaps[sid]| - 1].buildHash != build
  }

  /** The session is found, or the answer is that it is not. */
  lemma BeatFinds(c: Crypto, s: State, pid: Pid, sid: Sid, build: string, closing: bool, gamePresent: bool)
    requires pid in s.procs && s.procs[pid] == Beating(sid, build, closing, gamePresent)
    ensures Next(c, s, Run(pid)) == s.(procs := s.procs[pid :=
      if sid in s.rows then BeatFound(sid, build, closing, gamePresent) else Done(NotFound)])
  {
  }

  /** The pinned build is read, and decides first; then the companion's own word. */
  lemma BeatReads(c: Crypto, s: State, pid: Pid, sid: Sid, build: string, closing: bool, gamePresent: bool)
    requires pid in s.procs && s.procs[pid] == BeatFound(sid, build, closing, gamePresent)
    ensures Next(c, s, Run(pid)) == s.(procs := s.procs[pid :=
      if Swapped(s, sid, build) then BeatEnding(sid, Policy.CompanionOutdated)
      else if closing then BeatEnding(sid, Policy.HeartbeatLost)
      else if gamePresent then BeatExtending(sid)
      else BeatEnding(sid, Policy.GameProcessMissing)])
  {
  }

  lemma BeatEnds(c: Crypto, s: State, pid: Pid, sid: Sid, reason: Reason)
    requires pid in s.procs && s.procs[pid] == BeatEnding(sid, reason) && sid in s.rows
    ensures Ends(s, Next(c, s, Run(pid)), pid, sid, reason)
  {
  }

  lemma BeatExtends(c: Crypto, s: State, pid: Pid, sid: Sid)
    requires pid in s.procs && s.procs[pid] == BeatExtending(sid) && sid in s.rows
    ensures var t := Next(c, s, Run(pid));
      if s.rows[sid].state == Active then Extends(s, t, pid, sid)
      else t == s.(procs := s.procs[pid := Done(Terminate(sid, Policy.HeartbeatLost))])
  {
    assert s.rows[sid := s.rows[sid]] == s.rows;
  }

  /** The moments a heartbeat request works at: `found` when it looks up its session, `read` when
      it reads the snapshots, `last` when it writes, `end` after that. */
  ghost predicate BeatRun(c: Crypto, s: State, pid: Pid, request: Request,
                          waits: (seq<Action>, seq<Action>, seq<Action>),
                          found: State, read: State, last: State, end: State)
  {
    && pid !in s.procs && Leaves(waits.0, pid) && Leaves(waits.1, pid) && Leaves(waits.2, pid)
    && found == After(c, Next(c, s, Spawn(pid, request)), waits.0)
    && read == After(c, Next(c, found, Run(pid)), waits.1)
    && last == After(c, Next(c, read, Run(pid)), waits.2)
    && end == Next(c, last, Run(pid))
  }

  lemma BeatStarts(c: Crypto, s: State, pid: Pid, sid: Sid, build: string, closing: bool, gamePresent: bool,
                   wait: seq<Action>)
    requires pid !in s.procs && Leaves(wait, pid)
    ensures var t := After(c, Next(c, s, Spawn(pid, HeartbeatRequest(sid, build, closing, gamePresent))), wait);
      pid in t.procs && t.procs[pid] == Beating(sid, build, closing, gamePresent)
  {
    Resumes(c, Next(c, s, Spawn(pid, HeartbeatRequest(sid, build, closing, gamePresent))), wait, pid);
  }

  /** A heartbeat in full. An unknown session is refused. A build other than the stored snapshot's
      ends the session first, then a closing companion, then a missing game, each with its own
      reason; otherwise an active session is kept alive and any other answered to be lost. */
  lemma HeartbeatAnswered(c: Crypto, s: State, pid: Pid, sid: Sid, build: string, closing: bool, gamePresent: bool,
                          waits: (seq<Action>, seq<Action>, seq<Action>),
                          found: State, read: State, last: State, end: State)
    requires BeatRun(c, s, pid, HeartbeatRequest(sid, build, closing, gamePresent), waits, found, read, last, end)
    ensures sid !in found.rows ==>
      && Next(c, found, Run(pid)) == found.(procs := found.procs[pid := Done(NotFound)])
      && pid in end.procs && end.procs[pid] == Done(NotFound)
    ensures sid in found.rows ==> sid in last.rows
    ensures sid in found.rows ==> (
      if Swapped(read, sid, build) then Ends(last, end, pid, sid, Policy.CompanionOutdated)
      else if closing then Ends(last, end, pid, sid, Policy.HeartbeatLost)
      else if !gamePresent then Ends(last, end, pid, sid, Policy.GameProcessMissing)
      else if last.rows[sid].state == Active then Extends(last, end, pid, sid)
      else end == last.(procs := last.procs[pid := Done(Terminate(sid, Policy.HeartbeatLost))]))
  {
    BeatStarts(c, s, pid, sid, build, closing, gamePresent, waits.0);
    BeatFinds(c, found, pid, sid, build, closing, gamePresent);
    var afterFound := Next(c, found, Run(pid));
    Resumes(c, afterFound, waits.1, pid);
    if sid in found.rows {
      BeatReads(c, read, pid, sid, build, closing, gamePresent);
      RowsStay(c, afterFound, waits.1, sid);
      var afterRead := Next(c, read, Run(pid));
      Resumes(c, afterRead, waits.2, pid);
      RowsStay(c, afterRead, waits.2, sid);
      if last.procs[pid].BeatEnding? {
        BeatEnds(c, last, pid, sid, last.procs[pid].reason);
      } else {
        BeatExtends(c, last, pid, sid);
      }
    } else {
      DoneStays(c, afterFound, waits.1, pid, NotFound);
      DoneStays(c, Next(c, read, Run(pid)), waits.2, pid, NotFound);
    }
  }

  /** A heartbeat is acknowledged if and only if its session is found, active when it writes, the
      companion is not closing, the game is there, and no snapshot of another build was stored
      when it read. */
  lemma AcknowledgedExactly(c: Crypto, s: State, pid: Pid, sid: Sid, build: string, closing: bool, gamePresent: bool,
                            waits: (seq<Action>, seq<Action>, seq<Action>),
                            found: State, read: State, last: State, end: State)
    requires BeatRun(c, s, pid, HeartbeatRequest(sid, build, closing, gamePresent), waits, found, read, last, end)
    requires Reachable(c, s)
    ensures pid in end.procs && end.procs[pid].Done?
    ensures end.procs[pid] == Done(Acknowledged(sid)) <==>
      && sid in found.rows && sid in last.rows && last.rows[sid].state == Active
      && !closing && gamePresent
      && (sid in read.snaps ==> forall snapshot | snapshot in read.snaps[sid] :: snapshot.buildHash == build)
  {
    HeartbeatAnswered(c, s, pid, sid, build, closing, gamePresent, waits, found, read, last, end);
    var spawned := Next(c, s, Spawn(pid, HeartbeatRequest(sid, build, closing, gamePresent)));
    ReachableStep(c, s, Spawn(pid, HeartbeatRequest(sid, build, closing, gamePresent)));
    ReachableAfter(c, spawned, waits.0);
    ReachableStep(c, found, Run(pid));
    ReachableAfter(c, Next(c, found, Run(pid)), waits.1);
    ReachableInv(c, read);
    SwappedExactly(c, read, sid, build);
  }

  lemma SwappedExactly(c: Crypto, s: State, sid: Sid, build: string)
    requires Inv(c, s)
    ensures Swapped(s, sid, build) <==>
      sid in s.snaps && exists snapshot | snapshot in s.snaps[sid] :: snapshot.buildHash != build
  {
    if sid in s.snaps { assert |s.snaps[sid]| == 1; }
  }

  lemma ReachableStep(c: Crypto, s: State, a: Action)
    requires Reachable(c, s)
    ensures Reachable(c, Next(c, s, a))
  {
    ReachableAfter(c, s, [a]);
    assert [a][..0] == [];
    assert After(c, s, [a]) == Next(c, s, a);
  }

  // --- Attestations ---------------------------------------------------------------------

  /** The one live session of this digest. */
  predicate LiveSession(s: State, sid: Sid, nonceHash: string) {
    && sid in s.rows && s.rows[sid].nonceHash == nonceHash
    && s.rows[sid].consumedAt == None && s.now < s.rows[sid].expiresAt
  }

  /** The first statement of an attestation: the one live session of the digest is claimed, or
      nothing is. */
  lemma AttestClaims(c: Crypto, s: State, pid: Pid, nonceHash: string, snapshot: Policy.Snapshot, ip: string)
    requires HashesUnique(s.rows) && pid in s.procs && s.procs[pid] == Attesting(nonceHash, snapshot, ip)
    ensures forall sid | LiveSession(s, sid, nonceHash) ::
      var row := s.rows[sid].(consumedAt := Some(s.now), attestationIp := Some(ip), sealed := None, state := Attested);
      Next(c, s, Run(pid)) == s.(rows := s.rows[sid := row], procs := s.procs[pid := Claiming(sid, row, snapshot, ip)])
    ensures (forall sid :: !LiveSession(s, sid, nonceHash)) ==>
      Next(c, s, Run(pid)) == s.(procs := s.procs[pid := Refused(nonceHash)])
  {
    var claimed := Claimable(s.rows, nonceHash, s.now);
    forall sid: Sid | LiveSession(s, sid, nonceHash) ensures claimed == Some(sid) {
      assert Holder(s.rows, nonceHash) == Some(sid);
    }
    if claimed.Some? { assert LiveSession(s, claimed.value, nonceHash); }
  }

  /** The statement after a failed claim only tells the three cases apart. */
  lemma AttestRefuses(c: Crypto, s: State, pid: Pid, nonceHash: string)
    requires HashesUnique(s.rows) && pid in s.procs && s.procs[pid] == Refused(nonceHash)
    ensures (forall sid | sid in s.rows :: s.rows[sid].nonceHash != nonceHash) ==>
      Next(c, s, Run(pid)) == s.(procs := s.procs[pid := Done(UnknownNonce)])
    ensures forall sid | sid in s.rows && s.rows[sid].nonceHash == nonceHash ::
      Next(c, s, Run(pid)) == s.(procs := s.procs[pid :=
        Done(if s.rows[sid].consumedAt == None then ExpiredNonce else ReusedNonce)])
  {
    forall sid | sid in s.rows && s.rows[sid].nonceHash == nonceHash ensures Holder(s.rows, nonceHash) == Some(sid) {}
  }

  /** The snapshot is appended to the session's own, and nothing else changes. */
  lemma AttestStoresSnapshot(c: Crypto, s: State, pid: Pid, sid: Sid, session: Row, snapshot: Policy.Snapshot,
                             ip: string)
    requires pid in s.procs && s.procs[pid] == Claiming(sid, session, snapshot, ip)
    ensures Next(c, s, Run(pid)) == s.(
      snaps := s.snaps[sid := (if sid in s.snaps then s.snaps[sid] else []) + [snapshot]],
      procs := s.procs[pid := Storing(sid, session, snapshot, ip)])
  {
  }

  /** The build list is read now. */
  lemma AttestReadsList(c: Crypto, s: State, pid: Pid, sid: Sid, session: Row, snapshot: Policy.Snapshot, ip: string)
    requires pid in s.procs && s.procs[pid] == Storing(sid, session, snapshot, ip)
    ensures Next(c, s, Run(pid)) == s.(procs := s.procs[pid :=
      Judging(sid, session, snapshot, ip, snapshot.buildHash in s.builds)])
  {
  }

  /** A verdict written over the row of a session: `active` and heard from now if it allows,
      `terminated` if not, whatever the state was. */
  predicate Decides(s: State, t: State, pid: Pid, sid: Sid, v: Verdict, answer: Answer)
    requires sid in s.rows
  {
    var row := s.rows[sid];
    t == s.(
      rows := s.rows[sid := row.(
        verdict := Some(v), evaluatedAt := Some(s.now),
        state := if v.decision == Policy.Allow then Active else Terminated,
        lastHeartbeat := if v.decision == Policy.Allow then Some(s.now) else row.lastHeartbeat)],
      procs := s.procs[pid := Done(answer)])
  }

  lemma AttestDecides(c: Crypto, s: State, pid: Pid, sid: Sid, session: Row, snapshot: Policy.Snapshot, ip: string,
                      accepted: bool)
    requires pid in s.procs && s.procs[pid] == Judging(sid, session, snapshot, ip, accepted)
    requires sid in s.rows && s.rows[sid].tenant == session.tenant
    ensures var v := Remediation.PolicyVerdict(Policy.Input(session.tier, snapshot, session.gameIp, ip, accepted));
      Decides(s, Next(c, s, Run(pid)), pid, sid, v, Accepted(sid, v))
  {
  }

  /** The moments an attestation works at: the claim, the snapshot, the build list, the verdict. */
  ghost predicate AttestRun(c: Crypto, s: State, pid: Pid, request: Request, waits: seq<seq<Action>>,
                            claim: State, store: State, list: State, last: State, end: State)
  {
    && pid !in s.procs && |waits| == 4 && (forall i | 0 <= i < 4 :: Leaves(waits[i], pid))
    && claim == After(c, Next(c, s, Spawn(pid, request)), waits[0])
    && store == After(c, Next(c, claim, Run(pid)), waits[1])
    && list == After(c, Next(c, store, Run(pid)), waits[2])
    && last == After(c, Next(c, list, Run(pid)), waits[3])
    && end == Next(c, last, Run(pid))
  }

  lemma AttestStarts(c: Crypto, s: State, pid: Pid, nonce: string, snapshot: Policy.Snapshot, ip: string,
                     wait: seq<Action>)
    requires pid !in s.procs && Leaves(wait, pid) && Reachable(c, s)
    ensures var t := After(c, Next(c, s, Spawn(pid, AttestRequest(nonce, snapshot, ip))), wait);
      pid in t.procs && t.procs[pid] == Attesting(c.hash(nonce), snapshot, ip) && Reachable(c, t)
  {
    var spawned := Next(c, s, Spawn(pid, AttestRequest(nonce, snapshot, ip)));
    ReachableStep(c, s, Spawn(pid, AttestRequest(nonce, snapshot, ip)));
    ReachableAfter(c, spawned, wait);
    Resumes(c, spawned, wait, pid);
  }

  /** The tenant of a session never changes. */
  lemma TenantStays(c: Crypto, s: State, run: seq<Action>, sid: Sid)
    requires Inv(c, s) && sid in s.rows
    ensures Inv(c, After(c, s, run)) && sid in After(c, s, run).rows
    ensures After(c, s, run).rows[sid].tenant == s.rows[sid].tenant
  {
    AfterKeeps(c, s, run);
    assert RowGrows(s.rows[sid], After(c, s, run).rows[sid]);
  }

  /** An attestation in full, for a live session: it is claimed for the caller's address, the
      snapshot is stored, the list is read, and the verdict is the policy's on exactly those. */
  lemma AttestationAnswered(c: Crypto, s: State, pid: Pid, nonce: string, snapshot: Policy.Snapshot, ip: string,
                            waits: seq<seq<Action>>, claim: State, store: State, list: State, last: State, end: State,
                            sid: Sid)
    requires AttestRun(c, s, pid, AttestRequest(nonce, snapshot, ip), waits, claim, store, list, last, end)
    requires Reachable(c, s) && LiveSession(claim, sid, c.hash(nonce))
    ensures var row := claim.rows[sid].(
        consumedAt := Some(claim.now), attestationIp := Some(ip), sealed := None, state := Attested);
      Next(c, claim, Run(pid))
        == claim.(rows := claim.rows[sid := row], procs := claim.procs[pid := Claiming(sid, row, snapshot, ip)])
    ensures Next(c, store, Run(pid)).snaps
         == store.snaps[sid := (if sid in store.snaps then store.snaps[sid] else []) + [snapshot]]
    ensures var v := Remediation.PolicyVerdict(Policy.Input(
        claim.rows[sid].tier, snapshot, claim.rows[sid].gameIp, ip, snapshot.buildHash in list.builds));
      sid in last.rows && Decides(last, end, pid, sid, v, Accepted(sid, v))
  {
    AttestStarts(c, s, pid, nonce, snapshot, ip, waits[0]);
    ReachableInv(c, claim);
    AttestClaims(c, claim, pid, c.hash(nonce), snapshot, ip);
    var claimed := Next(c, claim, Run(pid));
    var row := claimed.rows[sid];
    NextKeeps(c, claim, Run(pid));
    Resumes(c, claimed, waits[1], pid);
    TenantStays(c, claimed, waits[1], sid);
    AttestStoresSnapshot(c, store, pid, sid, row, snapshot, ip);
    var stored := Next(c, store, Run(pid));
    NextKeeps(c, store, Run(pid));
    Resumes(c, stored, waits[2], pid);
    TenantStays(c, stored, waits[2], sid);
    AttestReadsList(c, list, pid, sid, row, snapshot, ip);
    var listed := Next(c, list, Run(pid));
    NextKeeps(c, list, Run(pid));
    Resumes(c, listed, waits[3], pid);
    TenantStays(c, listed, waits[3], sid);
    AttestDecides(c, last, pid, sid, row, snapshot, ip, snapshot.buildHash in list.builds);
  }

  /** An attestation in full, with no live session for its nonce: it changes nothing, and is told
      why from the row as it is at its second statement. */
  lemma AttestationRefused(c: Crypto, s: State, pid: Pid, nonce: string, snapshot: Policy.Snapshot, ip: string,
                           first: seq<Action>, second: seq<Action>, claim: State, ask: State, end: State)
    requires Reachable(c, s) && pid !in s.procs && Leaves(first, pid) && Leaves(second, pid)
    requires claim == After(c, Next(c, s, Spawn(pid, AttestRequest(nonce, snapshot, ip))), first)
    requires forall sid :: !LiveSession(claim, sid, c.hash(nonce))
    requires ask == After(c, Next(c, claim, Run(pid)), second) && end == Next(c, ask, Run(pid))
    ensures Next(c, claim, Run(pid)) == claim.(procs := claim.procs[pid := Refused(c.hash(nonce))])
    ensures pid in end.procs && end == ask.(procs := ask.procs[pid := end.procs[pid]])
    ensures (forall sid | sid in ask.rows :: ask.rows[sid].nonceHash != c.hash(nonce)) ==>
      end.procs[pid] == Done(UnknownNonce)
    ensures forall sid | sid in ask.rows && ask.rows[sid].nonceHash == c.hash(nonce) ::
      end.procs[pid] == Done(if ask.rows[sid].consumedAt == None then ExpiredNonce else ReusedNonce)
  {
    AttestStarts(c, s, pid, nonce, snapshot, ip, first);
    ReachableInv(c, claim);
    AttestClaims(c, claim, pid, c.hash(nonce), snapshot, ip);
    var refused := Next(c, claim, Run(pid));
    NextKeeps(c, claim, Run(pid));
    AfterKeeps(c, refused, second);
    Resumes(c, refused, second, pid);
    AttestRefuses(c, ask, pid, c.hash(nonce));
  }

  // --- Verdict polls --------------------------------------------------------------------

  /** A poll starts with 20 seconds and the tenant's fail mode of that moment. */
  lemma PollStarts(c: Crypto, s: State, pid: Pid, tenant: Tenant, nonce: string)
    requires pid !in s.procs
    ensures Next(c, s, Spawn(pid, VerdictRequest(tenant, nonce))) == s.(procs := s.procs[pid :=
      Polling(tenant, c.hash(nonce), s.now + 20_000,
              if tenant in s.open then Remediation.FailOpen else Remediation.FailClosed)])
  {
  }

  /** The read of one round: the session of this digest and tenant, as it is now. */
  lemma PollReadsRow(c: Crypto, s: State, pid: Pid, tenant: Tenant, nonceHash: string, deadline: nat,
                     mode: Remediation.FailMode)
    requires HashesUnique(s.rows) && pid in s.procs && s.procs[pid] == Polling(tenant, nonceHash, deadline, mode)
    ensures forall sid | sid in s.rows && s.rows[sid].nonceHash == nonceHash && s.rows[sid].tenant == tenant ::
      Next(c, s, Run(pid))
        == s.(procs := s.procs[pid := PollGot(tenant, nonceHash, deadline, mode, sid, s.rows[sid])])
    ensures (forall sid | sid in s.rows && s.rows[sid].tenant == tenant :: s.rows[sid].nonceHash != nonceHash) ==>
      Next(c, s, Run(pid)) == s.(procs := s.procs[pid := Done(NotFound)])
  {
    forall sid | sid in s.rows && s.rows[sid].nonceHash == nonceHash ensures Holder(s.rows, nonceHash) == Some(sid) {}
  }

  /** Then a decided session answers its verdict, an undecided one is polled again until the
      deadline, and a timeout verdict is written after it. */
  lemma PollDecides(c: Crypto, s: State, pid: Pid, tenant: Tenant, nonceHash: string, deadline: nat,
                    mode: Remediation.FailMode, sid: Sid, row: Row)
    requires pid in s.procs && s.procs[pid] == PollGot(tenant, nonceHash, deadline, mode, sid, row)
    ensures Next(c, s, Run(pid)) == s.(procs := s.procs[pid :=
      match row.verdict
      case Some(v) => Done(VerdictAnswer(sid, v))
      case None =>
        if s.now < deadline then Polling(tenant, nonceHash, deadline, mode)
        else PollWriting(tenant, sid, Remediation.TimeoutVerdict(mode))])
  {
  }

  lemma PollWrites(c: Crypto, s: State, pid: Pid, tenant: Tenant, sid: Sid, v: Verdict)
    requires pid in s.procs && s.procs[pid] == PollWriting(tenant, sid, v)
    requires sid in s.rows && s.rows[sid].tenant == tenant
    ensures Decides(s, Next(c, s, Run(pid)), pid, sid, v, VerdictAnswer(sid, v))
  {
  }

  /** The session carried this verdict at some moment of the run. */
  ghost predicate Carried(c: Crypto, s: State, run: seq<Action>, sid: Sid, v: Verdict) {
    exists n: nat :: n <= |run| && HasVerdict(After(c, s, run[..n]), sid, v)
  }

  predicate IsPoll(p: Proc, tenant: Tenant, nonceHash: string, deadline: nat, mode: Remediation.FailMode) {
    match p
    case Polling(t, h, d, m) => t == tenant && h == nonceHash && d == deadline && m == mode
    case PollGot(t, h, d, m, _, _) => t == tenant && h == nonceHash && d == deadline && m == mode
    case _ => false
  }

  /** Where a verdict poll of this tenant and digest can be after a run, and what it was told. */
  ghost predicate PollAt(c: Crypto, s: State, run: seq<Action>, p: Proc, tenant: Tenant, nonceHash: string,
                         deadline: nat, mode: Remediation.FailMode)
  {
    var t := After(c, s, run);
    match p
    case Polling(_, _, _, _) => IsPoll(p, tenant, nonceHash, deadline, mode)
    case PollGot(_, _, _, _, sid, row) =>
      && IsPoll(p, tenant, nonceHash, deadline, mode) && IsSession(t, sid, tenant, nonceHash)
      && (row.verdict.Some? ==> Carried(c, s, run, sid, row.verdict.value))
    case PollWriting(owner, sid, v) =>
      && owner == tenant && IsSession(t, sid, tenant, nonceHash)
      && t.now >= deadline && v == Remediation.TimeoutVerdict(mode)
    case Done(VerdictAnswer(sid, v)) => IsSession(t, sid, tenant, nonceHash) && Carried(c, s, run, sid, v)
    case Done(NotFound) => true
    case _ => false
  }

  predicate IsSession(s: State, sid: Sid, tenant: Tenant, nonceHash: string) {
    sid in s.rows && s.rows[sid].tenant == tenant && s.rows[sid].nonceHash == nonceHash
  }

  ghost predicate PollOk(c: Crypto, s: State, run: seq<Action>, pid: Pid, tenant: Tenant, nonceHash: string,
                         deadline: nat, mode: Remediation.FailMode)
  {
    var t := After(c, s, run);
    pid in t.procs && PollAt(c, s, run, t.procs[pid], tenant, nonceHash, deadline, mode)
  }

  lemma CarriedNow(c: Crypto, s: State, run: seq<Action>, sid: Sid, v: Verdict)
    requires HasVerdict(After(c, s, run), sid, v)
    ensures Carried(c, s, run, sid, v)
  {
    assert run[..|run|] == run;
  }

  lemma CarriedLater(c: Crypto, s: State, run: seq<Action>, a: Action, sid: Sid, v: Verdict)
    requires Carried(c, s, run, sid, v)
    ensures Carried(c, s, run + [a], sid, v)
  {
    var n: nat :| n <= |run| && HasVerdict(After(c, s, run[..n]), sid, v);
    assert (run + [a])[..n] == run[..n];
  }

  lemma SessionStays(c: Crypto, s: State, a: Action, sid: Sid, tenant: Tenant, nonceHash: string)
    requires Inv(c, s) && IsSession(s, sid, tenant, nonceHash)
    ensures IsSession(Next(c, s, a), sid, tenant, nonceHash)
  {
    NextKeeps(c, s, a);
    assert RowGrows(s.rows[sid], Next(c, s, a).rows[sid]);
  }

  lemma NowGrows(c: Crypto, s: State, a: Action)
    ensures Next(c, s, a).now >= s.now
  {
  }

  lemma AfterNext(c: Crypto, s: State, run: seq<Action>, a: Action)
    ensures After(c, s, run + [a]) == Next(c, After(c, s, run), a)
  {
    assert (run + [a])[..|run|] == run;
  }

  /** Any step leaves a place a poll can be at one. */
  lemma PollAtLater(c: Crypto, s: State, run: seq<Action>, a: Action, p: Proc, tenant: Tenant, nonceHash: string,
                    deadline: nat, mode: Remediation.FailMode)
    requires Inv(c, After(c, s, run))
    requires PollAt(c, s, run, p, tenant, nonceHash, deadline, mode)
    ensures PollAt(c, s, run + [a], p, tenant, nonceHash, deadline, mode)
  {
    var t := After(c, s, run);
    AfterNext(c, s, run, a);
    match p {
      case PollGot(_, _, _, _, sid, row) =>
        SessionStays(c, t, a, sid, tenant, nonceHash);
        if row.verdict.Some? { CarriedLater(c, s, run, a, sid, row.verdict.value); }
      case PollWriting(_, sid, _) =>
        SessionStays(c, t, a, sid, tenant, nonceHash);
        NowGrows(c, t, a);
      case Done(VerdictAnswer(sid, v)) =>
        SessionStays(c, t, a, sid, tenant, nonceHash);
        CarriedLater(c, s, run, a, sid, v);
      case _ =>
    }
  }

  /** Steps of others leave the poll where it is. */
  lemma PollUndisturbed(c: Crypto, s: State, run: seq<Action>, a: Action, pid: Pid, tenant: Tenant, nonceHash: string,
                        deadline: nat, mode: Remediation.FailMode)
    requires Inv(c, After(c, s, run)) && a != Run(pid) && a != Crash(pid)
    requires PollOk(c, s, run, pid, tenant, nonceHash, deadline, mode)
    ensures PollOk(c, s, run + [a], pid, tenant, nonceHash, deadline, mode)
  {
    var t := After(c, s, run);
    AfterNext(c, s, run, a);
    Stays(c, t, a, pid);
    PollAtLater(c, s, run, a, t.procs[pid], tenant, nonceHash, deadline, mode);
  }

  lemma Stays(c: Crypto, s: State, a: Action, pid: Pid)
    requires pid in s.procs && a != Run(pid) && a != Crash(pid)
    ensures pid in Next(c, s, a).procs && Next(c, s, a).procs[pid] == s.procs[pid]
  {
    AfterLeaves(c, s, [a], pid);
    assert [a][..0] == [];
  }

  /** The read of a round gives a row of this tenant and digest as it is, or there is none. */
  lemma ReadGets(s: State, pid: Pid, p: Proc)
    requires p.Polling? && pid in s.procs && s.procs[pid] == p
    ensures var t := Poll(s, pid, p); var q := t.procs[pid];
      && t.rows == s.rows
      && (q == Done(NotFound)
          || (q.PollGot? && IsPoll(q, p.tenant, p.nonceHash, p.deadline, p.mode)
              && IsSession(s, q.sid, p.tenant, p.nonceHash) && q.row == s.rows[q.sid]))
  {
  }

  lemma ReadMoves(c: Crypto, s: State, run: seq<Action>, pid: Pid, p: Proc)
    requires p.Polling? && pid in After(c, s, run).procs && After(c, s, run).procs[pid] == p
    ensures PollOk(c, s, run + [Run(pid)], pid, p.tenant, p.nonceHash, p.deadline, p.mode)
  {
    var t, a := After(c, s, run), Run(pid);
    AfterNext(c, s, run, a);
    ReadGets(t, pid, p);
    var q := Next(c, t, a).procs[pid];
    if q.PollGot? && q.row.verdict.Some? {
      CarriedNow(c, s, run, q.sid, q.row.verdict.value);
      CarriedLater(c, s, run, a, q.sid, q.row.verdict.value);
    }
  }

  lemma DecisionMoves(c: Crypto, s: State, run: seq<Action>, pid: Pid, p: Proc, tenant: Tenant, nonceHash: string,
                      deadline: nat, mode: Remediation.FailMode)
    requires p.PollGot? && pid in After(c, s, run).procs && After(c, s, run).procs[pid] == p
    requires PollAt(c, s, run, p, tenant, nonceHash, deadline, mode)
    ensures PollOk(c, s, run + [Run(pid)], pid, tenant, nonceHash, deadline, mode)
  {
    var t, a := After(c, s, run), Run(pid);
    AfterNext(c, s, run, a);
    PollDecides(c, t, pid, tenant, nonceHash, deadline, mode, p.sid, p.row);
    if p.row.verdict.Some? { CarriedLater(c, s, run, a, p.sid, p.row.verdict.value); }
  }

  lemma WriteMoves(c: Crypto, s: State, run: seq<Action>, pid: Pid, p: Proc, tenant: Tenant, nonceHash: string,
                   deadline: nat, mode: Remediation.FailMode)
    requires p.PollWriting? && pid in After(c, s, run).procs && After(c, s, run).procs[pid] == p
    requires PollAt(c, s, run, p, tenant, nonceHash, deadline, mode)
    ensures PollOk(c, s, run + [Run(pid)], pid, tenant, nonceHash, deadline, mode)
  {
    var t, a := After(c, s, run), Run(pid);
    AfterNext(c, s, run, a);
    PollWrites(c, t, pid, tenant, p.sid, p.verdict);
    CarriedNow(c, s, run + [a], p.sid, p.verdict);
  }

  /** Each statement of its own takes the poll to such a place. */
  lemma PollMoves(c: Crypto, s: State, run: seq<Action>, pid: Pid, tenant: Tenant, nonceHash: string, deadline: nat,
                  mode: Remediation.FailMode)
    requires Inv(c, After(c, s, run))
    requires PollOk(c, s, run, pid, tenant, nonceHash, deadline, mode)
    ensures PollOk(c, s, run + [Run(pid)], pid, tenant, nonceHash, deadline, mode)
  {
    var t := After(c, s, run);
    var p := t.procs[pid];
    if p.Polling? {
      ReadMoves(c, s, run, pid, p);
    } else if p.PollGot? {
      DecisionMoves(c, s, run, pid, p, tenant, nonceHash, deadline, mode);
    } else if p.PollWriting? {
      WriteMoves(c, s, run, pid, p, tenant, nonceHash, deadline, mode);
    } else {
      AfterNext(c, s, run, Run(pid));
      assert Next(c, t, Run(pid)) == t;
      PollAtLater(c, s, run, Run(pid), p, tenant, nonceHash, deadline, mode);
    }
  }

  /** A verdict poll in full. It works with the deadline of 20 seconds after its arrival and the
      fail mode of its arrival, whatever happens to either; it never writes earlier; it writes
      the timeout verdict of that mode to the session of its nonce and tenant; and what it
      answers is a verdict that session carried at some moment of the request. */
  lemma {:induction false} VerdictAnswered(c: Crypto, s: State, run: seq<Action>, pid: Pid, tenant: Tenant,
                                           nonce: string)
    requires Inv(c, s) && pid !in s.procs && Crash(pid) !in run
    ensures PollOk(c, Next(c, s, Spawn(pid, VerdictRequest(tenant, nonce))), run, pid, tenant, c.hash(nonce),
                   s.now + 20_000, if tenant in s.open then Remediation.FailOpen else Remediation.FailClosed)
  {
    var spawned := Next(c, s, Spawn(pid, VerdictRequest(tenant, nonce)));
    PollStarts(c, s, pid, tenant, nonce);
    if run != [] {
      var front, a := run[..|run| - 1], run[|run| - 1];
      assert a in run;
      VerdictAnswered(c, s, front, pid, tenant, nonce);
      NextKeeps(c, s, Spawn(pid, VerdictRequest(tenant, nonce)));
      AfterKeeps(c, spawned, front);
      var mode := if tenant in s.open then Remediation.FailOpen else Remediation.FailClosed;
      assert front + [a] == run;
      if a == Run(pid) {
        PollMoves(c, spawned, front, pid, tenant, c.hash(nonce), s.now + 20_000, mode);
      } else {
        PollUndisturbed(c, spawned, front, a, pid, tenant, c.hash(nonce), s.now + 20_000, mode);
      }
    }
  }

  // --- Liveness requests ----------------------------------------------------------------

  lemma LookFinds(c: Crypto, s: State, pid: Pid, tenant: Tenant, sid: Sid)
    requires pid in s.procs && s.procs[pid] == Looking(tenant, sid)
    ensures Next(c, s, Run(pid)) == s.(procs := s.procs[pid :=
      if sid in s.rows && s.rows[sid].tenant == tenant then LookGot(sid, s.rows[sid], s.now) else Done(NotFound)])
  {
  }

  /** What the row that was read means now: terminated sessions are kicked with their own reason,
      active ones once 210 seconds have passed since they were heard from, no others. */
  lemma LookDecides(c: Crypto, s: State, pid: Pid, sid: Sid, row: Row, readAt: nat)
    requires pid in s.procs && s.procs[pid] == LookGot(sid, row, readAt)
    ensures Next(c, s, Run(pid)) == s.(procs := s.procs[pid :=
      if row.state == Terminated then
        Done(LivenessAnswer(sid, Liveness(true,
          if row.terminationReason.Some? then row.terminationReason else Some(Policy.HeartbeatLost))))
      else if row.state == Active && row.lastHeartbeat.Some? && s.now >= row.lastHeartbeat.value + 210_000 then
        LookEnding(sid, Liveness(true, Some(Policy.HeartbeatLost)))
      else Done(LivenessAnswer(sid, Liveness(false, None)))])
  {
  }

  lemma LookEnds(c: Crypto, s: State, pid: Pid, sid: Sid)
    requires pid in s.procs && sid in s.rows
    requires s.procs[pid] == LookEnding(sid, Liveness(true, Some(Policy.HeartbeatLost)))
    ensures var row := s.rows[sid];
      Next(c, s, Run(pid)) == s.(
        rows := s.rows[sid :=
          if row.state == Terminated then row
          else row.(state := Terminated, terminatedAt := Some(s.now),
                    terminationReason := Some(Policy.HeartbeatLost))],
        procs := s.procs[pid := Done(LivenessAnswer(sid, Liveness(true, Some(Policy.HeartbeatLost))))])
  {
  }

  /** The moments a liveness request works at. */
  ghost predicate LookRun(c: Crypto, s: State, pid: Pid, request: Request,
                          waits: (seq<Action>, seq<Action>, seq<Action>),
                          read: State, decide: State, last: State, end: State)
  {
    && pid !in s.procs && Leaves(waits.0, pid) && Leaves(waits.1, pid) && Leaves(waits.2, pid)
    && read == After(c, Next(c, s, Spawn(pid, request)), waits.0)
    && decide == After(c, Next(c, read, Run(pid)), waits.1)
    && last == After(c, Next(c, decide, Run(pid)), waits.2)
    && end == Next(c, last, Run(pid))
  }

  /** The end of a request that read `row`, decides in `decide` and may write in `last`. */
  ghost predicate LookAnswer(row: Row, decide: State, last: State, end: State, pid: Pid, sid: Sid) {
    pid in end.procs && (
      if row.state == Terminated then
        && end.procs[pid] == Done(LivenessAnswer(sid, Liveness(true,
             if row.terminationReason.Some? then row.terminationReason else Some(Policy.HeartbeatLost))))
        && end.rows == last.rows
      else if row.state == Active && row.lastHeartbeat.Some? && decide.now >= row.lastHeartbeat.value + 210_000 then
        && end.procs[pid] == Done(LivenessAnswer(sid, Liveness(true, Some(Policy.HeartbeatLost))))
        && sid in last.rows && sid in end.rows
        && end.rows == last.rows[sid := end.rows[sid]]
        && end.rows[sid] == (
             if last.rows[sid].state == Terminated then last.rows[sid]
             else last.rows[sid].(state := Terminated, terminatedAt := Some(last.now),
                                  terminationReason := Some(Policy.HeartbeatLost)))
      else
        end.procs[pid] == Done(LivenessAnswer(sid, Liveness(false, None))) && end.rows == last.rows)
  }

  lemma LookFinishes(c: Crypto, decide: State, pid: Pid, sid: Sid, row: Row, readAt: nat, wait: seq<Action>)
    requires pid in decide.procs && decide.procs[pid] == LookGot(sid, row, readAt) && sid in decide.rows
    requires Leaves(wait, pid)
    ensures var last := After(c, Next(c, decide, Run(pid)), wait);
      LookAnswer(row, decide, last, Next(c, last, Run(pid)), pid, sid)
  {
    LookDecides(c, decide, pid, sid, row, readAt);
    var decided := Next(c, decide, Run(pid));
    var last := After(c, decided, wait);
    Resumes(c, decided, wait, pid);
    RowsStay(c, decided, wait, sid);
    if decided.procs[pid].LookEnding? {
      LookEnds(c, last, pid, sid);
      var end := Next(c, last, Run(pid));
      assert end.rows[sid] == last.rows[sid] ==> end.rows == last.rows;
    }
  }

  /** A liveness request in full: the answer is decided by the row as it was read and the time of
      the decision, and only a session silent for 210 seconds is ended, as lost. */
  lemma LivenessAnswered(c: Crypto, s: State, pid: Pid, tenant: Tenant, sid: Sid,
                         waits: (seq<Action>, seq<Action>, seq<Action>),
                         read: State, decide: State, last: State, end: State)
    requires LookRun(c, s, pid, LivenessRequest(tenant, sid), waits, read, decide, last, end)
    ensures sid in read.rows && read.rows[sid].tenant == tenant ==>
      LookAnswer(read.rows[sid], decide, last, end, pid, sid)
    ensures sid !in read.rows || read.rows[sid].tenant != tenant ==>
      pid in end.procs && end.procs[pid] == Done(NotFound) && end.rows == last.rows
  {
    var spawned := Next(c, s, Spawn(pid, LivenessRequest(tenant, sid)));
    Resumes(c, spawned, waits.0, pid);
    LookFinds(c, read, pid, tenant, sid);
    var got := Next(c, read, Run(pid));
    Resumes(c, got, waits.1, pid);
    if sid in read.rows && read.rows[sid].tenant == tenant {
      RowsStay(c, got, waits.1, sid);
      LookFinishes(c, decide, pid, sid, read.rows[sid], read.now, waits.2);
    } else {
      DoneStays(c, got, waits.1, pid, NotFound);
      Resumes(c, Next(c, decide, Run(pid)), waits.2, pid);
    }
  }

  // --- Everything else --------------------------------------------------------------------

  /** A new session is pending, undecided, unclaimed, and its nonce lives for 30 seconds. */
  lemma CreatesExactly(c: Crypto, s: State, sid: Sid, tenant: Tenant, nonce: string, sealed: string, gameIp: string,
                       tier: Policy.Tier)
    requires Enabled(c, s, Create(sid, tenant, nonce, sealed, gameIp, tier))
    ensures Next(c, s, Create(sid, tenant, nonce, sealed, gameIp, tier)) == s.(rows := s.rows[sid :=
      Row(tenant, c.hash(nonce), Some(sealed), gameIp, tier, Pending, s.now, s.now + 30_000,
          None, None, None, None, None, None, None)])
  {
  }

  /** The sweep marks exactly the pending sessions whose nonce ran out, and nothing else. */
  lemma SweepsExactly(c: Crypto, s: State)
    ensures var t := Next(c, s, Sweep);
      && t == s.(rows := t.rows) && t.rows.Keys == s.rows.Keys
      && forall sid | sid in s.rows ::
           t.rows[sid] == if s.rows[sid].state == Pending && s.rows[sid].expiresAt < s.now
                          then s.rows[sid].(state := Expired) else s.rows[sid]
  {
  }

  /** The two switches an operator has: the build list and a tenant's fail mode. */
  lemma SwitchesExactly(c: Crypto, s: State, build: string, tenant: Tenant)
    ensures Next(c, s, SetBuild(build, true))
         == s.(builds := s.builds + {build}, everAccepted := s.everAccepted + {build})
    ensures Next(c, s, SetBuild(build, false)) == s.(builds := s.builds - {build})
    ensures Next(c, s, SetFailMode(tenant, Remediation.FailOpen))
         == s.(open := s.open + {tenant}, everOpen := s.everOpen + {tenant})
    ensures Next(c, s, SetFailMode(tenant, Remediation.FailClosed)) == s.(open := s.open - {tenant})
  {
  }

  /** A build taken off the list admits nobody whose attestation reads the list before it is put
      back: the verdict is a deny for an outdated build. */
  lemma UnlistedIsOutdated(c: Crypto, s: State, build: string, wait: seq<Action>, pid: Pid, sid: Sid, session: Row,
                           snapshot: Policy.Snapshot, ip: string)
    requires snapshot.buildHash == build && SetBuild(build, true) !in wait && Leaves(wait, pid)
    requires pid in s.procs && s.procs[pid] == Storing(sid, session, snapshot, ip)
    ensures var list := After(c, Next(c, s, SetBuild(build, false)), wait);
      pid in list.procs && Next(c, list, Run(pid)).procs[pid] == Judging(sid, session, snapshot, ip, false)
    ensures Remediation.PolicyVerdict(
      Policy.Input(session.tier, snapshot, session.gameIp, ip, false)).decision == Policy.Deny
  {
    var off := Next(c, s, SetBuild(build, false));
    SwitchesExactly(c, s, build, 0);
    var list := After(c, off, wait);
    Resumes(c, off, wait, pid);
    UnlistedStays(c, off, wait, build);
    AttestReadsList(c, list, pid, sid, session, snapshot, ip);
    UnlistedIsDenied(session, snapshot, ip);
  }

  lemma {:induction false} UnlistedStays(c: Crypto, s: State, run: seq<Action>, build: string)
    requires build !in s.builds && SetBuild(build, true) !in run
    ensures build !in After(c, s, run).builds
  {
    if run != [] {
      assert run[|run| - 1] in run;
      UnlistedStays(c, s, run[..|run| - 1], build);
      NextUnlisted(c, After(c, s, run[..|run| - 1]), run[|run| - 1], build);
    }
  }
}
