/** When a verdict is final. The code records verdicts unconditionally, so a decided or even
    terminated session can still change; here is exactly when it cannot. */
module GateStability {
  import opened Common
  import opened Sessions
  import opened Gate
  import opened GateInvariant
  import opened GateSafety
  import Policy
  import Remediation

  // --- Verdict writes ----------------------------------------------------------------

  /** The step records a verdict for the session. */
  predicate Writes(s: State, a: Action, sid: Sid) {
    a.Run? && a.pid in s.procs
    && (s.procs[a.pid].Judging? || s.procs[a.pid].PollWriting?) && s.procs[a.pid].sid == sid
  }

  /** The request may yet record a verdict for the session: it holds the claim, or it read the
      session undecided, or it is about to write a timeout. */
  predicate MayWrite(p: Proc, sid: Sid) {
    Claims(p, sid) || (p.PollGot? && p.sid == sid && p.row.verdict.None?) || (p.PollWriting? && p.sid == sid)
  }

  /** Decided, with the nonce claimed or expired, and nobody holding an unwritten verdict. */
  ghost predicate Settled(s: State, sid: Sid) {
    && sid in s.rows && s.rows[sid].verdict.Some? && !Live(s.rows[sid], s.now)
    && forall pid | pid in s.procs :: !MayWrite(s.procs[pid], sid)
  }

  /** What a settled row can still do: be heard from, or end. */
  predicate Calm(a: Row, b: Row) {
    && b.verdict == a.verdict && b.evaluatedAt == a.evaluatedAt
    && b.consumedAt == a.consumedAt && b.expiresAt == a.expiresAt
    && (b.state == a.state || b.state == Terminated)
    && (a.state == Terminated ==> b == a)
  }

  /** A heartbeat acknowledged for the session. */
  predicate Acks(s: State, pid: Pid, sid: Sid) {
    pid in s.procs && s.procs[pid] == Done(Acknowledged(sid))
  }

  ghost predicate StaysSettled(s: State, t: State, sid: Sid) {
    && Settled(s, sid) && Settled(t, sid) && Calm(s.rows[sid], t.rows[sid])
    && (s.rows[sid].state == Terminated ==> forall pid | Acks(t, pid, sid) :: Acks(s, pid, sid))
  }

  // --- A settled session stays settled ---------------------------------------------------

  /** A step of one request, from what it does to the session's row and to its own place. */
  lemma MoveSettled(s: State, t: State, pid: Pid, sid: Sid)
    requires Settled(s, sid) && pid in s.procs && t.now == s.now
    requires sid in t.rows && Calm(s.rows[sid], t.rows[sid])
    requires pid in t.procs && t.procs == s.procs[pid := t.procs[pid]] && !MayWrite(t.procs[pid], sid)
    requires s.rows[sid].state == Terminated && Acks(t, pid, sid) ==> Acks(s, pid, sid)
    ensures StaysSettled(s, t, sid)
  {
  }

  /** A request that only read. */
  lemma ReadSettled(s: State, t: State, pid: Pid, p: Proc, sid: Sid)
    requires Settled(s, sid) && pid in s.procs && t == Moved(s, pid, p)
    requires !MayWrite(p, sid) && p != Done(Acknowledged(sid))
    ensures StaysSettled(s, t, sid)
  {
  }

  /** A verdict recorded for another session. */
  lemma RecordSettled(s: State, t: State, pid: Pid, tenant: Tenant, other: Sid, v: Verdict, answer: Answer, sid: Sid)
    requires Settled(s, sid) && pid in s.procs && other != sid && !answer.Acknowledged?
    requires t == Moved(s.(rows := RecordIn(s.rows, tenant, other, v, s.now)), pid, Done(answer))
    ensures StaysSettled(s, t, sid)
  {
  }

  lemma ClaimSettled(c: Crypto, s: State, pid: Pid, p: Proc, sid: Sid)
    requires Inv(c, s) && Settled(s, sid) && pid in s.procs && s.procs[pid] == p && p.Attesting?
    ensures StaysSettled(s, Attest(s, pid, p), sid)
  {
    assert Claimable(s.rows, p.nonceHash, s.now) != Some(sid);
    MoveSettled(s, Attest(s, pid, p), pid, sid);
  }

  lemma AttestReads(s: State, pid: Pid, p: Proc, sid: Sid)
    requires p.Refused? || (p.Storing? && !MayWrite(p, sid))
    ensures var q := Attest(s, pid, p).procs[pid];
      Attest(s, pid, p) == Moved(s, pid, q) && !MayWrite(q, sid) && q != Done(Acknowledged(sid))
  {
  }

  lemma AttestReadSettled(c: Crypto, s: State, pid: Pid, p: Proc, sid: Sid)
    requires Inv(c, s) && Settled(s, sid) && pid in s.procs && s.procs[pid] == p && (p.Refused? || p.Storing?)
    ensures StaysSettled(s, Attest(s, pid, p), sid)
  {
    AttestReads(s, pid, p, sid);
    ReadSettled(s, Attest(s, pid, p), pid, Attest(s, pid, p).procs[pid], sid);
  }

  lemma StoreSettled(s: State, pid: Pid, p: Proc, sid: Sid)
    requires Settled(s, sid) && pid in s.procs && s.procs[pid] == p && p.Claiming?
    ensures StaysSettled(s, Attest(s, pid, p), sid)
  {
    MoveSettled(s, Attest(s, pid, p), pid, sid);
  }

  lemma JudgeSettled(s: State, pid: Pid, p: Proc, sid: Sid)
    requires Settled(s, sid) && pid in s.procs && s.procs[pid] == p && p.Judging?
    ensures StaysSettled(s, Attest(s, pid, p), sid)
  {
    var v := JudgedVerdict(p.session, p.snapshot, p.ip, p.accepted);
    RecordSettled(s, Attest(s, pid, p), pid, p.session.tenant, p.sid, v, Accepted(p.sid, v), sid);
  }

  lemma AttestSettled(c: Crypto, s: State, pid: Pid, p: Proc, sid: Sid)
    requires Inv(c, s) && Settled(s, sid) && pid in s.procs && s.procs[pid] == p
    requires p.Attesting? || p.Refused? || p.Claiming? || p.Storing? || p.Judging?
    ensures StaysSettled(s, Attest(s, pid, p), sid)
  {
    match p {
      case Attesting(_, _, _) => ClaimSettled(c, s, pid, p, sid);
      case Claiming(_, _, _, _) => StoreSettled(s, pid, p, sid);
      case Judging(_, _, _, _, _) => JudgeSettled(s, pid, p, sid);
      case Refused(_) => AttestReadSettled(c, s, pid, p, sid);
      case Storing(_, _, _, _) => AttestReadSettled(c, s, pid, p, sid);
      case _ =>
    }
  }

  lemma PollReads(s: State, pid: Pid, p: Proc, sid: Sid)
    requires sid in s.rows && s.rows[sid].verdict.Some? && !MayWrite(p, sid) && (p.Polling? || p.PollGot?)
    ensures var q := Poll(s, pid, p).procs[pid];
      Poll(s, pid, p) == Moved(s, pid, q) && !MayWrite(q, sid) && q != Done(Acknowledged(sid))
  {
  }

  lemma PollReadSettled(c: Crypto, s: State, pid: Pid, p: Proc, sid: Sid)
    requires Inv(c, s) && Settled(s, sid) && pid in s.procs && s.procs[pid] == p && (p.Polling? || p.PollGot?)
    ensures StaysSettled(s, Poll(s, pid, p), sid)
  {
    PollReads(s, pid, p, sid);
    ReadSettled(s, Poll(s, pid, p), pid, Poll(s, pid, p).procs[pid], sid);
  }

  lemma PollSettled(c: Crypto, s: State, pid: Pid, p: Proc, sid: Sid)
    requires Inv(c, s) && Settled(s, sid) && pid in s.procs && s.procs[pid] == p
    requires p.Polling? || p.PollGot? || p.PollWriting?
    ensures StaysSettled(s, Poll(s, pid, p), sid)
  {
    if p.PollWriting? {
      RecordSettled(s, Poll(s, pid, p), pid, p.tenant, p.sid, p.verdict, VerdictAnswer(p.sid, p.verdict), sid);
    } else {
      PollReadSettled(c, s, pid, p, sid);
    }
  }

  lemma Beats(s: State, pid: Pid, p: Proc, sid: Sid)
    requires sid in s.rows && (p.Beating? || p.BeatFound? || p.BeatEnding? || p.BeatExtending?)
    ensures var t := Beat(s, pid, p);
      && t.now == s.now && sid in t.rows && Calm(s.rows[sid], t.rows[sid])
      && pid in t.procs && t.procs == s.procs[pid := t.procs[pid]] && !MayWrite(t.procs[pid], sid)
      && (s.rows[sid].state == Terminated ==> !Acks(t, pid, sid))
  {
  }

  lemma BeatSettled(c: Crypto, s: State, pid: Pid, p: Proc, sid: Sid)
    requires Inv(c, s) && Settled(s, sid) && pid in s.procs && s.procs[pid] == p
    requires p.Beating? || p.BeatFound? || p.BeatEnding? || p.BeatExtending?
    ensures StaysSettled(s, Beat(s, pid, p), sid)
  {
    Beats(s, pid, p, sid);
    MoveSettled(s, Beat(s, pid, p), pid, sid);
  }

  lemma Looks(s: State, pid: Pid, p: Proc, sid: Sid)
    requires sid in s.rows && (p.Looking? || p.LookGot? || p.LookEnding?)
    ensures var t := Look(s, pid, p);
      && t.now == s.now && sid in t.rows && Calm(s.rows[sid], t.rows[sid])
      && pid in t.procs && t.procs == s.procs[pid := t.procs[pid]] && !MayWrite(t.procs[pid], sid)
      && !Acks(t, pid, sid)
  {
  }

  lemma LookSettled(c: Crypto, s: State, pid: Pid, p: Proc, sid: Sid)
    requires Inv(c, s) && Settled(s, sid) && pid in s.procs && s.procs[pid] == p
    requires p.Looking? || p.LookGot? || p.LookEnding? || p.Done?
    ensures StaysSettled(s, Look(s, pid, p), sid)
  {
    if !p.Done? {
      Looks(s, pid, p, sid);
      MoveSettled(s, Look(s, pid, p), pid, sid);
    }
  }

  lemma SweepSettled(c: Crypto, s: State, sid: Sid)
    requires Inv(c, s) && Settled(s, sid)
    ensures StaysSettled(s, s.(rows := SweepAll(s.rows, s.now)), sid)
  {
    assert RowOk(c, s.rows[sid], s.now);
  }

  lemma SpawnSettled(c: Crypto, s: State, pid: Pid, request: Request, sid: Sid)
    requires Settled(s, sid) && pid !in s.procs
    ensures StaysSettled(s, Moved(s, pid, Start(c, s, request)), sid)
  {
    assert !MayWrite(Start(c, s, request), sid);
  }

  lemma CrashSettled(s: State, pid: Pid, sid: Sid)
    requires Settled(s, sid)
    ensures StaysSettled(s, s.(procs := s.procs - {pid}), sid)
  {
  }

  lemma SettingSettled(c: Crypto, s: State, a: Action, sid: Sid)
    requires Settled(s, sid) && Enabled(c, s, a) && (a.Tick? || a.Create? || a.SetBuild? || a.SetFailMode?)
    ensures StaysSettled(s, Apply(c, s, a), sid)
  {
  }

  lemma WorldSettled(c: Crypto, s: State, a: Action, sid: Sid)
    requires Inv(c, s) && Settled(s, sid) && !a.Run? && Enabled(c, s, a)
    ensures StaysSettled(s, Apply(c, s, a), sid)
  {
    match a {
      case Sweep => SweepSettled(c, s, sid);
      case Spawn(pid, request) => SpawnSettled(c, s, pid, request, sid);
      case Crash(pid) => CrashSettled(s, pid, sid);
      case _ => SettingSettled(c, s, a, sid);
    }
  }

  lemma NextSettled(c: Crypto, s: State, a: Action, sid: Sid)
    requires Inv(c, s) && Settled(s, sid)
    ensures StaysSettled(s, Next(c, s, a), sid)
  {
    if Enabled(c, s, a) {
      if a.Run? {
        var p := s.procs[a.pid];
        if p.Attesting? || p.Refused? || p.Claiming? || p.Storing? || p.Judging? { AttestSettled(c, s, a.pid, p, sid); }
        else if p.Polling? || p.PollGot? || p.PollWriting? { PollSettled(c, s, a.pid, p, sid); }
        else if p.Beating? || p.BeatFound? || p.BeatEnding? || p.BeatExtending? { BeatSettled(c, s, a.pid, p, sid); }
        else { LookSettled(c, s, a.pid, p, sid); }
      } else {
        WorldSettled(c, s, a, sid);
      }
    }
  }

  /** Stability: from a settled session on, no run changes the stored verdict, `terminated`
      is absorbing, and no further heartbeat for a terminated session is acknowledged. */
  lemma {:induction false} SettledForever(c: Crypto, s: State, run: seq<Action>, sid: Sid)
    requires Inv(c, s) && Settled(s, sid)
    ensures StaysSettled(s, After(c, s, run), sid)
  {
    if run != [] {
      var t := After(c, s, run[..|run| - 1]);
      SettledForever(c, s, run[..|run| - 1], sid);
      AfterKeeps(c, s, run[..|run| - 1]);
      NextSettled(c, t, run[|run| - 1], sid);
    }
  }

  /** A heartbeat that reaches its extending statement on a terminated session is told to
      terminate, as is every one that never got that far. */
  lemma BeatOnTerminated(s: State, pid: Pid, p: Proc)
    requires p.BeatExtending? && p.sid in s.rows && s.rows[p.sid].state == Terminated
    ensures Beat(s, pid, p).procs[pid] == Done(Terminate(p.sid, Policy.HeartbeatLost))
    ensures Beat(s, pid, p).rows == s.rows
  {
    assert s.rows[p.sid := s.rows[p.sid]] == s.rows;
  }

  // --- An unsettled one can be decided again -------------------------------------------------

  ghost predicate Reaches(c: Crypto, s: State, t: State) {
    exists run :: After(c, s, run) == t
  }

  lemma ReachesStep(c: Crypto, s: State, t: State, a: Action)
    requires Reaches(c, s, t)
    ensures Reaches(c, s, Next(c, t, a))
  {
    var run :| After(c, s, run) == t;
    assert (run + [a])[..|run + [a]| - 1] == run;
    assert After(c, s, run + [a]) == Next(c, t, a);
  }

  lemma ReachesSelf(c: Crypto, s: State)
    ensures Reaches(c, s, s)
  {
    assert After(c, s, []) == s;
  }

  /** Some run leads to a step that records a verdict for the session. */
  ghost predicate CanBeWritten(c: Crypto, s: State, sid: Sid) {
    exists t, a :: Reaches(c, s, t) && Writes(t, a, sid)
  }

  /** An attestation that holds the claim gets to its verdict on its own. */
  lemma ClaimerWrites(c: Crypto, s: State, t: State, pid: Pid, sid: Sid)
    requires Reaches(c, s, t) && pid in t.procs && Claims(t.procs[pid], sid)
    ensures CanBeWritten(c, s, sid)
    decreases if t.procs[pid].Claiming? then 2 else if t.procs[pid].Storing? then 1 else 0
  {
    if t.procs[pid].Judging? {
      assert Writes(t, Run(pid), sid);
    } else {
      ReachesStep(c, s, t, Run(pid));
      ClaimerWrites(c, s, Next(c, t, Run(pid)), pid, sid);
    }
  }

  /** A poll that read the session undecided writes its timeout once the deadline is past. */
  lemma PollerWrites(c: Crypto, s: State, pid: Pid, sid: Sid)
    requires pid in s.procs && s.procs[pid].PollGot? && s.procs[pid].sid == sid && s.procs[pid].row.verdict.None?
    ensures CanBeWritten(c, s, sid)
  {
    ReachesSelf(c, s);
    ReachesStep(c, s, s, Tick(s.procs[pid].deadline));
    var t := Next(c, s, Tick(s.procs[pid].deadline));
    ReachesStep(c, s, t, Run(pid));
    assert Writes(Next(c, t, Run(pid)), Run(pid), sid);
  }

  lemma {:induction false} FreshPid(pids: set<Pid>) returns (pid: Pid)
    ensures forall p | p in pids :: p < pid
  {
    if pids == {} {
      pid := 0;
    } else {
      var p :| p in pids;
      var q := FreshPid(pids - {p});
      pid := if q <= p then p + 1 else q;
      forall r | r in pids ensures r < pid { assert r == p || r in pids - {p}; }
    }
  }

  /** An attestation about to claim the nonce does. */
  lemma ClaimSucceeds(s: State, pid: Pid, p: Proc, sid: Sid)
    requires HashesUnique(s.rows) && p.Attesting? && sid in s.rows
    requires s.rows[sid].nonceHash == p.nonceHash && Live(s.rows[sid], s.now)
    ensures var row := Claimed(s.rows[sid], p.ip, s.now);
      Attest(s, pid, p) == Moved(s.(rows := s.rows[sid := row]), pid, Claiming(sid, row, p.snapshot, p.ip))
  {
    assert Holder(s.rows, p.nonceHash) == Some(sid);
  }

  /** While the nonce is live, whoever holds it can still attest. */
  lemma LiveNonceClaims(c: Crypto, s: State, sid: Sid, snapshot: Policy.Snapshot, ip: string)
    returns (t: State, pid: Pid)
    requires Inv(c, s) && sid in s.rows && Live(s.rows[sid], s.now)
    ensures Reaches(c, s, t)
    ensures var row := Claimed(s.rows[sid], ip, s.now);
      t == Moved(s.(rows := s.rows[sid := row]), pid, Claiming(sid, row, snapshot, ip))
  {
    assert RowOk(c, s.rows[sid], s.now);
    var nonce := c.open(s.rows[sid].sealed.value).value;
    pid := FreshPid(s.procs.Keys);
    var a := Spawn(pid, AttestRequest(nonce, snapshot, ip));
    var u := Moved(s, pid, Attesting(c.hash(nonce), snapshot, ip));
    ReachesSelf(c, s);
    ReachesStep(c, s, s, a);
    assert Next(c, s, a) == u;
    ReachesStep(c, s, u, Run(pid));
    ClaimSucceeds(u, pid, u.procs[pid], sid);
    t := Next(c, u, Run(pid));
    assert t.procs == s.procs[pid := t.procs[pid]];
  }

  /** Exactly when a decided session can no longer be decided again. */
  lemma SettledExactly(c: Crypto, s: State, sid: Sid)
    requires Inv(c, s) && sid in s.rows && s.rows[sid].verdict.Some?
    ensures Settled(s, sid) <==> !CanBeWritten(c, s, sid)
  {
    if Settled(s, sid) {
      forall t, a | Reaches(c, s, t) ensures !Writes(t, a, sid) {
        var run :| After(c, s, run) == t;
        SettledForever(c, s, run, sid);
      }
    } else if Live(s.rows[sid], s.now) {
      var snapshot: Policy.Snapshot :| true;
      var t, pid := LiveNonceClaims(c, s, sid, snapshot, "");
      ClaimerWrites(c, s, t, pid, sid);
    } else {
      var pid :| pid in s.procs && MayWrite(s.procs[pid], sid);
      ReachesSelf(c, s);
      if Claims(s.procs[pid], sid) {
        ClaimerWrites(c, s, s, pid, sid);
      } else if s.procs[pid].PollGot? {
        PollerWrites(c, s, pid, sid);
      } else {
        assert Writes(s, Run(pid), sid);
      }
    }
  }

  // --- `terminated` is not final while the nonce lives ---------------------------------------

  /** A machine that meets every requirement the table in force can block on. */
  predicate Clean(snapshot: Policy.Snapshot) {
    && snapshot.features == Policy.Features(
         Policy.Enabled, Policy.Enabled, Policy.Disabled, Policy.Disabled, Policy.Enabled, Policy.Enabled)
    && snapshot.tpmPresent && snapshot.gameProcess
  }

  lemma CleanMachineAllowed(input: Policy.Input)
    requires Clean(input.snapshot) && input.buildAccepted && input.attestationIp == input.gameIp
    ensures Remediation.PolicyVerdict(input).decision == Policy.Allow
  {
    var column := Policy.InForce(input.tier);
    Policy.AllowedExactly(column, input);
    forall id | column(id) == Policy.Block ensures Policy.Find(input, id).met == Policy.Yes {
      assert id != Policy.VulnerableDriversAbsent;
    }
  }

  /** A claim whose build is on the list ends in the policy's verdict. */
  lemma ClaimerFinishes(c: Crypto, s: State, t: State, pid: Pid) returns (u: State)
    requires Reaches(c, s, t) && pid in t.procs && t.procs[pid].Claiming?
    requires var p := t.procs[pid];
      p.sid in t.rows && t.rows[p.sid].tenant == p.session.tenant && p.snapshot.buildHash in t.builds
    ensures Reaches(c, s, u)
    ensures var p := t.procs[pid];
      u.rows == t.rows[p.sid := Recorded(t.rows[p.sid], JudgedVerdict(p.session, p.snapshot, p.ip, true), t.now)]
  {
    var t1 := Next(c, t, Run(pid));
    ReachesStep(c, s, t, Run(pid));
    var t2 := Next(c, t1, Run(pid));
    ReachesStep(c, s, t1, Run(pid));
    u := Next(c, t2, Run(pid));
    ReachesStep(c, s, t2, Run(pid));
  }

  /** A terminated session comes back to life as long as its nonce is live: any clean machine
      on an accepted build can still attest from the game's address. */
  lemma LiveNonceRevives(c: Crypto, s: State, sid: Sid, snapshot: Policy.Snapshot) returns (t: State)
    requires Inv(c, s) && sid in s.rows && Live(s.rows[sid], s.now)
    requires Clean(snapshot) && snapshot.buildHash in s.builds
    ensures Reaches(c, s, t) && sid in t.rows && t.rows[sid].state == Active
  {
    var ip := s.rows[sid].gameIp;
    var u, pid := LiveNonceClaims(c, s, sid, snapshot, ip);
    t := ClaimerFinishes(c, s, u, pid);
    CleanMachineAllowed(PolicyInput(u.procs[pid].session, snapshot, ip, true));
  }

  /** A poll at its deadline that finds the session undecided decides it by timeout. */
  lemma PollTimesOut(c: Crypto, s: State, t: State, pid: Pid, sid: Sid) returns (u: State)
    requires Reaches(c, s, t) && pid in t.procs && t.procs[pid].Polling? && t.now >= t.procs[pid].deadline
    requires Holder(t.rows, t.procs[pid].nonceHash) == Some(sid)
    requires t.rows[sid].tenant == t.procs[pid].tenant && t.rows[sid].verdict.None?
    ensures Reaches(c, s, u) && u.now == t.now && u.builds == t.builds
    ensures u.rows == t.rows[sid := Recorded(t.rows[sid], Remediation.TimeoutVerdict(t.procs[pid].mode), t.now)]
  {
    var t1 := Next(c, t, Run(pid));
    ReachesStep(c, s, t, Run(pid));
    var t2 := Next(c, t1, Run(pid));
    ReachesStep(c, s, t1, Run(pid));
    u := Next(c, t2, Run(pid));
    ReachesStep(c, s, t2, Run(pid));
  }

  /** The verdict poll gives up after 20 of the nonce's 30 seconds. */
  lemma TimeoutLeavesNonceLive(c: Crypto, sid: Sid, nonce: string, sealed: string, gameIp: string,
                               tier: Policy.Tier, build: string)
    returns (s: State)
    requires c.open(sealed) == Some(nonce)
    ensures Reachable(c, s) && sid in s.rows && s.rows[sid].state == Terminated && Live(s.rows[sid], s.now)
    ensures build in s.builds
  {
    var s0 := State(0, map[], map[], {build}, {build}, {}, {}, map[]);
    ReachesSelf(c, s0);
    var create := Create(sid, 0, nonce, sealed, gameIp, tier);
    var s1 := Next(c, s0, create);
    ReachesStep(c, s0, s0, create);
    assert Holder(s1.rows, c.hash(nonce)) == Some(sid);
    var s2 := Next(c, s1, Spawn(0, VerdictRequest(0, nonce)));
    ReachesStep(c, s0, s1, Spawn(0, VerdictRequest(0, nonce)));
    var s3 := Next(c, s2, Tick(VERDICT_POLL_TIMEOUT));
    ReachesStep(c, s0, s2, Tick(VERDICT_POLL_TIMEOUT));
    s := PollTimesOut(c, s0, s3, 0, sid);
  }

  /** So "terminated is terminal" fails: a run that ends in `active` after `terminated`. */
  lemma TerminatedIsNotFinal(c: Crypto, nonce: string, sealed: string, snapshot: Policy.Snapshot)
    returns (s: State, t: State)
    requires c.open(sealed) == Some(nonce) && Clean(snapshot)
    ensures Reachable(c, s) && Reaches(c, s, t)
    ensures 0 in s.rows && s.rows[0].state == Terminated && 0 in t.rows && t.rows[0].state == Active
  {
    s := TimeoutLeavesNonceLive(c, 0, nonce, sealed, "203.0.113.42", Policy.Strict, snapshot.buildHash);
    ReachableInv(c, s);
    t := LiveNonceRevives(c, s, 0, snapshot);
  }
}
