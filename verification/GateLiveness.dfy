/** The liveness timing of the connect gate over every run. */
module GateLiveness {
  import opened Common
  import opened Sessions
  import opened Gate
  import opened GateInvariant
  import opened GateSafety
  import opened GateStability
  import Policy
  import Remediation

  const SILENCE: nat := 210_000

  // --- When an answer kicks ----------------------------------------------------------

  /** Interval and grace together are the 210 seconds, from the heartbeat as it was read to
      the moment of the decision. */
  lemma KicksExactly(r: Row, readAt: nat, now: nat)
    requires RowShape(r, readAt)
    ensures BuildLiveness(r, now).shouldKick
      <==> r.state == Terminated || (r.state == Active && now >= r.lastHeartbeat.value + SILENCE)
    ensures BuildLiveness(r, now).shouldKick <==> BuildLiveness(r, now).reason.Some?
  {
  }

  // --- Refreshed sessions are not kicked ------------------------------------------------

  /** Every active session was heard from less than `gap` ago. */
  ghost predicate Refreshed(s: State, gap: nat) {
    forall sid | sid in s.rows && s.rows[sid].state == Active ::
      s.rows[sid].lastHeartbeat.Some? && s.now < s.rows[sid].lastHeartbeat.value + gap
  }

  /** No liveness request has sat on what it read for more than `latency`. */
  ghost predicate Prompt(s: State, latency: nat) {
    forall pid | pid in s.procs && s.procs[pid].LookGot? :: s.now <= s.procs[pid].readAt + latency
  }

  /** Nobody is being kicked for silence, and no request holds a row that was silent when read. */
  ghost predicate Unkicked(s: State, gap: nat) {
    forall pid | pid in s.procs ::
      && !s.procs[pid].LookEnding?
      && (s.procs[pid].LookGot? && s.procs[pid].row.state == Active ==>
            s.procs[pid].row.lastHeartbeat.Some? && s.procs[pid].readAt < s.procs[pid].row.lastHeartbeat.value + gap)
  }

  /** The request moved to a place where it holds no row and kicks nobody. */
  predicate Harmless(s: State, t: State, pid: Pid) {
    pid in t.procs && t.procs == s.procs[pid := t.procs[pid]] && !t.procs[pid].LookEnding? && !t.procs[pid].LookGot?
  }

  lemma AttestIsHarmless(s: State, pid: Pid, p: Proc)
    requires p.Attesting? || p.Refused? || p.Claiming? || p.Storing? || p.Judging?
    ensures Harmless(s, Attest(s, pid, p), pid)
  {
  }

  lemma PollIsHarmless(s: State, pid: Pid, p: Proc)
    requires p.Polling? || p.PollGot? || p.PollWriting?
    ensures Harmless(s, Poll(s, pid, p), pid)
  {
  }

  lemma BeatIsHarmless(s: State, pid: Pid, p: Proc)
    requires p.Beating? || p.BeatFound? || p.BeatEnding? || p.BeatExtending?
    ensures Harmless(s, Beat(s, pid, p), pid)
  {
  }

  lemma OthersDoNotKick(s: State, pid: Pid, p: Proc)
    requires !p.Looking? && !p.LookGot? && !p.LookEnding? && !p.Done?
    ensures Harmless(s, Advance(s, pid, p), pid)
  {
    if p.Attesting? || p.Refused? || p.Claiming? || p.Storing? || p.Judging? {
      AttestIsHarmless(s, pid, p);
    } else if p.Polling? || p.PollGot? || p.PollWriting? {
      PollIsHarmless(s, pid, p);
    } else {
      BeatIsHarmless(s, pid, p);
    }
  }

  /** A request that read early enough decides early enough; and with no room for a gap there
      is no active session to read. */
  lemma LookUnkicked(s: State, pid: Pid, p: Proc, gap: nat, latency: nat)
    requires pid in s.procs && s.procs[pid] == p && ProcOk(s, p) && (gap == 0 || gap + latency <= SILENCE)
    requires Unkicked(s, gap) && Refreshed(s, gap) && Prompt(s, latency)
    ensures Unkicked(Look(s, pid, p), gap)
  {
  }

  lemma NextUnkicked(c: Crypto, s: State, a: Action, gap: nat, latency: nat)
    requires ProcsOk(s) && (gap == 0 || gap + latency <= SILENCE)
    requires Unkicked(s, gap) && Refreshed(s, gap) && Prompt(s, latency)
    ensures Unkicked(Next(c, s, a), gap)
  {
    if a.Run? && a.pid in s.procs {
      var p := s.procs[a.pid];
      if p.Looking? || p.LookGot? || p.LookEnding? || p.Done? {
        LookUnkicked(s, a.pid, p, gap, latency);
      } else {
        OthersDoNotKick(s, a.pid, p);
      }
    }
  }

  /** At every moment of the run sessions are refreshed at gaps below `gap` and liveness
      requests decide within `latency` of their read. */
  ghost predicate WellTimed(c: Crypto, s: State, run: seq<Action>, gap: nat, latency: nat) {
    forall n | 0 <= n <= |run| :: Refreshed(After(c, s, run[..n]), gap) && Prompt(After(c, s, run[..n]), latency)
  }

  /** If gap and latency stay within 210 seconds together, nobody is kicked for silence. */
  lemma {:induction false} NoKickWhileRefreshed(c: Crypto, s: State, run: seq<Action>, gap: nat, latency: nat)
    requires Init(s) && (gap == 0 || gap + latency <= SILENCE) && WellTimed(c, s, run, gap, latency)
    ensures Unkicked(After(c, s, run), gap)
  {
    if run != [] {
      var front := run[..|run| - 1];
      forall n | 0 <= n <= |front|
        ensures Refreshed(After(c, s, front[..n]), gap) && Prompt(After(c, s, front[..n]), latency)
      {
        assert front[..n] == run[..n];
      }
      NoKickWhileRefreshed(c, s, front, gap, latency);
      AfterKeeps(c, s, front);
      assert front[..|front|] == front;
      NextUnkicked(c, After(c, s, front), run[|run| - 1], gap, latency);
    }
  }

  // --- Silence ends a session -------------------------------------------------------------

  /** Steps that leave a request where it is. */
  predicate Leaves(run: seq<Action>, pid: Pid) {
    Run(pid) !in run && Crash(pid) !in run
  }

  lemma AdvanceLeaves(s: State, pid: Pid, p: Proc, other: Pid)
    requires pid in s.procs && s.procs[pid] == p && other in s.procs && other != pid
    ensures other in Advance(s, pid, p).procs && Advance(s, pid, p).procs[other] == s.procs[other]
  {
  }

  lemma {:induction false} AfterLeaves(c: Crypto, s: State, run: seq<Action>, pid: Pid)
    requires pid in s.procs && Leaves(run, pid)
    ensures pid in After(c, s, run).procs && After(c, s, run).procs[pid] == s.procs[pid]
  {
    if run != [] {
      var front, a := run[..|run| - 1], run[|run| - 1];
      assert a in run;
      AfterLeaves(c, s, front, pid);
      var t := After(c, s, front);
      if a.Run? && a.pid in t.procs { AdvanceLeaves(t, a.pid, t.procs[a.pid], pid); }
    }
  }

  /** A request that read the session active and silent for 210 seconds decides to kick... */
  lemma SilentReadKicks(c: Crypto, s: State, pid: Pid)
    requires Inv(c, s) && pid in s.procs && s.procs[pid].LookGot? && s.procs[pid].row.state == Active
    ensures s.procs[pid].row.lastHeartbeat.Some?
    ensures s.procs[pid].readAt >= s.procs[pid].row.lastHeartbeat.value + SILENCE ==>
      var t := Next(c, s, Run(pid));
      pid in t.procs && t.procs[pid].LookEnding? && t.procs[pid].sid == s.procs[pid].sid
  {
    assert ProcOk(s, s.procs[pid]);
    KicksExactly(s.procs[pid].row, s.procs[pid].readAt, s.now);
  }

  /** ...and its next statement leaves the session terminated. */
  lemma KickTerminates(c: Crypto, s: State, pid: Pid)
    requires Inv(c, s) && pid in s.procs && s.procs[pid].LookEnding?
    ensures var t := Next(c, s, Run(pid)); s.procs[pid].sid in t.rows && t.rows[s.procs[pid].sid].state == Terminated
  {
    assert ProcOk(s, s.procs[pid]);
  }

  /** Whoever is kicked for silence is decided, and the nonce is long dead: with no verdict
      write in flight the session is settled. */
  lemma KickIsSettled(c: Crypto, s: State, pid: Pid)
    requires Inv(c, s) && pid in s.procs && s.procs[pid].LookEnding?
    requires NoWriteInFlight(s, s.procs[pid].sid)
    ensures Settled(s, s.procs[pid].sid)
  {
    assert ProcOk(s, s.procs[pid]);
  }

  /** Terminated, and for good: no run changes the row, and no heartbeat is acknowledged that
      was not before. */
  ghost predicate EndedForGood(c: Crypto, s: State, sid: Sid) {
    forall run: seq<Action> :: EndedAfter(c, s, run, sid)
  }

  ghost predicate EndedAfter(c: Crypto, s: State, run: seq<Action>, sid: Sid) {
    var t := After(c, s, run);
    && sid in s.rows && s.rows[sid].state == Terminated
    && sid in t.rows && t.rows[sid] == s.rows[sid]
    && forall q | Acks(t, q, sid) :: Acks(s, q, sid)
  }

  /** With no verdict write in flight, a kick is final in every run after it. */
  lemma KickIsFinal(c: Crypto, s: State, pid: Pid)
    requires Inv(c, s) && pid in s.procs && s.procs[pid].LookEnding?
    requires NoWriteInFlight(s, s.procs[pid].sid)
    ensures EndedForGood(c, Next(c, s, Run(pid)), s.procs[pid].sid)
  {
    var sid, t := s.procs[pid].sid, Next(c, s, Run(pid));
    KickIsSettled(c, s, pid);
    KickTerminates(c, s, pid);
    NextKeeps(c, s, Run(pid));
    NextSettled(c, s, Run(pid), sid);
    forall run: seq<Action> ensures EndedAfter(c, t, run, sid) { SettledForever(c, t, run, sid); }
  }

  lemma LookReadsRow(c: Crypto, s: State, pid: Pid, sid: Sid)
    requires sid in s.rows && pid in s.procs && s.procs[pid] == Looking(s.rows[sid].tenant, sid)
    ensures Next(c, s, Run(pid)) == Moved(s, pid, LookGot(sid, s.rows[sid], s.now))
  {
  }

  /** From the read to the decision, whoever interleaves. */
  lemma ReadDecides(c: Crypto, s: State, pid: Pid, sid: Sid, wait: seq<Action>) returns (t: State)
    requires Inv(c, s) && sid in s.rows && s.rows[sid].state == Active
    requires s.rows[sid].lastHeartbeat.Some? && s.now >= s.rows[sid].lastHeartbeat.value + SILENCE
    requires pid in s.procs && s.procs[pid] == Looking(s.rows[sid].tenant, sid) && Leaves(wait, pid)
    ensures t == Next(c, After(c, Next(c, s, Run(pid)), wait), Run(pid)) && Inv(c, t)
    ensures pid in t.procs && t.procs[pid].LookEnding? && t.procs[pid].sid == sid
  {
    var read := Next(c, s, Run(pid));
    LookReadsRow(c, s, pid, sid);
    NextKeeps(c, s, Run(pid));
    var waited := After(c, read, wait);
    AfterKeeps(c, read, wait);
    AfterLeaves(c, read, wait, pid);
    SilentReadKicks(c, waited, pid);
    NextKeeps(c, waited, Run(pid));
    t := Next(c, waited, Run(pid));
  }

  ghost predicate NoWriteInFlight(s: State, sid: Sid) {
    forall pid | pid in s.procs :: !MayWrite(s.procs[pid], sid)
  }

  /** From the read to the kick: a liveness request about to read an active session that has been
      silent for 210 seconds, however others interleave with it, leaves the session
      terminated; and for good, if no verdict write is in flight when it does. */
  lemma SilentSessionEnds(c: Crypto, s: State, pid: Pid, sid: Sid, wait: seq<Action>, more: seq<Action>)
    requires Inv(c, s) && sid in s.rows && s.rows[sid].state == Active
    requires s.rows[sid].lastHeartbeat.Some? && s.now >= s.rows[sid].lastHeartbeat.value + SILENCE
    requires pid in s.procs && s.procs[pid] == Looking(s.rows[sid].tenant, sid)
    requires Leaves(wait, pid) && Leaves(more, pid)
    ensures var kicking := After(c, Next(c, After(c, Next(c, s, Run(pid)), wait), Run(pid)), more);
      var t := Next(c, kicking, Run(pid));
      && sid in t.rows && t.rows[sid].state == Terminated
      && (NoWriteInFlight(kicking, sid) ==> EndedForGood(c, t, sid))
  {
    var decided := ReadDecides(c, s, pid, sid, wait);
    var kicking := After(c, decided, more);
    AfterKeeps(c, decided, more);
    AfterLeaves(c, decided, more, pid);
    KickTerminates(c, kicking, pid);
    if NoWriteInFlight(kicking, sid) { KickIsFinal(c, kicking, pid); }
  }

  // --- Too slow a request kicks a session that is refreshed in time ------------------------------

  ghost predicate Timed(s: State, gap: nat, latency: nat) {
    Refreshed(s, gap) && Prompt(s, latency)
  }

  /** A well-timed run from one state to another. */
  ghost predicate TimedPath(c: Crypto, s: State, t: State, gap: nat, latency: nat) {
    exists run :: After(c, s, run) == t && WellTimed(c, s, run, gap, latency)
  }

  lemma PathStep(c: Crypto, s: State, t: State, a: Action, gap: nat, latency: nat)
    requires TimedPath(c, s, t, gap, latency) && Timed(Next(c, t, a), gap, latency)
    ensures TimedPath(c, s, Next(c, t, a), gap, latency)
  {
    var run :| After(c, s, run) == t && WellTimed(c, s, run, gap, latency);
    var longer := run + [a];
    assert longer[..|longer| - 1] == run;
    assert After(c, s, longer) == Next(c, t, a);
    forall n | 0 <= n <= |longer| ensures Timed(After(c, s, longer[..n]), gap, latency) {
      if n <= |run| { assert longer[..n] == run[..n]; } else { assert longer[..n] == longer; }
    }
  }

  lemma PathSelf(c: Crypto, s: State, gap: nat, latency: nat)
    requires Timed(s, gap, latency)
    ensures TimedPath(c, s, s, gap, latency)
  {
    var run: seq<Action> := [];
    assert After(c, s, run) == s;
    assert run[..0] == run;
  }

  /** A step that only moves requests, and holds no row but one just read. */
  lemma QuietStep(c: Crypto, s0: State, s: State, a: Action, t: State, gap: nat, latency: nat)
    requires TimedPath(c, s0, s, gap, latency) && Timed(s, gap, latency)
    requires t == Next(c, s, a) && t.rows == s.rows && t.now == s.now
    requires forall pid | pid in t.procs && t.procs[pid].LookGot? ::
      (pid in s.procs && s.procs[pid] == t.procs[pid]) || t.procs[pid].readAt == t.now
    ensures TimedPath(c, s0, t, gap, latency) && Timed(t, gap, latency)
  {
    PathStep(c, s0, s, a, gap, latency);
  }

  /** A step that moves one request to somewhere it holds no row, or one just read. */
  lemma MoveStep(c: Crypto, s0: State, s: State, a: Action, pid: Pid, p: Proc, gap: nat, latency: nat)
    requires TimedPath(c, s0, s, gap, latency) && Timed(s, gap, latency) && Next(c, s, a) == Moved(s, pid, p)
    requires p.LookGot? ==> p.readAt == s.now
    ensures TimedPath(c, s0, Moved(s, pid, p), gap, latency) && Timed(Moved(s, pid, p), gap, latency)
  {
    QuietStep(c, s0, s, a, Moved(s, pid, p), gap, latency);
  }

  /** The only session of the gate; there is at most request 0, and it is no liveness request. */
  ghost predicate OneSession(s: State, sid: Sid) {
    && s.rows.Keys == {sid} && s.snaps == map[]
    && forall pid | pid in s.procs :: pid == 0 && !s.procs[pid].LookGot?
  }

  /** A player connects to a server of a tenant that fails open. */
  lemma Connects(c: Crypto, sid: Sid, nonce: string, sealed: string, gameIp: string, gap: nat, latency: nat)
    returns (s0: State, s: State)
    requires c.open(sealed) == Some(nonce)
    ensures Init(s0) && TimedPath(c, s0, s, gap, latency) && Timed(s, gap, latency) && OneSession(s, sid)
    ensures s.rows[sid] == NewRow(0, c.hash(nonce), sealed, gameIp, Policy.Strict, s.now)
    ensures s.procs == map[] && 0 in s.open
  {
    s0 := State(0, map[], map[], {}, {}, {0}, {0}, map[]);
    PathSelf(c, s0, gap, latency);
    var create := Create(sid, 0, nonce, sealed, gameIp, Policy.Strict);
    s := Next(c, s0, create);
    assert s.rows.Keys == {sid};
    PathStep(c, s0, s0, create, gap, latency);
  }

  /** The verdict poll is resumed at its deadline and gets to its write. */
  lemma PollReachesWrite(c: Crypto, s0: State, t: State, sid: Sid, gap: nat, latency: nat) returns (u: State)
    requires TimedPath(c, s0, t, gap, latency) && Timed(t, gap, latency) && OneSession(t, sid)
    requires 0 in t.procs && t.procs[0].Polling? && t.now >= t.procs[0].deadline
    requires t.procs[0].mode == Remediation.FailOpen && Holder(t.rows, t.procs[0].nonceHash) == Some(sid)
    requires t.rows[sid].tenant == t.procs[0].tenant && t.rows[sid].verdict.None?
    ensures TimedPath(c, s0, u, gap, latency) && Timed(u, gap, latency)
    ensures u == Moved(t, 0, PollWriting(t.rows[sid].tenant, sid, Remediation.TimeoutVerdict(Remediation.FailOpen)))
  {
    var p := t.procs[0];
    var t1 := Moved(t, 0, PollGot(p.tenant, p.nonceHash, p.deadline, p.mode, sid, t.rows[sid]));
    QuietStep(c, s0, t, Run(0), t1, gap, latency);
    u := Moved(t1, 0, PollWriting(p.tenant, sid, Remediation.TimeoutVerdict(p.mode)));
    QuietStep(c, s0, t1, Run(0), u, gap, latency);
    assert u.procs == t.procs[0 := u.procs[0]];
  }

  /** Writing it admits the player. */
  lemma WriteAdmits(c: Crypto, s0: State, t: State, sid: Sid, gap: nat, latency: nat) returns (u: State)
    requires gap > 0 && TimedPath(c, s0, t, gap, latency) && Timed(t, gap, latency) && OneSession(t, sid)
    requires 0 in t.procs
    requires t.procs[0] == PollWriting(t.rows[sid].tenant, sid, Remediation.TimeoutVerdict(Remediation.FailOpen))
    ensures TimedPath(c, s0, u, gap, latency) && Timed(u, gap, latency) && OneSession(u, sid) && Heard(u, sid, 0)
  {
    var v := Remediation.TimeoutVerdict(Remediation.FailOpen);
    u := Moved(t.(rows := t.rows[sid := Recorded(t.rows[sid], v, t.now)]), 0, Done(VerdictAnswer(sid, v)));
    assert Next(c, t, Run(0)) == u;
    assert u.rows.Keys == {sid};
    PathStep(c, s0, t, Run(0), gap, latency);
  }

  /** That tenant admits them 20 seconds later. */
  lemma FailsOpen(c: Crypto, sid: Sid, nonce: string, sealed: string, gameIp: string, gap: nat, latency: nat)
    returns (s0: State, s: State)
    requires c.open(sealed) == Some(nonce) && gap > 0
    ensures Init(s0) && TimedPath(c, s0, s, gap, latency) && Timed(s, gap, latency)
    ensures OneSession(s, sid) && Heard(s, sid, 0)
  {
    var s1;
    s0, s1 := Connects(c, sid, nonce, sealed, gameIp, gap, latency);
    assert Holder(s1.rows, c.hash(nonce)) == Some(sid);
    var s2 := Moved(s1, 0, Polling(0, c.hash(nonce), s1.now + VERDICT_POLL_TIMEOUT, Remediation.FailOpen));
    QuietStep(c, s0, s1, Spawn(0, VerdictRequest(0, nonce)), s2, gap, latency);
    var s3 := s2.(now := s2.now + VERDICT_POLL_TIMEOUT);
    assert Next(c, s2, Tick(VERDICT_POLL_TIMEOUT)) == s3;
    PathStep(c, s0, s2, Tick(VERDICT_POLL_TIMEOUT), gap, latency);
    var s4 := PollReachesWrite(c, s0, s3, sid, gap, latency);
    s := WriteAdmits(c, s0, s4, sid, gap, latency);
  }

  /** Heard from `ago` milliseconds ago. */
  predicate Heard(s: State, sid: Sid, ago: nat) {
    && sid in s.rows && s.rows[sid].state == Active && s.rows[sid].lastHeartbeat.Some?
    && s.now == s.rows[sid].lastHeartbeat.value + ago
  }

  /** The liveness request, 1, read the session active `ago` milliseconds after its heartbeat,
      and has held it for `held` since; nobody else holds a row. */
  ghost predicate Holding(s: State, sid: Sid, ago: nat, held: nat) {
    && s.rows.Keys == {sid} && s.snaps == map[] && 2 !in s.procs
    && 1 in s.procs && s.procs[1].LookGot? && s.procs[1].sid == sid
    && s.procs[1].row.state == Active && s.procs[1].row.lastHeartbeat.Some?
    && s.procs[1].readAt == s.procs[1].row.lastHeartbeat.value + ago
    && s.now == s.procs[1].readAt + held
    && forall pid | pid in s.procs && s.procs[pid].LookGot? :: pid == 1
  }

  /** A liveness request comes in some time after the heartbeat, and reads. */
  lemma ReadsAfter(c: Crypto, s0: State, s: State, sid: Sid, ago: nat, gap: nat, latency: nat) returns (t: State)
    requires TimedPath(c, s0, s, gap, latency) && Timed(s, gap, latency) && OneSession(s, sid) && Heard(s, sid, 0)
    requires ago < gap
    ensures TimedPath(c, s0, t, gap, latency) && Timed(t, gap, latency)
    ensures Heard(t, sid, ago) && Holding(t, sid, ago, 0)
  {
    var s1 := s.(now := s.now + ago);
    WaitsQuietly(c, s0, s, sid, ago, gap, latency);
    var s2 := Moved(s1, 1, Looking(s.rows[sid].tenant, sid));
    LookSpawns(c, s1, sid);
    MoveStep(c, s0, s1, Spawn(1, LivenessRequest(s.rows[sid].tenant, sid)), 1, s2.procs[1], gap, latency);
    t := Moved(s2, 1, LookGot(sid, s.rows[sid], s2.now));
    LookReadsRow(c, s2, 1, sid);
    MoveStep(c, s0, s2, Run(1), 1, t.procs[1], gap, latency);
  }

  lemma LookSpawns(c: Crypto, s: State, sid: Sid)
    requires 1 !in s.procs && sid in s.rows
    ensures var tenant := s.rows[sid].tenant;
      Next(c, s, Spawn(1, LivenessRequest(tenant, sid))) == Moved(s, 1, Looking(tenant, sid))
  {
  }

  lemma WaitsQuietly(c: Crypto, s0: State, s: State, sid: Sid, ms: nat, gap: nat, latency: nat)
    requires TimedPath(c, s0, s, gap, latency) && Timed(s, gap, latency) && OneSession(s, sid) && Heard(s, sid, 0)
    requires ms < gap
    ensures var t := s.(now := s.now + ms); TimedPath(c, s0, t, gap, latency) && Timed(t, gap, latency)
  {
    assert Next(c, s, Tick(ms)) == s.(now := s.now + ms);
    PathStep(c, s0, s, Tick(ms), gap, latency);
  }

  lemma BeatSpawns(c: Crypto, s: State, sid: Sid, closing: bool)
    requires 2 !in s.procs
    ensures Next(c, s, Spawn(2, HeartbeatRequest(sid, "", closing, true)))
      == Moved(s, 2, Beating(sid, "", closing, true))
  {
  }

  lemma BeatFinds(c: Crypto, s: State, sid: Sid, closing: bool)
    requires 2 in s.procs && s.procs[2] == Beating(sid, "", closing, true) && sid in s.rows
    ensures Next(c, s, Run(2)) == Moved(s, 2, BeatFound(sid, "", closing, true))
  {
  }

  function LastBeat(sid: Sid, closing: bool): Proc {
    if closing then BeatEnding(sid, Policy.HeartbeatLost) else BeatExtending(sid)
  }

  lemma BeatChooses(c: Crypto, s: State, sid: Sid, closing: bool)
    requires 2 in s.procs && s.procs[2] == BeatFound(sid, "", closing, true) && s.snaps == map[]
    ensures Next(c, s, Run(2)) == Moved(s, 2, LastBeat(sid, closing))
  {
  }

  lemma BeatEnters(c: Crypto, s0: State, s: State, sid: Sid, closing: bool, gap: nat, latency: nat) returns (t: State)
    requires TimedPath(c, s0, s, gap, latency) && Timed(s, gap, latency) && sid in s.rows && 2 !in s.procs
    ensures TimedPath(c, s0, t, gap, latency) && Timed(t, gap, latency)
    ensures t == Moved(s, 2, BeatFound(sid, "", closing, true))
  {
    var p, q := Beating(sid, "", closing, true), BeatFound(sid, "", closing, true);
    BeatSpawns(c, s, sid, closing);
    MoveStep(c, s0, s, Spawn(2, HeartbeatRequest(sid, "", closing, true)), 2, p, gap, latency);
    var u := Moved(s, 2, p);
    BeatFinds(c, u, sid, closing);
    MoveStep(c, s0, u, Run(2), 2, q, gap, latency);
    t := Moved(u, 2, q);
    assert t.procs == s.procs[2 := q];
  }

  /** A heartbeat gets to its last statement. */
  lemma BeatArrives(c: Crypto, s0: State, s: State, sid: Sid, closing: bool, gap: nat, latency: nat) returns (t: State)
    requires TimedPath(c, s0, s, gap, latency) && Timed(s, gap, latency) && sid in s.rows && s.snaps == map[]
    requires 2 !in s.procs
    ensures TimedPath(c, s0, t, gap, latency) && Timed(t, gap, latency) && t == Moved(s, 2, LastBeat(sid, closing))
  {
    var u := BeatEnters(c, s0, s, sid, closing, gap, latency);
    BeatChooses(c, u, sid, closing);
    MoveStep(c, s0, u, Run(2), 2, LastBeat(sid, closing), gap, latency);
    t := Moved(u, 2, LastBeat(sid, closing));
    assert t.procs == s.procs[2 := t.procs[2]];
  }

  /** Its answer is sent, and the request is gone. */
  lemma BeatLeaves(c: Crypto, s0: State, s: State, t: State, gap: nat, latency: nat)
    requires TimedPath(c, s0, s, gap, latency) && Timed(s, gap, latency) && 2 in s.procs
    requires t == s.(procs := s.procs - {2})
    ensures TimedPath(c, s0, t, gap, latency) && Timed(t, gap, latency)
  {
    QuietStep(c, s0, s, Crash(2), t, gap, latency);
  }

  lemma BeatExtends(c: Crypto, s: State, sid: Sid)
    requires 2 in s.procs && s.procs[2] == BeatExtending(sid) && sid in s.rows && s.rows[sid].state == Active
    ensures Next(c, s, Run(2)) == Moved(s.(rows := ExtendIn(s.rows, sid, s.now)), 2, Done(Acknowledged(sid)))
  {
  }

  lemma BeatEnds(c: Crypto, s: State, sid: Sid)
    requires 2 in s.procs && s.procs[2] == BeatEnding(sid, Policy.HeartbeatLost)
    ensures var rows := EndIn(s.rows, sid, Policy.HeartbeatLost, s.now);
      Next(c, s, Run(2)) == Moved(s.(rows := rows), 2, Done(Terminate(sid, Policy.HeartbeatLost)))
  {
  }

  /** A heartbeat comes in and is acknowledged. */
  lemma BeatsNow(c: Crypto, s0: State, s: State, sid: Sid, gap: nat, latency: nat) returns (t: State)
    requires TimedPath(c, s0, s, gap, latency) && Timed(s, gap, latency) && gap > 0
    requires s.rows.Keys == {sid} && s.rows[sid].state == Active && s.snaps == map[] && 2 !in s.procs
    ensures TimedPath(c, s0, t, gap, latency) && Timed(t, gap, latency)
    ensures t == s.(rows := s.rows[sid := Extended(s.rows[sid], s.now)])
  {
    var u := BeatArrives(c, s0, s, sid, false, gap, latency);
    var w := Moved(u.(rows := ExtendIn(u.rows, sid, u.now)), 2, Done(Acknowledged(sid)));
    BeatExtends(c, u, sid);
    assert w.rows.Keys == {sid};
    PathStep(c, s0, u, Run(2), gap, latency);
    t := w.(procs := w.procs - {2});
    BeatLeaves(c, s0, w, t, gap, latency);
    assert t.procs == s.procs;
  }

  /** A closing heartbeat ends the session. */
  lemma ClosesNow(c: Crypto, s0: State, s: State, sid: Sid, gap: nat, latency: nat) returns (t: State)
    requires TimedPath(c, s0, s, gap, latency) && Timed(s, gap, latency)
    requires s.rows.Keys == {sid} && s.snaps == map[] && 2 !in s.procs
    ensures TimedPath(c, s0, t, gap, latency) && Timed(t, gap, latency)
    ensures t == s.(rows := s.rows[sid := Ended(s.rows[sid], Policy.HeartbeatLost, s.now)])
  {
    var u := BeatArrives(c, s0, s, sid, true, gap, latency);
    var rows := EndIn(u.rows, sid, Policy.HeartbeatLost, u.now);
    var w := Moved(u.(rows := rows), 2, Done(Terminate(sid, Policy.HeartbeatLost)));
    BeatEnds(c, u, sid);
    assert w.rows.Keys == {sid};
    PathStep(c, s0, u, Run(2), gap, latency);
    t := w.(procs := w.procs - {2});
    BeatLeaves(c, s0, w, t, gap, latency);
    assert t.procs == s.procs;
  }

  /** A millisecond, and a heartbeat. */
  lemma BeatsNext(c: Crypto, s0: State, s: State, sid: Sid, ago: nat, held: nat, gap: nat, latency: nat)
    returns (t: State)
    requires TimedPath(c, s0, s, gap, latency) && Timed(s, gap, latency) && gap >= 2 && held < latency
    requires Heard(s, sid, 0) && Holding(s, sid, ago, held)
    ensures TimedPath(c, s0, t, gap, latency) && Timed(t, gap, latency)
    ensures Heard(t, sid, 0) && Holding(t, sid, ago, held + 1)
  {
    var u := s.(now := s.now + 1);
    assert Next(c, s, Tick(1)) == u;
    PathStep(c, s0, s, Tick(1), gap, latency);
    t := BeatsNow(c, s0, u, sid, gap, latency);
    assert t.rows.Keys == {sid};
  }

  /** A heartbeat every millisecond while the liveness request waits. */
  lemma {:induction false} BeatsOn(c: Crypto, s0: State, s: State, sid: Sid, ago: nat, held: nat, until: nat,
                                   gap: nat, latency: nat)
    returns (t: State)
    requires TimedPath(c, s0, s, gap, latency) && Timed(s, gap, latency) && gap >= 2 && held <= until <= latency
    requires Heard(s, sid, 0) && Holding(s, sid, ago, held)
    ensures TimedPath(c, s0, t, gap, latency) && Timed(t, gap, latency)
    ensures Heard(t, sid, 0) && Holding(t, sid, ago, until)
    decreases until - held
  {
    if held == until {
      t := s;
    } else {
      var u := BeatsNext(c, s0, s, sid, ago, held, gap, latency);
      t := BeatsOn(c, s0, u, sid, ago, held + 1, until, gap, latency);
    }
  }

  /** Resumed 210 seconds after the heartbeat it read, the request decides to kick. */
  lemma DecidesLate(c: Crypto, s0: State, s: State, sid: Sid, ago: nat, held: nat, gap: nat, latency: nat)
    returns (t: State)
    requires TimedPath(c, s0, s, gap, latency) && Timed(s, gap, latency) && Holding(s, sid, ago, held)
    requires ago + held >= SILENCE
    ensures TimedPath(c, s0, t, gap, latency) && t.rows == s.rows && t.now == s.now
    ensures 1 in t.procs && t.procs[1].LookEnding? && t.procs[1].sid == sid
  {
    t := Moved(s, 1, LookEnding(sid, Liveness(true, Some(Policy.HeartbeatLost))));
    QuietStep(c, s0, s, Run(1), t, gap, latency);
  }

  /** How long after the heartbeat the request has to read. */
  function ReadDelay(latency: nat): nat {
    if latency >= SILENCE then 0 else SILENCE - latency
  }

  /** Whenever gap and latency exceed 210 seconds together, there is a run in which every session
      is always refreshed in time and every request is prompt, and a session heard from this
      very millisecond is kicked for silence. */
  lemma KickedWhileRefreshed(c: Crypto, sid: Sid, nonce: string, sealed: string, gameIp: string, gap: nat, latency: nat)
    returns (s0: State, t: State)
    requires c.open(sealed) == Some(nonce) && gap >= 2 && gap + latency > SILENCE
    ensures Init(s0) && TimedPath(c, s0, t, gap, latency) && Heard(t, sid, 0)
    ensures 1 in t.procs && t.procs[1].LookEnding? && t.procs[1].sid == sid
  {
    var ago := ReadDelay(latency);
    var s1;
    s0, s1 := FailsOpen(c, sid, nonce, sealed, gameIp, gap, latency);
    var s2 := ReadsAfter(c, s0, s1, sid, ago, gap, latency);
    var s3 := BeatsNow(c, s0, s2, sid, gap, latency);
    assert s3.rows.Keys == {sid};
    var s4 := BeatsOn(c, s0, s3, sid, ago, 0, SILENCE - ago, gap, latency);
    t := DecidesLate(c, s0, s4, sid, ago, SILENCE - ago, gap, latency);
  }

  /** With a gap of one millisecond no time can pass while a session is active; but it can end,
      and be kicked long after. */
  lemma KickedAfterEnd(c: Crypto, sid: Sid, nonce: string, sealed: string, gameIp: string, latency: nat)
    returns (s0: State, t: State)
    requires c.open(sealed) == Some(nonce) && latency >= SILENCE
    ensures Init(s0) && TimedPath(c, s0, t, 1, latency) && 1 in t.procs && t.procs[1].LookEnding?
  {
    var s1;
    s0, s1 := FailsOpen(c, sid, nonce, sealed, gameIp, 1, latency);
    var s2 := ReadsAfter(c, s0, s1, sid, 0, 1, latency);
    var s3 := ClosesNow(c, s0, s2, sid, 1, latency);
    assert s3.rows.Keys == {sid};
    var s4 := s3.(now := s3.now + SILENCE);
    assert Next(c, s3, Tick(SILENCE)) == s4;
    PathStep(c, s0, s3, Tick(SILENCE), 1, latency);
    t := DecidesLate(c, s0, s4, sid, 0, SILENCE, 1, latency);
  }

  // --- Exactly when nobody is kicked for silence --------------------------------------------------

  ghost predicate NobodyKicked(s: State) {
    forall pid | pid in s.procs :: !s.procs[pid].LookEnding?
  }

  ghost predicate KickFree(c: Crypto, gap: nat, latency: nat) {
    forall s: State, run: seq<Action> | Init(s) && WellTimed(c, s, run, gap, latency) :: NobodyKicked(After(c, s, run))
  }

  /** Refreshing keeps players in exactly when gap and latency stay within 210 seconds
      together (or no time at all passes between heartbeats). */
  lemma KickFreeExactly(c: Crypto, nonce: string, sealed: string, gap: nat, latency: nat)
    requires c.open(sealed) == Some(nonce)
    ensures KickFree(c, gap, latency) <==> gap == 0 || gap + latency <= SILENCE
  {
    if gap == 0 || gap + latency <= SILENCE {
      forall s: State, run: seq<Action> | Init(s) && WellTimed(c, s, run, gap, latency)
        ensures NobodyKicked(After(c, s, run))
      {
        NoKickWhileRefreshed(c, s, run, gap, latency);
      }
    } else {
      var s0, t;
      if gap == 1 {
        s0, t := KickedAfterEnd(c, 0, nonce, sealed, "", latency);
      } else {
        s0, t := KickedWhileRefreshed(c, 0, nonce, sealed, "", gap, latency);
      }
      var run :| After(c, s0, run) == t && WellTimed(c, s0, run, gap, latency);
      assert !NobodyKicked(After(c, s0, run));
    }
  }
}
