/** The connect gate as a state machine. Every SQL statement, and every resumption of a
    request between two statements, is one step; requests interleave freely. */
module Gate {
  import opened Common
  import opened Sessions
  import Policy
  import Remediation

  type Pid = nat

  /** The digest of a nonce, and the opening of a sealed one. */
  datatype Crypto = Crypto(hash: string -> string, open: string -> Option<string>)

  datatype Answer =
    | NotFound
    | UnknownNonce
    | ExpiredNonce
    | ReusedNonce
    | Accepted(sid: Sid, verdict: Verdict)
    | VerdictAnswer(sid: Sid, verdict: Verdict)
    | Acknowledged(sid: Sid)
    | Terminate(sid: Sid, reason: Reason)
    | LivenessAnswer(sid: Sid, liveness: Liveness)

  /** A request in flight: where it stands and what it has read. */
  datatype Proc =
    // POST /v1/attest
    | Attesting(nonceHash: string, snapshot: Policy.Snapshot, ip: string)
    | Refused(nonceHash: string)
    | Claiming(sid: Sid, session: Row, snapshot: Policy.Snapshot, ip: string)
    | Storing(sid: Sid, session: Row, snapshot: Policy.Snapshot, ip: string)
    | Judging(sid: Sid, session: Row, snapshot: Policy.Snapshot, ip: string, accepted: bool)
    // POST /v1/sessions/verdict
    | Polling(tenant: Tenant, nonceHash: string, deadline: nat, mode: Remediation.FailMode)
    | PollGot(tenant: Tenant, nonceHash: string, deadline: nat, mode: Remediation.FailMode, sid: Sid, row: Row)
    | PollWriting(tenant: Tenant, sid: Sid, verdict: Verdict)
    // POST /v1/sessions/heartbeat
    | Beating(sid: Sid, build: string, closing: bool, gamePresent: bool)
    | BeatFound(sid: Sid, build: string, closing: bool, gamePresent: bool)
    | BeatEnding(sid: Sid, reason: Reason)
    | BeatExtending(sid: Sid)
    // GET /v1/sessions/:sessionId/liveness
    | Looking(tenant: Tenant, sid: Sid)
    | LookGot(sid: Sid, row: Row, readAt: nat)
    | LookEnding(sid: Sid, liveness: Liveness)
    | Done(answer: Answer)

  datatype Request =
    | AttestRequest(nonce: string, snapshot: Policy.Snapshot, ip: string)
    | VerdictRequest(tenant: Tenant, nonce: string)
    | HeartbeatRequest(sid: Sid, build: string, closing: bool, gamePresent: bool)
    | LivenessRequest(tenant: Tenant, sid: Sid)

  /** `everAccepted` and `everOpen` remember which builds were ever accepted and which tenants
      ever failed open. */
  datatype State = State(
    now: nat,
    rows: Table,
    snaps: Snapshots,
    builds: set<string>,
    everAccepted: set<string>,
    open: set<Tenant>,
    everOpen: set<Tenant>,
    procs: map<Pid, Proc>)

  datatype Action =
    | Tick(ms: nat)
    | Create(sid: Sid, tenant: Tenant, nonce: string, sealed: string, gameIp: string, tier: Policy.Tier)
    | Sweep
    | SetBuild(build: string, accepted: bool)
    | SetFailMode(tenant: Tenant, mode: Remediation.FailMode)
    | Spawn(pid: Pid, request: Request)
    | Crash(pid: Pid)
    | Run(pid: Pid)

  ghost predicate Init(s: State) {
    s.rows == map[] && s.snaps == map[] && s.procs == map[] && s.everAccepted == s.builds && s.everOpen == s.open
  }

  // --- Requests, step by step ----------------------------------------------------

  function Start(c: Crypto, s: State, request: Request): Proc {
    match request
    case AttestRequest(nonce, snapshot, ip) => Attesting(c.hash(nonce), snapshot, ip)
    case VerdictRequest(tenant, nonce) =>
      Polling(tenant, c.hash(nonce), s.now + VERDICT_POLL_TIMEOUT,
        if tenant in s.open then Remediation.FailOpen else Remediation.FailClosed)
    case HeartbeatRequest(sid, build, closing, gamePresent) => Beating(sid, build, closing, gamePresent)
    case LivenessRequest(tenant, sid) => Looking(tenant, sid)
  }

  function Moved(s: State, pid: Pid, p: Proc): State {
    s.(procs := s.procs[pid := p])
  }

  function PolicyInput(session: Row, snapshot: Policy.Snapshot, ip: string, accepted: bool): Policy.Input {
    Policy.Input(session.tier, snapshot, session.gameIp, ip, accepted)
  }

  function JudgedVerdict(session: Row, snapshot: Policy.Snapshot, ip: string, accepted: bool): Verdict {
    Remediation.PolicyVerdict(PolicyInput(session, snapshot, ip, accepted))
  }

  /** The next step of `processAttestation`. */
  ghost function Attest(s: State, pid: Pid, p: Proc): State {
    match p
    case Attesting(nonceHash, snapshot, ip) =>
      (match Claimable(s.rows, nonceHash, s.now)
       case None => Moved(s, pid, Refused(nonceHash))
       case Some(id) =>
         var rows := ClaimIn(s.rows, nonceHash, ip, s.now);
         Moved(s.(rows := rows), pid, Claiming(id, rows[id], snapshot, ip)))
    case Refused(nonceHash) =>
      Moved(s, pid, Done(
        match Holder(s.rows, nonceHash)
        case None => UnknownNonce
        case Some(id) => if s.rows[id].consumedAt.Some? then ReusedNonce else ExpiredNonce))
    case Claiming(sid, session, snapshot, ip) =>
      Moved(s.(snaps := Stored(s.snaps, sid, snapshot)), pid, Storing(sid, session, snapshot, ip))
    case Storing(sid, session, snapshot, ip) =>
      Moved(s, pid, Judging(sid, session, snapshot, ip, snapshot.buildHash in s.builds))
    case Judging(sid, session, snapshot, ip, accepted) =>
      var verdict := JudgedVerdict(session, snapshot, ip, accepted);
      Moved(s.(rows := RecordIn(s.rows, session.tenant, sid, verdict, s.now)), pid, Done(Accepted(sid, verdict)))
    case _ => s
  }

  /** The next step of the verdict long poll. */
  ghost function Poll(s: State, pid: Pid, p: Proc): State {
    match p
    case Polling(tenant, nonceHash, deadline, mode) =>
      (match Holder(s.rows, nonceHash)
       case Some(id) =>
         if s.rows[id].tenant == tenant
         then Moved(s, pid, PollGot(tenant, nonceHash, deadline, mode, id, s.rows[id]))
         else Moved(s, pid, Done(NotFound))
       case None => Moved(s, pid, Done(NotFound)))
    case PollGot(tenant, nonceHash, deadline, mode, sid, row) =>
      if row.verdict.Some? then Moved(s, pid, Done(VerdictAnswer(sid, row.verdict.value)))
      else if s.now >= deadline then Moved(s, pid, PollWriting(tenant, sid, Remediation.TimeoutVerdict(mode)))
      else Moved(s, pid, Polling(tenant, nonceHash, deadline, mode))
    case PollWriting(tenant, sid, verdict) =>
      Moved(s.(rows := RecordIn(s.rows, tenant, sid, verdict, s.now)), pid, Done(VerdictAnswer(sid, verdict)))
    case _ => s
  }

  /** The next step of the heartbeat handler. */
  function Beat(s: State, pid: Pid, p: Proc): State {
    match p
    case Beating(sid, build, closing, gamePresent) =>
      Moved(s, pid, if sid in s.rows then BeatFound(sid, build, closing, gamePresent) else Done(NotFound))
    case BeatFound(sid, build, closing, gamePresent) =>
      var current := CurrentBuild(s.snaps, sid);
      Moved(s, pid,
        if current.Some? && current.value != build then BeatEnding(sid, Policy.CompanionOutdated)
        else if closing then BeatEnding(sid, Policy.HeartbeatLost)
        else if !gamePresent then BeatEnding(sid, Policy.GameProcessMissing)
        else BeatExtending(sid))
    case BeatEnding(sid, reason) =>
      Moved(s.(rows := EndIn(s.rows, sid, reason, s.now)), pid, Done(Terminate(sid, reason)))
    case BeatExtending(sid) =>
      Moved(s.(rows := ExtendIn(s.rows, sid, s.now)), pid,
        Done(if sid in s.rows && s.rows[sid].state == Active then Acknowledged(sid)
             else Terminate(sid, Policy.HeartbeatLost)))
    case _ => s
  }

  /** The next step of the liveness handler. */
  function Look(s: State, pid: Pid, p: Proc): State {
    match p
    case Looking(tenant, sid) =>
      Moved(s, pid,
        if sid in s.rows && s.rows[sid].tenant == tenant then LookGot(sid, s.rows[sid], s.now) else Done(NotFound))
    case LookGot(sid, row, _) =>
      var liveness := BuildLiveness(row, s.now);
      Moved(s, pid,
        if liveness.shouldKick && row.state != Terminated then LookEnding(sid, liveness)
        else Done(LivenessAnswer(sid, liveness)))
    case LookEnding(sid, liveness) =>
      var reason := match liveness.reason case Some(r) => r case None => Policy.HeartbeatLost;
      Moved(s.(rows := EndIn(s.rows, sid, reason, s.now)), pid, Done(LivenessAnswer(sid, liveness)))
    case _ => s
  }

  // --- Reads that keep nothing between two polls ------------------------------------

  datatype PendingAnswer = NonePending | Ambiguous | Unopened | Handed(sid: Sid, nonce: string)

  /** One round of the companion's poll for a nonce, from a normalised origin. */
  ghost function PendingRead(c: Crypto, s: State, origin: string): PendingAnswer {
    var pending := PendingFor(s.rows, origin, s.now);
    if |pending| > 1 then Ambiguous
    else if pending == {} then NonePending
    else
      var sid :| sid in pending;
      match s.rows[sid].sealed
      case None => NonePending
      case Some(sealed) =>
        match c.open(sealed)
        case None => Unopened
        case Some(nonce) => Handed(sid, nonce)
  }

  /** One round of the companion's poll for the outcome of its attestation. */
  function OutcomeRead(s: State, sid: Sid, ip: string): Option<Verdict> {
    if sid !in s.rows then None
    else
      var row := s.rows[sid];
      if row.attestationIp.Some? && Policy.NormaliseIp(row.attestationIp.value) != Policy.NormaliseIp(ip) then None
      else row.verdict
  }

  // --- Runs ------------------------------------------------------------------------

  ghost predicate Enabled(c: Crypto, s: State, a: Action) {
    match a
    case Create(sid, _, nonce, sealed, _, _) =>
      sid !in s.rows && Holder(s.rows, c.hash(nonce)) == None && c.open(sealed) == Some(nonce)
    case Spawn(pid, _) => pid !in s.procs
    case Crash(pid) => pid in s.procs
    case Run(pid) => pid in s.procs
    case _ => true
  }

  ghost function Advance(s: State, pid: Pid, p: Proc): State {
    if p.Attesting? || p.Refused? || p.Claiming? || p.Storing? || p.Judging? then Attest(s, pid, p)
    else if p.Polling? || p.PollGot? || p.PollWriting? then Poll(s, pid, p)
    else if p.Beating? || p.BeatFound? || p.BeatEnding? || p.BeatExtending? then Beat(s, pid, p)
    else Look(s, pid, p)
  }

  ghost function Apply(c: Crypto, s: State, a: Action): State
    requires Enabled(c, s, a)
  {
    match a
    case Tick(ms) => s.(now := s.now + ms)
    case Create(sid, tenant, nonce, sealed, gameIp, tier) =>
      s.(rows := s.rows[sid := NewRow(tenant, c.hash(nonce), sealed, gameIp, tier, s.now)])
    case Sweep => s.(rows := SweepAll(s.rows, s.now))
    case SetBuild(build, accepted) =>
      if accepted then s.(builds := s.builds + {build}, everAccepted := s.everAccepted + {build})
      else s.(builds := s.builds - {build})
    case SetFailMode(tenant, mode) =>
      if mode == Remediation.FailOpen then s.(open := s.open + {tenant}, everOpen := s.everOpen + {tenant})
      else s.(open := s.open - {tenant})
    case Spawn(pid, request) => Moved(s, pid, Start(c, s, request))
    case Crash(pid) => s.(procs := s.procs - {pid})
    case Run(pid) => Advance(s, pid, s.procs[pid])
  }

  /** A step that is not enabled does not happen. */
  ghost function Next(c: Crypto, s: State, a: Action): State {
    if Enabled(c, s, a) then Apply(c, s, a) else s
  }

  ghost function After(c: Crypto, s: State, run: seq<Action>): State {
    if run == [] then s else Next(c, After(c, s, run[..|run| - 1]), run[|run| - 1])
  }

  ghost predicate Reachable(c: Crypto, s: State) {
    exists s0, run :: Init(s0) && After(c, s0, run) == s
  }
}
