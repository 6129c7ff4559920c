/** What an admission rests on, in every run of the connect gate. */
module GateAdmission {
  import opened Common
  import opened Sessions
  import opened Gate
  import opened GateInvariant
  import opened GateSafety
  import Policy
  import Remediation

  // --- Admission -------------------------------------------------------------------

  /** The evidence behind an admission: a nonce claimed in time, the one snapshot stored, a
      build that has been on the list, and a policy that allows the snapshot at the session's
      tier, from matching addresses. */
  ghost predicate Admitted(s: State, sid: Sid) {
    && sid in s.rows
    && var r := s.rows[sid];
      && r.consumedAt.Some? && r.consumedAt.value < r.expiresAt
      && r.attestationIp.Some?
      && sid in s.snaps && |s.snaps[sid]| == 1
      && s.snaps[sid][0].buildHash in s.everAccepted
      && Policy.Evaluate(Policy.InForce(r.tier), PolicyInput(r, s.snaps[sid][0], r.attestationIp.value, true)).decision
           == Policy.Allow
      && Policy.NormaliseIp(r.gameIp) == Policy.NormaliseIp(r.attestationIp.value)
  }

  lemma AllowNeedsBuildAndOrigin(input: Policy.Input)
    requires Remediation.PolicyVerdict(input).decision == Policy.Allow
    ensures input.buildAccepted && Policy.NormaliseIp(input.gameIp) == Policy.NormaliseIp(input.attestationIp)
  {
    Policy.AllowedExactly(Policy.InForce(input.tier), input);
    assert Policy.InForce(input.tier)(Policy.NetworkOriginMatches) == Policy.Block;
    assert Policy.Find(input, Policy.NetworkOriginMatches).met == Policy.Yes;
  }

  lemma JudgedAllowIsAdmitted(c: Crypto, s: State, sid: Sid, v: Verdict, accepted: bool)
    requires Inv(c, s) && sid in s.rows && Judged(s, sid, v, accepted) && v.decision == Policy.Allow
    ensures Admitted(s, sid)
  {
    var r := s.rows[sid];
    AllowNeedsBuildAndOrigin(PolicyInput(r, s.snaps[sid][0], r.attestationIp.value, accepted));
  }

  /** An `allow` that is not marked as failed open has its evidence, whoever was told. */
  lemma ExplainedAllowIsAdmitted(c: Crypto, s: State, sid: Sid, v: Verdict)
    requires Inv(c, s) && Explained(s, sid, v) && v.decision == Policy.Allow && !v.failOpen
    ensures Admitted(s, sid)
  {
    if Judged(s, sid, v, true) {
      JudgedAllowIsAdmitted(c, s, sid, v, true);
    } else {
      JudgedAllowIsAdmitted(c, s, sid, v, false);
    }
  }

  /** The verdict an answer carries: to the resource's poll, or to the companion. */
  function AnsweredVerdict(p: Proc): Option<(Sid, Verdict)> {
    match p
    case Done(Accepted(sid, v)) => Some((sid, v))
    case Done(VerdictAnswer(sid, v)) => Some((sid, v))
    case _ => None
  }

  // --- The build was on the list while the attestation was judged ------------------------

  /** An `allow` that is not marked as failed open. */
  predicate Unmarked(v: Verdict) {
    v.decision == Policy.Allow && !v.failOpen
  }

  /** An attestation holds the session's claim, its verdict still to be recorded, and its build
      is on the list. */
  ghost predicate ListedWhileClaimed(s: State, sid: Sid, build: string) {
    && sid in s.rows && s.rows[sid].consumedAt.Some? && build in s.builds
    && exists pid :: pid in s.procs && Claims(s.procs[pid], sid) && s.procs[pid].snapshot.buildHash == build
  }

  /** So it was at some moment of the run. */
  ghost predicate AcceptedDuring(c: Crypto, s: State, run: seq<Action>, sid: Sid, build: string) {
    exists n :: 0 <= n <= |run| && ListedWhileClaimed(After(c, s, run[..n]), sid, build)
  }

  lemma AcceptedLater(c: Crypto, s: State, run: seq<Action>, sid: Sid, build: string)
    requires run != []
    ensures AcceptedDuring(c, s, run[..|run| - 1], sid, build) ==> AcceptedDuring(c, s, run, sid, build)
    ensures ListedWhileClaimed(After(c, s, run[..|run| - 1]), sid, build) ==> AcceptedDuring(c, s, run, sid, build)
  {
    var front := run[..|run| - 1];
    if AcceptedDuring(c, s, front, sid, build) {
      var n :| 0 <= n <= |front| && ListedWhileClaimed(After(c, s, front[..n]), sid, build);
      assert front[..n] == run[..n];
    }
  }

  /** The request is about to store this verdict. */
  predicate AboutToStore(p: Proc, sid: Sid, v: Verdict) {
    p.Judging? && p.sid == sid && v == JudgedVerdict(p.session, p.snapshot, p.ip, p.accepted)
  }

  ghost predicate SomeoneAboutToStore(s: State, sid: Sid, v: Verdict) {
    exists pid :: pid in s.procs && AboutToStore(s.procs[pid], sid, v)
  }

  predicate HasVerdict(s: State, sid: Sid, v: Verdict) {
    sid in s.rows && s.rows[sid].verdict == Some(v)
  }

  lemma UnlistedIsDenied(session: Row, snapshot: Policy.Snapshot, ip: string)
    ensures JudgedVerdict(session, snapshot, ip, false).decision == Policy.Deny
  {
    Policy.AllowedExactly(Policy.InForce(session.tier), PolicyInput(session, snapshot, ip, false));
  }

  lemma AttestStores(s: State, pid: Pid, p: Proc, sid: Sid, v: Verdict)
    requires HasVerdict(Attest(s, pid, p), sid, v)
    ensures HasVerdict(s, sid, v) || AboutToStore(p, sid, v)
  {
  }

  lemma PollStores(s: State, pid: Pid, p: Proc, sid: Sid, v: Verdict)
    requires ProcOk(s, p) && HasVerdict(Poll(s, pid, p), sid, v) && Unmarked(v)
    ensures HasVerdict(s, sid, v)
  {
  }

  lemma OthersStoreNothing(s: State, pid: Pid, p: Proc, sid: Sid, v: Verdict)
    ensures HasVerdict(Beat(s, pid, p), sid, v) ==> HasVerdict(s, sid, v)
    ensures HasVerdict(Look(s, pid, p), sid, v) ==> HasVerdict(s, sid, v)
  {
  }

  /** Where a newly stored unmarked `allow` comes from. */
  lemma NextStores(c: Crypto, s: State, a: Action, sid: Sid, v: Verdict)
    requires ProcsOk(s) && HasVerdict(Next(c, s, a), sid, v) && Unmarked(v)
    ensures HasVerdict(s, sid, v) || SomeoneAboutToStore(s, sid, v)
  {
    if a.Run? && a.pid in s.procs {
      var p := s.procs[a.pid];
      assert ProcOk(s, p);
      if p.Attesting? || p.Refused? || p.Claiming? || p.Storing? || p.Judging? {
        AttestStores(s, a.pid, p, sid, v);
      } else if p.Polling? || p.PollGot? || p.PollWriting? {
        PollStores(s, a.pid, p, sid, v);
      } else {
        OthersStoreNothing(s, a.pid, p, sid, v);
      }
    }
  }

  lemma AttestJudges(s: State, pid: Pid, p: Proc, sid: Sid, v: Verdict)
    requires ProcOk(s, p) && pid in s.procs && s.procs[pid] == p && Unmarked(v)
    requires p.Attesting? || p.Refused? || p.Claiming? || p.Storing? || p.Judging?
    requires AboutToStore(Attest(s, pid, p).procs[pid], sid, v)
    ensures sid in s.snaps && |s.snaps[sid]| == 1 && ListedWhileClaimed(s, sid, s.snaps[sid][0].buildHash)
  {
    UnlistedIsDenied(p.session, p.snapshot, p.ip);
  }

  /** Where a newly judged unmarked `allow` comes from: a list that had the build. */
  lemma NextJudges(c: Crypto, s: State, a: Action, sid: Sid, v: Verdict)
    requires ProcsOk(s) && SomeoneAboutToStore(Next(c, s, a), sid, v) && Unmarked(v)
    ensures SomeoneAboutToStore(s, sid, v)
      || (sid in s.snaps && |s.snaps[sid]| == 1 && ListedWhileClaimed(s, sid, s.snaps[sid][0].buildHash))
  {
    var t := Next(c, s, a);
    var q :| q in t.procs && AboutToStore(t.procs[q], sid, v);
    if a == Run(q) && q in s.procs {
      assert ProcOk(s, s.procs[q]);
      OneMoves(s, q, s.procs[q]);
      AttestJudges(s, q, s.procs[q], sid, v);
    } else {
      OthersStay(c, s, a, q);
    }
  }

  /** Whoever a step does not run stays, or has just come in. */
  lemma OthersStay(c: Crypto, s: State, a: Action, q: Pid)
    requires a != Run(q) && q in Next(c, s, a).procs
    ensures q in s.procs ==> Next(c, s, a).procs[q] == s.procs[q]
    ensures q !in s.procs ==> var p := Next(c, s, a).procs[q]; p.Attesting? || p.Polling? || p.Beating? || p.Looking?
  {
    if a.Run? && a.pid in s.procs { OneMoves(s, a.pid, s.procs[a.pid]); }
  }

  /** A step of a request changes no other, and only an attestation comes to hold a judgement. */
  lemma OneMoves(s: State, pid: Pid, p: Proc)
    requires pid in s.procs && s.procs[pid] == p
    ensures forall q | q != pid && q in Advance(s, pid, p).procs ::
      q in s.procs && Advance(s, pid, p).procs[q] == s.procs[q]
    ensures pid in Advance(s, pid, p).procs
    ensures Advance(s, pid, p).procs[pid].Judging? ==>
      (p.Attesting? || p.Refused? || p.Claiming? || p.Storing? || p.Judging?)
      && Advance(s, pid, p) == Attest(s, pid, p)
  {
  }

  // --- Along a run --------------------------------------------------------------------------

  /** The build of the session's one stored snapshot was on the list at some moment of the run
      while the session's attestation was claimed and not yet decided. */
  ghost predicate BuildAccepted(c: Crypto, s: State, run: seq<Action>, sid: Sid) {
    var t := After(c, s, run);
    sid in t.snaps && |t.snaps[sid]| == 1 && AcceptedDuring(c, s, run, sid, t.snaps[sid][0].buildHash)
  }

  lemma BuildAcceptedLater(c: Crypto, s: State, run: seq<Action>, sid: Sid)
    requires Inv(c, s) && run != []
    ensures var front := run[..|run| - 1];
      var t := After(c, s, front);
      (BuildAccepted(c, s, front, sid)
       || (sid in t.snaps && |t.snaps[sid]| == 1 && ListedWhileClaimed(t, sid, t.snaps[sid][0].buildHash)))
      ==> BuildAccepted(c, s, run, sid)
  {
    var front := run[..|run| - 1];
    var t := After(c, s, front);
    AfterKeeps(c, s, front);
    NextKeeps(c, t, run[|run| - 1]);
    if sid in t.snaps && |t.snaps[sid]| == 1 { AcceptedLater(c, s, run, sid, t.snaps[sid][0].buildHash); }
  }

  /** An unmarked `allow` stored at the end of a run was stored, or judged, at its start, or
      its build was accepted on the way. */
  lemma {:induction false} AllowAccepted(c: Crypto, s: State, run: seq<Action>, sid: Sid, v: Verdict)
    requires Inv(c, s) && Unmarked(v)
    ensures var t := After(c, s, run);
      HasVerdict(t, sid, v) || SomeoneAboutToStore(t, sid, v) ==>
        HasVerdict(s, sid, v) || SomeoneAboutToStore(s, sid, v) || BuildAccepted(c, s, run, sid)
  {
    if run != [] {
      var front, a := run[..|run| - 1], run[|run| - 1];
      var t := After(c, s, front);
      AfterKeeps(c, s, front);
      AllowAccepted(c, s, front, sid, v);
      BuildAcceptedLater(c, s, run, sid);
      if HasVerdict(Next(c, t, a), sid, v) { NextStores(c, t, a, sid, v); }
      if SomeoneAboutToStore(Next(c, t, a), sid, v) { NextJudges(c, t, a, sid, v); }
    }
  }

  /** The request tells, or is about to tell, someone this verdict. */
  predicate Tells(p: Proc, sid: Sid, v: Verdict) {
    (p.PollGot? && p.sid == sid && p.row.verdict == Some(v)) || AnsweredVerdict(p) == Some((sid, v))
  }

  ghost predicate SomeoneTells(s: State, sid: Sid, v: Verdict) {
    exists pid :: pid in s.procs && Tells(s.procs[pid], sid, v)
  }

  lemma AdvanceTells(s: State, pid: Pid, p: Proc, sid: Sid, v: Verdict)
    requires ProcOk(s, p) && pid in s.procs && s.procs[pid] == p && Unmarked(v)
    requires pid in Advance(s, pid, p).procs && Tells(Advance(s, pid, p).procs[pid], sid, v)
    ensures Tells(p, sid, v) || HasVerdict(s, sid, v) || AboutToStore(p, sid, v)
  {
  }

  lemma NextTells(c: Crypto, s: State, a: Action, sid: Sid, v: Verdict)
    requires ProcsOk(s) && SomeoneTells(Next(c, s, a), sid, v) && Unmarked(v)
    ensures SomeoneTells(s, sid, v) || HasVerdict(s, sid, v) || SomeoneAboutToStore(s, sid, v)
  {
    var t := Next(c, s, a);
    var q :| q in t.procs && Tells(t.procs[q], sid, v);
    if a == Run(q) && q in s.procs {
      assert ProcOk(s, s.procs[q]);
      AdvanceTells(s, q, s.procs[q], sid, v);
    } else {
      OthersStay(c, s, a, q);
    }
  }

  lemma {:induction false} ToldAccepted(c: Crypto, s: State, run: seq<Action>, sid: Sid, v: Verdict)
    requires Init(s) && Unmarked(v)
    ensures var t := After(c, s, run);
      HasVerdict(t, sid, v) || SomeoneTells(t, sid, v) ==> BuildAccepted(c, s, run, sid)
  {
    AllowAccepted(c, s, run, sid, v);
    if run != [] {
      var front, a := run[..|run| - 1], run[|run| - 1];
      AfterKeeps(c, s, front);
      ToldAccepted(c, s, front, sid, v);
      AllowAccepted(c, s, front, sid, v);
      BuildAcceptedLater(c, s, run, sid);
      if SomeoneTells(After(c, s, run), sid, v) { NextTells(c, After(c, s, front), a, sid, v); }
    }
  }

  lemma ToldIsExplained(s: State, sid: Sid, v: Verdict)
    requires ProcsOk(s) && SomeoneTells(s, sid, v)
    ensures Explained(s, sid, v)
  {
    var pid :| pid in s.procs && Tells(s.procs[pid], sid, v);
    assert ProcOk(s, s.procs[pid]);
  }

  // --- The theorems -----------------------------------------------------------------------------

  /** Admission safety, over all interleavings: a stored or answered `allow` with `failOpen`
      false rests on evidence, with a build that was accepted between claim and verdict. */
  lemma AdmissionSafety(c: Crypto, s: State, run: seq<Action>, sid: Sid, v: Verdict)
    requires Init(s) && Unmarked(v)
    requires HasVerdict(After(c, s, run), sid, v) || SomeoneTells(After(c, s, run), sid, v)
    ensures Admitted(After(c, s, run), sid) && BuildAccepted(c, s, run, sid)
  {
    var t := After(c, s, run);
    AfterKeeps(c, s, run);
    ToldAccepted(c, s, run, sid, v);
    if SomeoneTells(t, sid, v) { ToldIsExplained(t, sid, v); }
    ExplainedAllowIsAdmitted(c, t, sid, v);
  }

  /** A tenant that has always failed closed has evidence for every active session. */
  lemma FailClosedSafety(c: Crypto, s: State, run: seq<Action>, sid: Sid)
    requires Init(s)
    requires var t := After(c, s, run);
      sid in t.rows && t.rows[sid].state == Active && t.rows[sid].tenant !in t.everOpen
    ensures Admitted(After(c, s, run), sid) && BuildAccepted(c, s, run, sid)
  {
    var t := After(c, s, run);
    AfterKeeps(c, s, run);
    assert RowOk(c, t.rows[sid], t.now);
    AdmissionSafety(c, s, run, sid, t.rows[sid].verdict.value);
  }

  predicate NeverListed(run: seq<Action>, build: string) {
    SetBuild(build, true) !in run
  }

  lemma {:induction false} StaysUnlisted(c: Crypto, s: State, run: seq<Action>, build: string, n: nat)
    requires build !in s.builds && NeverListed(run, build) && n <= |run|
    ensures build !in After(c, s, run[..n]).builds
  {
    if n > 0 {
      assert run[..n][..n - 1] == run[..n - 1];
      StaysUnlisted(c, s, run, build, n - 1);
      NextUnlisted(c, After(c, s, run[..n - 1]), run[n - 1], build);
    } else {
      assert run[..0] == [];
    }
  }

  lemma NextUnlisted(c: Crypto, s: State, a: Action, build: string)
    requires build !in s.builds && a != SetBuild(build, true)
    ensures build !in Next(c, s, a).builds
  {
  }

  lemma JudgedWhileListed(s: State, t: State, build: string, sid: Sid, v: Verdict)
    requires ProcsOk(s) && Grows(s, t) && SnapsOk(t) && SomeoneAboutToStore(s, sid, v) && Unmarked(v)
    requires CurrentBuild(t.snaps, sid) == Some(build)
    ensures exists pid ::
      pid in s.procs && s.procs[pid].Judging? && s.procs[pid].accepted && s.procs[pid].snapshot.buildHash == build
  {
    var pid :| pid in s.procs && AboutToStore(s.procs[pid], sid, v);
    var p := s.procs[pid];
    assert ProcOk(s, p);
    UnlistedIsDenied(p.session, p.snapshot, p.ip);
  }

  /** A build taken off the list admits nobody any more, once no judgement made while it was on
      the list is left to be stored: until it is listed again, every unmarked `allow` on it that
      a run ends with was there at its start. */
  lemma RevokedBuildAdmitsNobody(c: Crypto, s: State, run: seq<Action>, build: string, sid: Sid, v: Verdict)
    requires Inv(c, s) && build !in s.builds && NeverListed(run, build) && Unmarked(v)
    requires forall pid | pid in s.procs && s.procs[pid].Judging? && s.procs[pid].accepted ::
      s.procs[pid].snapshot.buildHash != build
    requires HasVerdict(After(c, s, run), sid, v)
    requires CurrentBuild(After(c, s, run).snaps, sid) == Some(build)
    ensures HasVerdict(s, sid, v)
  {
    AllowAccepted(c, s, run, sid, v);
    AfterKeeps(c, s, run);
    if SomeoneAboutToStore(s, sid, v) { JudgedWhileListed(s, After(c, s, run), build, sid, v); }
    if BuildAccepted(c, s, run, sid) {
      var n :| 0 <= n <= |run| && ListedWhileClaimed(After(c, s, run[..n]), sid, build);
      StaysUnlisted(c, s, run, build, n);
    }
  }

  /** The companion's question is answered exactly for a decided session, and once the nonce is
      claimed only to the address that claimed it; an unmarked `allow` is only ever disclosed
      to that address, and rests on evidence. */
  lemma OutcomeDisclosed(c: Crypto, s: State, run: seq<Action>, sid: Sid, ip: string)
    requires Init(s)
    ensures var t := After(c, s, run);
      && (OutcomeRead(t, sid, ip).Some? <==>
            && sid in t.rows && t.rows[sid].verdict.Some?
            && (t.rows[sid].consumedAt.Some? ==>
                  (t.rows[sid].attestationIp.Some?
                   && Policy.NormaliseIp(t.rows[sid].attestationIp.value) == Policy.NormaliseIp(ip))))
      && (OutcomeRead(t, sid, ip).Some? && Unmarked(OutcomeRead(t, sid, ip).value) ==>
            && Admitted(t, sid) && BuildAccepted(c, s, run, sid)
            && Policy.NormaliseIp(t.rows[sid].attestationIp.value) == Policy.NormaliseIp(ip))
  {
    var t := After(c, s, run);
    AfterKeeps(c, s, run);
    if sid in t.rows {
      assert RowOk(c, t.rows[sid], t.now);
      if t.rows[sid].verdict.Some? && Unmarked(t.rows[sid].verdict.value) {
        AdmissionSafety(c, s, run, sid, t.rows[sid].verdict.value);
      }
    }
  }
}
