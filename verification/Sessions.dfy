/** The session table: what each SQL statement does to a row, and the store whose methods run
    the statements. Times are milliseconds on one clock. */
module Sessions {
  import opened Common
  import Policy
  import Remediation

  type Sid = nat
  type Tenant = nat
  type Verdict = Remediation.Verdict
  type Reason = Policy.DenyReason

  datatype SessionState = Pending | Attested | Active | Expired | Terminated

  /** `consumedAt` is also `attested_at`: one statement writes both. The verdict columns are
      all written together, and undecided is `None`. */
  datatype Row = Row(
    tenant: Tenant,
    nonceHash: string,
    sealed: Option<string>,
    gameIp: string,
    tier: Policy.Tier,
    state: SessionState,
    issuedAt: nat,
    expiresAt: nat,
    consumedAt: Option<nat>,
    attestationIp: Option<string>,
    verdict: Option<Verdict>,
    evaluatedAt: Option<nat>,
    lastHeartbeat: Option<nat>,
    terminatedAt: Option<nat>,
    terminationReason: Option<Reason>)

  type Table = map<Sid, Row>
  type Snapshots = map<Sid, seq<Policy.Snapshot>>

  const NONCE_TTL: nat := 30_000
  const HEARTBEAT_INTERVAL: nat := 120_000
  const HEARTBEAT_GRACE: nat := 90_000
  const VERDICT_POLL_TIMEOUT: nat := 20_000

  // --- Single rows ---------------------------------------------------------------

  function NewRow(tenant: Tenant, nonceHash: string, sealed: string, gameIp: string, tier: Policy.Tier, now: nat): Row {
    Row(tenant, nonceHash, Some(sealed), gameIp, tier, Pending, now, now + NONCE_TTL,
        None, None, None, None, None, None, None)
  }

  /** The nonce is still there to be claimed. */
  predicate Live(r: Row, now: nat) {
    r.consumedAt.None? && r.expiresAt > now
  }

  function Claimed(r: Row, ip: string, now: nat): Row {
    r.(consumedAt := Some(now), attestationIp := Some(ip), sealed := None, state := Attested)
  }

  function Recorded(r: Row, v: Verdict, now: nat): Row {
    r.(verdict := Some(v),
       evaluatedAt := Some(now),
       state := if v.decision == Policy.Allow then Active else Terminated,
       lastHeartbeat := if v.decision == Policy.Allow then Some(now) else r.lastHeartbeat)
  }

  function Extended(r: Row, now: nat): Row {
    if r.state == Active then r.(lastHeartbeat := Some(now)) else r
  }

  function Ended(r: Row, reason: Reason, now: nat): Row {
    if r.state == Terminated then r
    else r.(state := Terminated, terminatedAt := Some(now), terminationReason := Some(reason))
  }

  predicate Stale(r: Row, now: nat) {
    r.state == Pending && r.expiresAt < now
  }

  function Lapsed(r: Row, now: nat): Row {
    if Stale(r, now) then r.(state := Expired) else r
  }

  // --- Statements on the table --------------------------------------------------------

  /** `nonce_hash` is unique. */
  ghost predicate HashesUnique(t: Table) {
    forall i, j | i in t && j in t && t[i].nonceHash == t[j].nonceHash :: i == j
  }

  ghost function Holder(t: Table, nonceHash: string): (r: Option<Sid>)
    ensures r.Some? ==> r.value in t && t[r.value].nonceHash == nonceHash
    ensures r.None? ==> forall id | id in t :: t[id].nonceHash != nonceHash
  {
    if exists id :: id in t && t[id].nonceHash == nonceHash then
      var id :| id in t && t[id].nonceHash == nonceHash;
      Some(id)
    else None
  }

  /** The row the claiming UPDATE matches. */
  ghost function Claimable(t: Table, nonceHash: string, now: nat): Option<Sid> {
    match Holder(t, nonceHash)
    case None => None
    case Some(id) => if Live(t[id], now) then Some(id) else None
  }

  ghost function ClaimIn(t: Table, nonceHash: string, ip: string, now: nat): Table {
    match Claimable(t, nonceHash, now)
    case None => t
    case Some(id) => t[id := Claimed(t[id], ip, now)]
  }

  function RecordIn(t: Table, tenant: Tenant, id: Sid, v: Verdict, now: nat): Table {
    if id in t && t[id].tenant == tenant then t[id := Recorded(t[id], v, now)] else t
  }

  function ExtendIn(t: Table, id: Sid, now: nat): Table {
    if id in t then t[id := Extended(t[id], now)] else t
  }

  function EndIn(t: Table, id: Sid, reason: Reason, now: nat): Table {
    if id in t then t[id := Ended(t[id], reason, now)] else t
  }

  function SweepAll(t: Table, now: nat): (r: Table)
    ensures r.Keys == t.Keys && forall id | id in t :: r[id] == Lapsed(t[id], now)
  {
    map id | id in t :: Lapsed(t[id], now)
  }

  function Stored(snaps: Snapshots, id: Sid, snapshot: Policy.Snapshot): Snapshots {
    snaps[id := (if id in snaps then snaps[id] else []) + [snapshot]]
  }

  /** The build of the snapshot received last. */
  function CurrentBuild(snaps: Snapshots, id: Sid): Option<string> {
    if id in snaps && snaps[id] != [] then Some(snaps[id][|snaps[id]| - 1].buildHash) else None
  }

  function StaleIn(t: Table, now: nat): set<Sid> {
    set id | id in t && Stale(t[id], now)
  }

  function PendingFor(t: Table, gameIp: string, now: nat): set<Sid> {
    set id | id in t && t[id].gameIp == gameIp && Live(t[id], now)
  }

  lemma StaleExactly(t: Table, now: nat)
    ensures StaleIn(t, now) == set id | id in t && t[id].state == Pending && t[id].expiresAt < now
  {
  }

  predicate IssuedNoLater(t: Table, a: Sid, b: Sid) {
    a in t && b in t && t[a].issuedAt <= t[b].issuedAt
  }

  ghost predicate NewestFirst(t: Table, ids: seq<Sid>) {
    forall i, j | 0 <= i < j < |ids| :: IssuedNoLater(t, ids[j], ids[i])
  }

  lemma {:induction false} Newest(t: Table, ids: set<Sid>) returns (newest: Sid)
    requires ids != {} && ids <= t.Keys
    ensures newest in ids && forall other | other in ids :: IssuedNoLater(t, other, newest)
    decreases |ids|
  {
    var id :| id in ids;
    newest := id;
    if ids != {id} {
      var best := Newest(t, ids - {id});
      if t[id].issuedAt < t[best].issuedAt { newest := best; }
      forall other | other in ids ensures IssuedNoLater(t, other, newest) {
        if other != id { assert IssuedNoLater(t, other, best); }
      }
    }
  }

  // --- The store --------------------------------------------------------------------------

  datatype ConsumeResult = Consumed(id: Sid) | Unknown | NonceExpired(id: Sid) | AlreadyConsumed(id: Sid)

  class SessionStore {
    var rows: Table
    var snapshots: Snapshots

    ghost predicate Valid()
      reads this
    {
      HashesUnique(rows) && snapshots.Keys <= rows.Keys
    }

    constructor ()
      ensures Valid() && rows == map[] && snapshots == map[]
    {
      rows, snapshots := map[], map[];
    }

    /** Fails on a digest already in the table; a new session is pending, undecided, unclaimed,
        sealed, and expires after the nonce's lifetime. */
    method CreateSession(id: Sid, tenant: Tenant, nonceHash: string, sealed: string, gameIp: string,
                         tier: Policy.Tier, now: nat) returns (ok: bool)
      requires Valid() && id !in rows
      modifies this`rows
      ensures Valid()
      ensures ok <==> forall other | other in old(rows) :: old(rows)[other].nonceHash != nonceHash
      ensures !ok ==> rows == old(rows)
      ensures ok ==> rows == old(rows)[id :=
        Row(tenant, nonceHash, Some(sealed), gameIp, tier, Pending, now, now + 30_000,
            None, None, None, None, None, None, None)]
    {
      if exists other :: other in rows && rows[other].nonceHash == nonceHash { return false; }
      rows := rows[id := NewRow(tenant, nonceHash, sealed, gameIp, tier, now)];
      ok := true;
    }

    method FindByHash(nonceHash: string) returns (found: Option<Sid>)
      requires Valid()
      ensures found == Holder(rows, nonceHash)
    {
      if exists id :: id in rows && rows[id].nonceHash == nonceHash {
        var id :| id in rows && rows[id].nonceHash == nonceHash;
        found := Some(id);
      } else {
        found := None;
      }
    }

    /** The conditional UPDATE: find and claim in one statement. */
    method Claim(nonceHash: string, ip: string, now: nat) returns (claimed: Option<Sid>)
      requires Valid()
      modifies this`rows
      ensures Valid()
      ensures claimed == Claimable(old(rows), nonceHash, now)
      ensures rows == ClaimIn(old(rows), nonceHash, ip, now)
      ensures claimed.None? ==> rows == old(rows) && forall id | id in rows && rows[id].nonceHash == nonceHash ::
        rows[id].consumedAt.Some? || rows[id].expiresAt <= now
      ensures claimed.Some? ==>
        && claimed.value in old(rows) && old(rows)[claimed.value].nonceHash == nonceHash
        && old(rows)[claimed.value].consumedAt == None && now < old(rows)[claimed.value].expiresAt
        && rows == old(rows)[claimed.value := old(rows)[claimed.value].(
             consumedAt := Some(now), attestationIp := Some(ip), sealed := None, state := Attested)]
    {
      claimed := FindByHash(nonceHash);
      if claimed.None? || !Live(rows[claimed.value], now) { return None; }
      rows := rows[claimed.value := Claimed(rows[claimed.value], ip, now)];
    }

    method ConsumeNonce(nonceHash: string, ip: string, now: nat) returns (r: ConsumeResult)
      requires Valid()
      modifies this`rows
      ensures Valid()
      ensures rows == ClaimIn(old(rows), nonceHash, ip, now)
      ensures Claimable(rows, nonceHash, now) == None
      ensures match Holder(old(rows), nonceHash)
        case None => r == Unknown
        case Some(id) =>
          r == if old(rows)[id].consumedAt == None && now < old(rows)[id].expiresAt then Consumed(id)
               else if old(rows)[id].consumedAt.Some? then AlreadyConsumed(id)
               else NonceExpired(id)
    {
      var claimed := Claim(nonceHash, ip, now);
      if claimed.Some? { return Consumed(claimed.value); }
      var existing := FindByHash(nonceHash);
      if existing.None? { return Unknown; }
      if rows[existing.value].consumedAt.Some? { return AlreadyConsumed(existing.value); }
      r := NonceExpired(existing.value);
    }

    method RecordVerdict(tenant: Tenant, id: Sid, v: Verdict, now: nat)
      requires Valid()
      modifies this`rows
      ensures Valid() && rows == RecordIn(old(rows), tenant, id, v, now)
      ensures rows.Keys == old(rows).Keys
      ensures forall other | other in rows && other != id :: rows[other] == old(rows)[other]
      ensures id in rows ==> old(rows)[id].tenant == tenant || rows[id] == old(rows)[id]
      ensures id in rows && rows[id].tenant == tenant ==>
        && rows[id].verdict == Some(v) && rows[id].evaluatedAt == Some(now)
        && (rows[id].state == Active <==> v.decision == Policy.Allow)
        && (rows[id].state == Terminated <==> v.decision == Policy.Deny)
        && rows[id].lastHeartbeat == (if v.decision == Policy.Allow then Some(now) else old(rows)[id].lastHeartbeat)
        && rows[id].consumedAt == old(rows)[id].consumedAt && rows[id].sealed == old(rows)[id].sealed
        && rows[id].attestationIp == old(rows)[id].attestationIp && rows[id].expiresAt == old(rows)[id].expiresAt
    {
      if id in rows && rows[id].tenant == tenant {
        rows := rows[id := Recorded(rows[id], v, now)];
      }
    }

    method StoreSnapshot(id: Sid, snapshot: Policy.Snapshot)
      requires Valid() && id in rows
      modifies this`snapshots
      ensures Valid() && snapshots == Stored(old(snapshots), id, snapshot)
      ensures id in snapshots && CurrentBuild(snapshots, id) == Some(snapshot.buildHash)
      ensures id in old(snapshots) ==>
        |snapshots[id]| == |old(snapshots)[id]| + 1 && old(snapshots)[id] <= snapshots[id]
      ensures id !in old(snapshots) ==> |snapshots[id]| == 1
      ensures forall other | other != id :: other in snapshots <==> other in old(snapshots)
      ensures forall other | other in old(snapshots) && other != id :: snapshots[other] == old(snapshots)[other]
    {
      var kept := if id in snapshots then snapshots[id] else [];
      snapshots := snapshots[id := kept + [snapshot]];
    }

    method RecordHeartbeat(id: Sid, now: nat) returns (extended: bool)
      requires Valid()
      modifies this`rows
      ensures Valid() && rows == ExtendIn(old(rows), id, now)
      ensures extended <==> id in old(rows) && old(rows)[id].state == Active
      ensures rows == if extended then old(rows)[id := old(rows)[id].(lastHeartbeat := Some(now))] else old(rows)
    {
      if id !in rows || rows[id].state != Active { return false; }
      rows := rows[id := rows[id].(lastHeartbeat := Some(now))];
      extended := true;
    }

    method TerminateSession(id: Sid, reason: Reason, now: nat)
      requires Valid()
      modifies this`rows
      ensures Valid() && rows == EndIn(old(rows), id, reason, now)
      ensures id in rows && old(rows)[id].state == Terminated ==> rows[id] == old(rows)[id]
      ensures id in rows && old(rows)[id].state != Terminated ==> rows[id] == old(rows)[id].(
        state := Terminated, terminatedAt := Some(now), terminationReason := Some(reason))
      ensures rows.Keys == old(rows).Keys
      ensures forall other | other in rows && other != id :: rows[other] == old(rows)[other]
    {
      if id in rows && rows[id].state != Terminated {
        var row := rows[id];
        rows := rows[id := row.(state := Terminated, terminatedAt := Some(now), terminationReason := Some(reason))];
      }
    }

    method ExpireStaleSessions(now: nat) returns (count: nat)
      requires Valid()
      modifies this`rows
      ensures Valid() && rows == SweepAll(old(rows), now)
      ensures count == |set id | id in old(rows) && old(rows)[id].state == Pending && old(rows)[id].expiresAt < now|
      ensures rows.Keys == old(rows).Keys
      ensures forall id | id in rows && old(rows)[id].state == Pending && old(rows)[id].expiresAt < now ::
        rows[id] == old(rows)[id].(state := Expired)
      ensures forall id | id in rows && !(old(rows)[id].state == Pending && old(rows)[id].expiresAt < now) ::
        rows[id] == old(rows)[id]
    {
      var left := StaleIn(rows, now);
      StaleExactly(rows, now);
      count := |left|;
      while left != {}
        invariant left <= rows.Keys == old(rows).Keys
        invariant forall id | id in rows ::
          rows[id] == if id in left then old(rows)[id] else Lapsed(old(rows)[id], now)
        invariant left <= StaleIn(old(rows), now)
        decreases |left|
      {
        var id :| id in left;
        rows := rows[id := rows[id].(state := Expired)];
        left := left - {id};
      }
    }

    /** Every unconsumed live session of a game address, each once, the newest first. */
    method FindPendingByGameIp(gameIp: string, now: nat) returns (found: seq<Sid>)
      requires Valid()
      ensures forall id :: id in found <==>
        id in rows && rows[id].gameIp == gameIp && rows[id].consumedAt == None && now < rows[id].expiresAt
      ensures forall i, j | 0 <= i < j < |found| :: found[i] != found[j]
      ensures forall i, j | 0 <= i < j < |found| :: rows[found[j]].issuedAt <= rows[found[i]].issuedAt
    {
      found := [];
      var left := PendingFor(rows, gameIp, now);
      while left != {}
        invariant left <= PendingFor(rows, gameIp, now)
        invariant forall id :: id in found <==> id in PendingFor(rows, gameIp, now) && id !in left
        invariant forall i, j | 0 <= i < j < |found| :: found[i] != found[j]
        invariant NewestFirst(rows, found)
        invariant forall i, id | 0 <= i < |found| && id in left :: IssuedNoLater(rows, id, found[i])
        decreases |left|
      {
        ghost var newest := Newest(rows, left);
        var id :| id in left && forall other | other in left :: IssuedNoLater(rows, other, id);
        found := found + [id];
        left := left - {id};
      }
    }
  }

  // --- Liveness -----------------------------------------------------------------------------

  /** What `buildLiveness` decides from the row it was given and the time now. */
  datatype Liveness = Liveness(shouldKick: bool, reason: Option<Reason>)

  function BuildLiveness(r: Row, now: nat): Liveness {
    if r.state == Terminated then
      Liveness(true, Some(match r.terminationReason case Some(reason) => reason case None => Policy.HeartbeatLost))
    else if r.state != Active || r.lastHeartbeat.None? then Liveness(false, None)
    else if now - r.lastHeartbeat.value <= HEARTBEAT_INTERVAL then Liveness(false, None)
    else if now >= r.lastHeartbeat.value + HEARTBEAT_INTERVAL + HEARTBEAT_GRACE then
      Liveness(true, Some(Policy.HeartbeatLost))
    else Liveness(false, None)
  }
}
