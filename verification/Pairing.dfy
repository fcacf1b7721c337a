/** The pairing calls of internal/pairing/service.go, each as one function of the tables. Calls that
    fail half way keep the writes already made, as the source does. */
module Pairing {
  import opened Text
  import opened Store

  // ---- messages ----

  datatype Payload =
    | Invite(inviteId: string, inviter: AgentId, inviterKey: Key, inviterHost: string, address: string, nodeId: string,
             target: AgentId, secret: string, expiresAt: int)
    | Acceptance(inviteId: string, inviteDigest: Digest, inviter: AgentId, accepter: AgentId, accepterKey: Key,
                 accepterHost: string, address: string, nodeId: string, proof: Proof)
    | Confirmation(inviteId: string, inviteDigest: Digest, acceptanceDigest: Digest, inviter: AgentId, inviterKey: Key,
                   inviterHost: string, accepter: AgentId, accepterKey: Key, accepterHost: string)
    | Activation(inviteId: string, confirmationDigest: Digest, inviter: AgentId, accepter: AgentId, accepterKey: Key,
                 accepterHost: string)
    | Revocation(revoker: AgentId, revokerKey: Key, revokerHost: string, target: AgentId, reason: string, at: int)

  /** A signed envelope. The key is the one its fingerprint names and its signature was made with. */
  datatype Envelope = Envelope(agent: AgentId, key: Key, payload: Payload, nonce: nat)

  /** SHA-256 of an envelope, collision free. */
  datatype Digest = NoDigest | DigestOf(envelope: Envelope)

  /** HMAC over the acceptance, keyed by the hash of the invite secret. */
  datatype Proof = Proof(secret: string, inviteDigest: Digest, accepter: AgentId, host: string, key: Key)

  datatype Identity = Identity(agent: AgentId, key: Key)

  // ---- tables ----

  datatype Role = Inviter | Invitee

  datatype Request = Request(remote: AgentId, remoteHost: string, remoteAgent: Fingerprint, secret: string, expiresAt: int, consumed: bool)

  datatype Session = Session(remote: AgentId, role: Role, localHost: string, remoteHost: string, remoteKey: Option<Key>,
                             invite: Digest, acceptance: Digest, confirmation: Digest, updatedAt: int)

  /** Rows are keyed by invite id and local agent. */
  type RowKey = (string, AgentId)

  datatype Db = Db(contacts: map<Pair, Contact>, requests: map<RowKey, Request>, sessions: map<RowKey, Session>,
                   outbox: Outbox, grants: map<string, Grant>)

  const EMPTY := Db(map[], map[], map[], EMPTY_OUTBOX, map[])

  predicate IsBlocked(db: Db, local: AgentId, remote: AgentId) {
    (local, remote) in db.contacts && db.contacts[(local, remote)].state == Blocked
  }

  // ---- invite ----

  datatype InviteInput = InviteInput(remote: AgentId, host: string, address: string, nodeId: string, ttl: int)

  function InviteEnvelope(me: Identity, input: InviteInput, now: int, id: string, secret: string, nonce: nat): Envelope {
    Envelope(me.agent, me.key,
             Invite(id, me.agent, me.key, input.host, input.address, input.nodeId, input.remote, secret, now + input.ttl), nonce)
  }

  function CreateInvite(db: Db, me: Identity, input: InviteInput, now: int, id: string, secret: string, nonce: nat): (Db, Result<Envelope>) {
    if input.remote == "" || input.address == "" || input.remote == me.agent || input.ttl <= 0 then (db, Err(InvalidInput))
    else if IsBlocked(db, me.agent, input.remote) then (db, Err(ContactBlocked))
    else if (id, me.agent) in db.requests then (db, Err(InvalidState))
    else
      var envelope := InviteEnvelope(me, input, now, id, secret, nonce);
      var written := db.(
        requests := db.requests[(id, me.agent) := Request(input.remote, "", NoFingerprint, secret, now + input.ttl, false)],
        sessions := db.sessions[(id, me.agent) :=
          Session(input.remote, Inviter, input.host, "", None, DigestOf(envelope), NoDigest, NoDigest, now)]);
      match UpsertContact(db.contacts, (me.agent, input.remote), Contact("", "", "", NoFingerprint, PendingOutbound))
      case None => (written, Err(IdentityConflict))
      case Some(contacts) => (written.(contacts := contacts), Ok(envelope))
  }

  // ---- import ----

  /** verifyPayload, with the outcome of the Ed25519 check given as `genuine`. */
  predicate Verified(e: Envelope, agent: AgentId, key: Key, genuine: bool) {
    e.agent == agent && e.key == key && genuine
  }

  function ImportInvite(db: Db, me: Identity, e: Envelope, now: int, genuine: bool): (Db, Result<()>) {
    if !e.payload.Invite? then (db, Err(InvalidEnvelope))
    else
      var p := e.payload;
      var row := (p.inviteId, me.agent);
      if row in db.requests then (db, Err(InviteConsumed))
      else if p.target != me.agent || p.inviter == "" then (db, Err(IdentityMismatch))
      else if IsBlocked(db, me.agent, p.inviter) then (db, Err(ContactBlocked))
      else if now >= p.expiresAt then (db, Err(InviteExpired))
      else if !Verified(e, p.inviter, p.inviterKey, genuine) then (db, Err(InvalidEnvelope))
      else
        var fingerprint := FingerprintOf(p.inviterKey);
        var written := db.(
          requests := db.requests[row := Request(p.inviter, p.inviterHost, fingerprint, p.secret, p.expiresAt, false)],
          sessions := db.sessions[row :=
            Session(p.inviter, Invitee, "", p.inviterHost, Some(p.inviterKey), DigestOf(e), NoDigest, NoDigest, now)]);
        match UpsertContact(db.contacts, (me.agent, p.inviter), Contact(p.nodeId, p.address, p.inviterHost, fingerprint, PendingInbound))
        case None => (written, Err(IdentityConflict))
        case Some(contacts) => (written.(contacts := contacts), Ok(()))
  }

  // ---- accept ----

  predicate IsPending(contacts: map<Pair, Contact>, pair: Pair, me: AgentId) {
    pair in contacts && pair.0 == me && contacts[pair].state == PendingInbound
  }

  /** The contacts whose invites wait for an answer from `me`. */
  function PendingContacts(contacts: map<Pair, Contact>, me: AgentId): set<Pair> {
    set pair | pair in contacts.Keys && IsPending(contacts, pair, me)
  }

  /** The contact an accept call is about. */
  function AcceptTarget(db: Db, me: AgentId, inviteId: string): Result<AgentId> {
    if inviteId != "" then
      if (inviteId, me) !in db.sessions then Err(NotFound)
      else
        var remote := db.sessions[(inviteId, me)].remote;
        if (me, remote) !in db.contacts then Err(NotFound)
        else if db.contacts[(me, remote)].state != PendingInbound then Err(InvalidTransition)
        else Ok(remote)
    else
      var pending := PendingContacts(db.contacts, me);
      if |pending| != 1 then Err(InvalidTransition)
      else Ok(OnlyElementOf(pending).1)
  }

  function OnlyElementOf(s: set<Pair>): (r: Pair)
    requires |s| == 1
    ensures s == {r}
  {
    SingletonUnique(s);
    var x :| x in s;
    x
  }

  lemma SingletonUnique(s: set<Pair>)
    requires |s| == 1
    ensures exists x :: x in s
    ensures forall x :: x in s ==> s == {x}
  {
    forall x | x in s
      ensures s == {x}
    {
      assert |s - {x}| == 0;
      assert s == {x} + (s - {x});
    }
  }

  /** FindPairingSession: a row of the pair with the latest update; ties are SQLite's to break. */
  predicate IsNewest(sessions: map<RowKey, Session>, me: AgentId, remote: AgentId, inviteId: string) {
    && (inviteId, me) in sessions && sessions[(inviteId, me)].remote == remote
    && forall row :: row in sessions && row.1 == me && sessions[row].remote == remote
         ==> sessions[row].updatedAt <= sessions[(inviteId, me)].updatedAt
  }

  /** ValidateAndConsumePairingRequestForAgent with the expiry check as validator. */
  function Consume(requests: map<RowKey, Request>, row: RowKey, now: int): Result<map<RowKey, Request>> {
    if row !in requests then Err(NotFound)
    else if requests[row].consumed then Err(InviteConsumed)
    else if now >= requests[row].expiresAt then Err(InviteExpired)
    else Ok(requests[row := requests[row].(consumed := true)])
  }

  datatype AcceptInput = AcceptInput(inviteId: string, host: string, address: string, nodeId: string)

  function AcceptanceEnvelope(me: Identity, input: AcceptInput, id: string, request: Request, session: Session, nonce: nat): Envelope {
    Envelope(me.agent, me.key,
             Acceptance(id, session.invite, request.remote, me.agent, me.key, input.host, input.address, input.nodeId,
                        Proof(request.secret, session.invite, me.agent, input.host, me.key)), nonce)
  }

  /** `newest` is the invite id of the session the newest-first lookup returns. */
  function AcceptInvite(db: Db, me: Identity, input: AcceptInput, now: int, newest: string, nonce: nat): (Db, Result<Envelope>) {
    match AcceptTarget(db, me.agent, input.inviteId)
    case Err(e) => (db, Err(e))
    case Ok(remote) =>
      var row, pair := (newest, me.agent), (me.agent, remote);
      if !IsNewest(db.sessions, me.agent, remote, newest) || pair !in db.contacts then (db, Err(NotFound))
      else match Consume(db.requests, row, now)
        case Err(e) => (db, Err(e))
        case Ok(requests) =>
          var session := db.sessions[row];
          var envelope := AcceptanceEnvelope(me, input, newest, db.requests[row], session, nonce);
          var written := db.(
            requests := requests,
            sessions := db.sessions[row := session.(localHost := input.host, acceptance := DigestOf(envelope), updatedAt := now)]);
          match UpsertContact(db.contacts, pair, db.contacts[pair].(state := AwaitingConfirmation))
          case None => (written, Err(IdentityConflict))
          case Some(contacts) => (written.(contacts := contacts), Ok(envelope))
  }

  // ---- approve ----

  function ConfirmationEnvelope(me: Identity, p: Payload, acceptance: Envelope, session: Session, nonce: nat): Envelope
    requires p.Acceptance?
  {
    Envelope(me.agent, me.key,
             Confirmation(p.inviteId, session.invite, DigestOf(acceptance), me.agent, me.key, session.localHost,
                          p.accepter, p.accepterKey, p.accepterHost), nonce)
  }

  function ApproveAcceptance(db: Db, me: Identity, e: Envelope, expectedHost: string, expectedAgent: Fingerprint,
                             now: int, genuine: bool, nonce: nat): (Db, Result<Envelope>) {
    if expectedAgent == NoFingerprint then (db, Err(InvalidInput))
    else if !e.payload.Acceptance? then (db, Err(InvalidEnvelope))
    else
      var p := e.payload;
      var row := (p.inviteId, me.agent);
      if (expectedHost != "" && p.accepterHost != expectedHost) || FingerprintOf(p.accepterKey) != expectedAgent then (db, Err(IdentityMismatch))
      else if !Verified(e, p.accepter, p.accepterKey, genuine) then (db, Err(InvalidEnvelope))
      else if row !in db.requests || row !in db.sessions then (db, Err(NotFound))
      else
        var request, session := db.requests[row], db.sessions[row];
        if session.role != Inviter || request.remote != p.accepter || p.inviter != me.agent || p.inviteDigest != session.invite then (db, Err(IdentityMismatch))
        else if p.proof != Proof(request.secret, session.invite, p.accepter, p.accepterHost, p.accepterKey) then (db, Err(InvalidSecret))
        else match Consume(db.requests, row, now)
          case Err(err) => (db, Err(err))
          case Ok(requests) =>
            var confirmation := ConfirmationEnvelope(me, p, e, session, nonce);
            var written := db.(
              requests := requests,
              sessions := db.sessions[row := session.(remoteHost := p.accepterHost, remoteKey := Some(p.accepterKey),
                acceptance := DigestOf(e), confirmation := DigestOf(confirmation), updatedAt := now)]);
            match UpsertContact(db.contacts, (me.agent, p.accepter),
                                Contact(p.nodeId, p.address, p.accepterHost, FingerprintOf(p.accepterKey), AwaitingConfirmation))
            case None => (written, Err(IdentityMismatch))
            case Some(contacts) => (written.(contacts := contacts), Ok(confirmation))
  }

  // ---- confirm ----

  predicate ConfirmationFits(p: Payload, session: Session, me: Identity)
    requires p.Confirmation?
  {
    && session.role == Invitee && p.inviter == session.remote && p.accepter == me.agent && p.accepterKey == me.key
    && p.inviterHost == session.remoteHost && p.accepterHost == session.localHost
    && p.inviteDigest == session.invite && p.acceptanceDigest == session.acceptance
  }

  function ActivationEnvelope(me: Identity, inviteId: string, confirmation: Envelope, session: Session, nonce: nat): Envelope {
    Envelope(me.agent, me.key,
             Activation(inviteId, DigestOf(confirmation), session.remote, me.agent, me.key, session.localHost), nonce)
  }

  function ApplyConfirmation(db: Db, me: Identity, e: Envelope, now: int, genuine: bool, nonce: nat): (Db, Result<Envelope>) {
    if !e.payload.Confirmation? then (db, Err(InvalidEnvelope))
    else
      var p := e.payload;
      var row := (p.inviteId, me.agent);
      if row !in db.sessions then (db, Err(NotFound))
      else
        var session := db.sessions[row];
        if session.remoteKey != Some(p.inviterKey) then (db, Err(IdentityMismatch))
        else if !Verified(e, p.inviter, p.inviterKey, genuine) then (db, Err(InvalidEnvelope))
        else if !ConfirmationFits(p, session, me) then (db, Err(IdentityMismatch))
        else
          var written := db.(sessions := db.sessions[row := session.(confirmation := DigestOf(e), updatedAt := now)]);
          var pair := (me.agent, session.remote);
          if pair !in db.contacts then (written, Err(NotFound))
          else if db.contacts[pair].state != AwaitingConfirmation then (written, Err(InvalidTransition))
          else match UpsertContact(db.contacts, pair, db.contacts[pair].(state := Active))
            case None => (written, Err(IdentityConflict))
            case Some(contacts) => (written.(contacts := contacts), Ok(ActivationEnvelope(me, p.inviteId, e, session, nonce)))
  }

  // ---- activate ----

  function ApplyActivationReceipt(db: Db, me: Identity, e: Envelope, genuine: bool): (Db, Result<()>) {
    if !e.payload.Activation? then (db, Err(InvalidEnvelope))
    else
      var p := e.payload;
      var row := (p.inviteId, me.agent);
      if row !in db.sessions then (db, Err(NotFound))
      else
        var session := db.sessions[row];
        var pair := (me.agent, session.remote);
        if session.remoteKey != Some(p.accepterKey) then (db, Err(IdentityMismatch))
        else if !Verified(e, p.accepter, p.accepterKey, genuine) then (db, Err(InvalidEnvelope))
        else if session.role != Inviter || p.inviter != me.agent || p.accepter != session.remote
             || p.accepterHost != session.remoteHost || p.confirmationDigest != session.confirmation then (db, Err(IdentityMismatch))
        else if pair !in db.contacts then (db, Err(NotFound))
        else if db.contacts[pair].state != AwaitingConfirmation then (db, Err(InvalidTransition))
        else match UpsertContact(db.contacts, pair, db.contacts[pair].(state := Active))
          case None => (db, Err(IdentityConflict))
          case Some(contacts) => (db.(contacts := contacts), Ok(()))
  }

  // ---- revoke and block ----

  /** Writes the contact state, then cancels the pair's outbox and revokes its grants. */
  function Sever(db: Db, pair: Pair, state: ContactState): Db
    requires pair in db.contacts
  {
    db.(contacts := db.contacts[pair := db.contacts[pair].(state := state)],
        outbox := CancelForContact(db.outbox, pair.0, pair.1),
        grants := RevokeForContact(db.grants, pair.0, pair.1))
  }

  function Revoke(db: Db, local: AgentId, remote: AgentId): (Db, Result<()>) {
    if (local, remote) !in db.contacts then (db, Err(NotFound))
    else if db.contacts[(local, remote)].state == Blocked then (db, Err(InvalidTransition))
    else (Sever(db, (local, remote), Revoked), Ok(()))
  }

  /** The revocation stands even when no session is left to name the host in the notice. */
  function RevokeWithNotice(db: Db, me: Identity, remote: AgentId, reason: string, now: int, newest: string, nonce: nat): (Db, Result<Envelope>) {
    var (revoked, outcome) := Revoke(db, me.agent, remote);
    match outcome
    case Err(e) => (revoked, Err(e))
    case Ok(_) =>
      if !IsNewest(db.sessions, me.agent, remote, newest) then (revoked, Err(NotFound))
      else
        var host := db.sessions[(newest, me.agent)].localHost;
        (revoked, Ok(Envelope(me.agent, me.key, Revocation(me.agent, me.key, host, remote, reason, now), nonce)))
  }

  function ApplyRevocation(db: Db, me: Identity, e: Envelope, genuine: bool): (Db, Result<()>) {
    if !e.payload.Revocation? then (db, Err(InvalidEnvelope))
    else
      var p := e.payload;
      var pair := (me.agent, p.revoker);
      if p.target != me.agent then (db, Err(IdentityMismatch))
      else if pair !in db.contacts then (db, Err(NotFound))
      else if p.revokerHost != db.contacts[pair].host || FingerprintOf(p.revokerKey) != db.contacts[pair].agent then (db, Err(IdentityMismatch))
      else if !Verified(e, p.revoker, p.revokerKey, genuine) then (db, Err(InvalidEnvelope))
      else (Sever(db, pair, Revoked), Ok(()))
  }

  function Block(db: Db, local: AgentId, remote: AgentId): (Db, Result<()>) {
    if (local, remote) !in db.contacts then (db, Err(NotFound))
    else (Sever(db, (local, remote), Blocked), Ok(()))
  }
}
