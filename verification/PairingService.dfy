/** The pairing calls as the service makes them: statement after statement on the stored tables, with
    early returns. Each method leaves exactly the tables its function in `Pairing` gives, keeps the
    invariants of every run, and touches no row but those its frame names. */
module PairingService {
  import opened Text
  import opened Store
  import opened Pairing
  import opened PairingFrame

  class Service {
    var contacts: map<Pair, Contact>
    var requests: map<RowKey, Request>
    var sessions: map<RowKey, Session>
    var outbox: Outbox
    var grants: map<string, Grant>

    ghost predicate Valid()
      reads this
    {
      Sound(Tables())
    }

    constructor ()
      ensures Valid() && Tables() == EMPTY
    {
      contacts, requests, sessions, outbox, grants := map[], map[], map[], EMPTY_OUTBOX, map[];
    }

    function Tables(): Db
      reads this
    {
      Db(contacts, requests, sessions, outbox, grants)
    }

    /** False is ErrIdentityConflict: the guarded update touched no row. */
    method StoreContact(pair: Pair, contact: Contact) returns (stored: bool)
      modifies this`contacts
      ensures stored <==> UpsertContact(old(contacts), pair, contact).Some?
      ensures contacts == if stored then UpsertContact(old(contacts), pair, contact).value else old(contacts)
    {
      if pair in contacts && Pinned(contacts[pair].state)
         && (contacts[pair].host != contact.host || contacts[pair].agent != contact.agent) {
        return false;
      }
      contacts := contacts[pair := contact];
      return true;
    }

    method RejectBlocked(local: AgentId, remote: AgentId) returns (blocked: bool)
      ensures blocked == IsBlocked(Tables(), local, remote)
    {
      blocked := (local, remote) in contacts && contacts[(local, remote)].state == Blocked;
    }

    method Invite(me: Identity, input: InviteInput, now: int, id: string, secret: string, nonce: nat) returns (r: Result<Envelope>)
      requires Valid()
      modifies this
      ensures Valid()
      ensures Writes(old(Tables()), Tables(), me.agent, input.remote, id)
      ensures (Tables(), r) == CreateInvite(old(Tables()), me, input, now, id, secret, nonce)
    {
      InviteFrame(Tables(), me, input, now, id, secret, nonce);
      r := WriteInvite(me, input, now, id, secret, nonce);
    }

    method WriteInvite(me: Identity, input: InviteInput, now: int, id: string, secret: string, nonce: nat) returns (r: Result<Envelope>)
      modifies this
      ensures (Tables(), r) == CreateInvite(old(Tables()), me, input, now, id, secret, nonce)
    {
      if input.remote == "" || input.address == "" || input.remote == me.agent || input.ttl <= 0 {
        return Err(InvalidInput);
      }
      var blocked := RejectBlocked(me.agent, input.remote);
      if blocked {
        return Err(ContactBlocked);
      }
      var envelope := InviteEnvelope(me, input, now, id, secret, nonce);
      var row := (id, me.agent);
      if row in requests {
        return Err(InvalidState);
      }
      requests := requests[row := Request(input.remote, "", NoFingerprint, secret, now + input.ttl, false)];
      sessions := sessions[row := Session(input.remote, Inviter, input.host, "", None, DigestOf(envelope), NoDigest, NoDigest, now)];
      var stored := StoreContact((me.agent, input.remote), Contact("", "", "", NoFingerprint, PendingOutbound));
      if !stored {
        return Err(IdentityConflict);
      }
      return Ok(envelope);
    }

    method Import(me: Identity, e: Envelope, now: int, genuine: bool) returns (r: Result<()>)
      requires Valid()
      modifies this
      ensures Valid()
      ensures if e.payload.Invite? then Writes(old(Tables()), Tables(), me.agent, e.payload.inviter, e.payload.inviteId) else Tables() == old(Tables())
      ensures (Tables(), r) == ImportInvite(old(Tables()), me, e, now, genuine)
    {
      if e.payload.Invite? { ImportFrame(Tables(), me, e, now, genuine); }
      if !e.payload.Invite? {
        return Err(InvalidEnvelope);
      }
      var p := e.payload;
      var row := (p.inviteId, me.agent);
      if row in requests {
        return Err(InviteConsumed);
      }
      if p.target != me.agent || p.inviter == "" {
        return Err(IdentityMismatch);
      }
      var blocked := RejectBlocked(me.agent, p.inviter);
      if blocked {
        return Err(ContactBlocked);
      }
      if now >= p.expiresAt {
        return Err(InviteExpired);
      }
      if !Verified(e, p.inviter, p.inviterKey, genuine) {
        return Err(InvalidEnvelope);
      }
      var fingerprint := FingerprintOf(p.inviterKey);
      requests := requests[row := Request(p.inviter, p.inviterHost, fingerprint, p.secret, p.expiresAt, false)];
      sessions := sessions[row := Session(p.inviter, Invitee, "", p.inviterHost, Some(p.inviterKey), DigestOf(e), NoDigest, NoDigest, now)];
      var stored := StoreContact((me.agent, p.inviter), Contact(p.nodeId, p.address, p.inviterHost, fingerprint, PendingInbound));
      if !stored {
        return Err(IdentityConflict);
      }
      return Ok(());
    }

    /** The loop over the agent's contacts that counts pending invites and remembers the last one. */
    method CountPending(me: AgentId) returns (count: nat, last: Pair)
      ensures count == |PendingContacts(contacts, me)|
      ensures count > 0 ==> last in PendingContacts(contacts, me)
    {
      count, last := 0, ("", "");
      var rows := contacts;
      var left := rows.Keys;
      ghost var seen: set<Pair> := {};
      while left != {}
        invariant left <= rows.Keys
        invariant seen == set pair | pair in rows.Keys - left && IsPending(rows, pair, me)
        invariant count == |seen| && (count > 0 ==> last in seen)
        decreases left
      {
        var pair :| pair in left;
        left := left - {pair};
        if IsPending(rows, pair, me) {
          count, last := count + 1, pair;
          seen := seen + {pair};
        }
      }
      assert seen == PendingContacts(contacts, me);
    }

    method Accept(me: Identity, input: AcceptInput, now: int, newest: string, nonce: nat) returns (r: Result<Envelope>)
      requires Valid()
      modifies this
      ensures Valid()
      ensures Writes(old(Tables()), Tables(), me.agent, PeerOf(old(Tables()), (newest, me.agent)), newest)
      ensures (Tables(), r) == AcceptInvite(old(Tables()), me, input, now, newest, nonce)
    {
      AcceptFrame(Tables(), me, input, now, newest, nonce);
      var remote: AgentId;
      if input.inviteId != "" {
        if (input.inviteId, me.agent) !in sessions {
          return Err(NotFound);
        }
        remote := sessions[(input.inviteId, me.agent)].remote;
        if (me.agent, remote) !in contacts {
          return Err(NotFound);
        }
        if contacts[(me.agent, remote)].state != PendingInbound {
          return Err(InvalidTransition);
        }
      } else {
        var count, candidate := CountPending(me.agent);
        if count != 1 {
          return Err(InvalidTransition);
        }
        remote := candidate.1;
      }
      assert AcceptTarget(Tables(), me.agent, input.inviteId) == Ok(remote);
      r := AcceptFrom(me, remote, input, now, newest, nonce);
    }

    /** The part of an accept call that follows the choice of the contact. */
    method AcceptFrom(me: Identity, remote: AgentId, input: AcceptInput, now: int, newest: string, nonce: nat) returns (r: Result<Envelope>)
      requires AcceptTarget(Tables(), me.agent, input.inviteId) == Ok(remote)
      modifies this
      ensures (Tables(), r) == AcceptInvite(old(Tables()), me, input, now, newest, nonce)
    {
      var row, pair := (newest, me.agent), (me.agent, remote);
      if !IsNewest(sessions, me.agent, remote, newest) || pair !in contacts {
        return Err(NotFound);
      }
      var session := sessions[row];
      var consumed := Consume(requests, row, now);
      if consumed.Err? {
        return Err(consumed.error);
      }
      var envelope := AcceptanceEnvelope(me, input, newest, requests[row], session, nonce);
      requests := consumed.value;
      session := session.(localHost := input.host, acceptance := DigestOf(envelope), updatedAt := now);
      sessions := sessions[row := session];
      var stored := StoreContact(pair, contacts[pair].(state := AwaitingConfirmation));
      if !stored {
        return Err(IdentityConflict);
      }
      return Ok(envelope);
    }

    method Approve(me: Identity, e: Envelope, expectedHost: string, expectedAgent: Fingerprint, now: int, genuine: bool, nonce: nat)
        returns (r: Result<Envelope>)
      requires Valid()
      modifies this
      ensures Valid()
      ensures if e.payload.Acceptance? then Writes(old(Tables()), Tables(), me.agent, e.payload.accepter, e.payload.inviteId) else Tables() == old(Tables())
      ensures (Tables(), r) == ApproveAcceptance(old(Tables()), me, e, expectedHost, expectedAgent, now, genuine, nonce)
    {
      if e.payload.Acceptance? { ApproveFrame(Tables(), me, e, expectedHost, expectedAgent, now, genuine, nonce); }
      if expectedAgent == NoFingerprint {
        return Err(InvalidInput);
      }
      if !e.payload.Acceptance? {
        return Err(InvalidEnvelope);
      }
      var p := e.payload;
      if (expectedHost != "" && p.accepterHost != expectedHost) || FingerprintOf(p.accepterKey) != expectedAgent {
        return Err(IdentityMismatch);
      }
      if !Verified(e, p.accepter, p.accepterKey, genuine) {
        return Err(InvalidEnvelope);
      }
      var row := (p.inviteId, me.agent);
      if row !in requests || row !in sessions {
        return Err(NotFound);
      }
      var request, session := requests[row], sessions[row];
      if session.role != Inviter || request.remote != p.accepter || p.inviter != me.agent || p.inviteDigest != session.invite {
        return Err(IdentityMismatch);
      }
      if p.proof != Proof(request.secret, session.invite, p.accepter, p.accepterHost, p.accepterKey) {
        return Err(InvalidSecret);
      }
      var consumed := Consume(requests, row, now);
      if consumed.Err? {
        return Err(consumed.error);
      }
      requests := consumed.value;
      var confirmation := ConfirmationEnvelope(me, p, e, session, nonce);
      session := session.(remoteHost := p.accepterHost, remoteKey := Some(p.accepterKey), acceptance := DigestOf(e),
                          confirmation := DigestOf(confirmation), updatedAt := now);
      sessions := sessions[row := session];
      var stored := StoreContact((me.agent, p.accepter),
                                 Contact(p.nodeId, p.address, p.accepterHost, FingerprintOf(p.accepterKey), AwaitingConfirmation));
      if !stored {
        return Err(IdentityMismatch);
      }
      return Ok(confirmation);
    }

    method Confirm(me: Identity, e: Envelope, now: int, genuine: bool, nonce: nat) returns (r: Result<Envelope>)
      requires Valid()
      modifies this
      ensures Valid()
      ensures if e.payload.Confirmation? then Writes(old(Tables()), Tables(), me.agent, PeerOf(old(Tables()), (e.payload.inviteId, me.agent)), e.payload.inviteId)
              else Tables() == old(Tables())
      ensures (Tables(), r) == ApplyConfirmation(old(Tables()), me, e, now, genuine, nonce)
    {
      if e.payload.Confirmation? { ConfirmFrame(Tables(), me, e, now, genuine, nonce); }
      if !e.payload.Confirmation? {
        return Err(InvalidEnvelope);
      }
      var p := e.payload;
      var row := (p.inviteId, me.agent);
      if row !in sessions {
        return Err(NotFound);
      }
      var session := sessions[row];
      if session.remoteKey != Some(p.inviterKey) {
        return Err(IdentityMismatch);
      }
      if !Verified(e, p.inviter, p.inviterKey, genuine) {
        return Err(InvalidEnvelope);
      }
      if !ConfirmationFits(p, session, me) {
        return Err(IdentityMismatch);
      }
      sessions := sessions[row := session.(confirmation := DigestOf(e), updatedAt := now)];
      var pair := (me.agent, session.remote);
      if pair !in contacts {
        return Err(NotFound);
      }
      if contacts[pair].state != AwaitingConfirmation {
        return Err(InvalidTransition);
      }
      var stored := StoreContact(pair, contacts[pair].(state := Active));
      if !stored {
        return Err(IdentityConflict);
      }
      return Ok(ActivationEnvelope(me, p.inviteId, e, session, nonce));
    }

    method Activate(me: Identity, e: Envelope, genuine: bool) returns (r: Result<()>)
      requires Valid()
      modifies this
      ensures Valid()
      ensures if e.payload.Activation? then Writes(old(Tables()), Tables(), me.agent, PeerOf(old(Tables()), (e.payload.inviteId, me.agent)), e.payload.inviteId)
              else Tables() == old(Tables())
      ensures (Tables(), r) == ApplyActivationReceipt(old(Tables()), me, e, genuine)
    {
      if e.payload.Activation? { ActivateFrame(Tables(), me, e, genuine); }
      if !e.payload.Activation? {
        return Err(InvalidEnvelope);
      }
      var p := e.payload;
      var row := (p.inviteId, me.agent);
      if row !in sessions {
        return Err(NotFound);
      }
      var session := sessions[row];
      if session.remoteKey != Some(p.accepterKey) {
        return Err(IdentityMismatch);
      }
      if !Verified(e, p.accepter, p.accepterKey, genuine) {
        return Err(InvalidEnvelope);
      }
      if session.role != Inviter || p.inviter != me.agent || p.accepter != session.remote
         || p.accepterHost != session.remoteHost || p.confirmationDigest != session.confirmation {
        return Err(IdentityMismatch);
      }
      var pair := (me.agent, session.remote);
      if pair !in contacts {
        return Err(NotFound);
      }
      if contacts[pair].state != AwaitingConfirmation {
        return Err(InvalidTransition);
      }
      var stored := StoreContact(pair, contacts[pair].(state := Active));
      if !stored {
        return Err(IdentityConflict);
      }
      return Ok(());
    }

    /** The three writes shared by revoking, applying a revocation and blocking. */
    method SeverContact(pair: Pair, state: ContactState)
      requires Valid() && pair in contacts && (state == Revoked || state == Blocked)
      modifies this
      ensures Valid() && Severs(old(Tables()), Tables(), pair)
      ensures Tables() == Sever(old(Tables()), pair, state)
    {
      SeverFrame(Tables(), pair, state);
      var stored := StoreContact(pair, contacts[pair].(state := state));
      outbox := CancelForContact(outbox, pair.0, pair.1);
      grants := RevokeForContact(grants, pair.0, pair.1);
    }

    method RevokeContact(me: Identity, remote: AgentId, reason: string, now: int, newest: string, nonce: nat) returns (r: Result<Envelope>)
      requires Valid()
      modifies this
      ensures Valid() && Severs(old(Tables()), Tables(), (me.agent, remote))
      ensures (Tables(), r) == RevokeWithNotice(old(Tables()), me, remote, reason, now, newest, nonce)
    {
      var pair := (me.agent, remote);
      if pair !in contacts {
        return Err(NotFound);
      }
      if contacts[pair].state == Blocked {
        return Err(InvalidTransition);
      }
      SeverContact(pair, Revoked);
      if !IsNewest(sessions, me.agent, remote, newest) {
        return Err(NotFound);
      }
      var host := sessions[(newest, me.agent)].localHost;
      return Ok(Envelope(me.agent, me.key, Revocation(me.agent, me.key, host, remote, reason, now), nonce));
    }

    method ApplyNotice(me: Identity, e: Envelope, genuine: bool) returns (r: Result<()>)
      requires Valid()
      modifies this
      ensures Valid() && (if e.payload.Revocation? then Severs(old(Tables()), Tables(), (me.agent, e.payload.revoker)) else Tables() == old(Tables()))
      ensures (Tables(), r) == ApplyRevocation(old(Tables()), me, e, genuine)
    {
      if !e.payload.Revocation? {
        return Err(InvalidEnvelope);
      }
      var p := e.payload;
      if p.target != me.agent {
        return Err(IdentityMismatch);
      }
      var pair := (me.agent, p.revoker);
      if pair !in contacts {
        return Err(NotFound);
      }
      if p.revokerHost != contacts[pair].host || FingerprintOf(p.revokerKey) != contacts[pair].agent {
        return Err(IdentityMismatch);
      }
      if !Verified(e, p.revoker, p.revokerKey, genuine) {
        return Err(InvalidEnvelope);
      }
      SeverContact(pair, Revoked);
      return Ok(());
    }

    method BlockContact(local: AgentId, remote: AgentId) returns (r: Result<()>)
      requires Valid()
      modifies this
      ensures Valid() && Severs(old(Tables()), Tables(), (local, remote))
      ensures (Tables(), r) == Block(old(Tables()), local, remote)
    {
      if (local, remote) !in contacts {
        return Err(NotFound);
      }
      SeverContact((local, remote), Blocked);
      return Ok(());
    }
  }
}
