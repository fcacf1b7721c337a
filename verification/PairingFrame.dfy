/** Which rows a pairing call may touch, and what it keeps of the tables it shares with the delivery
    worker and the message handlers. */
module PairingFrame {
  import opened Text
  import opened Store
  import opened Pairing
  import Gateway
  import PairingRun

  /** At most the entry of `key` differs, and if so it is there afterwards. */
  predicate Only<K, V(==)>(m: map<K, V>, m': map<K, V>, key: K) { m' == m || (key in m' && m' == m[key := m'[key]]) }

  predicate IsIn(contacts: map<Pair, Contact>, pair: Pair, state: ContactState) { pair in contacts && contacts[pair].state == state }

  /** A pinned contact keeps its fingerprints, and one becomes active only from awaiting confirmation. */
  predicate PinKept(contacts: map<Pair, Contact>, contacts': map<Pair, Contact>, pair: Pair) {
    && (pair in contacts ==> pair in contacts')
    && (pair in contacts && Pinned(contacts[pair].state) ==> PairingRun.SameIdentity(contacts[pair], contacts'[pair]))
    && (IsIn(contacts', pair, Active) && !IsIn(contacts, pair, Active) ==> IsIn(contacts, pair, AwaitingConfirmation))
  }

  /** A handshake call touches the contact of one pair, the request and session of one invite of the
      local agent, and no message, receipt or grant; it severs nobody. */
  predicate Writes(db: Db, db': Db, me: AgentId, remote: AgentId, id: string) {
    && Only(db.contacts, db'.contacts, (me, remote)) && PinKept(db.contacts, db'.contacts, (me, remote))
    && (db'.contacts != db.contacts ==> !Gateway.Severed(db'.contacts[(me, remote)].state))
    && Only(db.requests, db'.requests, (id, me)) && Only(db.sessions, db'.sessions, (id, me))
    && db'.outbox == db.outbox && db'.grants == db.grants
  }

  /** A severing call touches one contact, and messages and grants of that pair only. */
  predicate Severs(db: Db, db': Db, pair: Pair) {
    && Only(db.contacts, db'.contacts, pair) && PinKept(db.contacts, db'.contacts, pair)
    && db'.requests == db.requests && db'.sessions == db.sessions
    && db'.outbox == db.outbox.(rows := db'.outbox.rows) && db'.outbox.rows.Keys == db.outbox.rows.Keys && db'.grants.Keys == db.grants.Keys
    && (forall id <- db.outbox.rows :: (db.outbox.rows[id].source, db.outbox.rows[id].target) != pair ==> db'.outbox.rows[id] == db.outbox.rows[id])
    && (forall id <- db.grants :: (db.grants[id].owner, db.grants[id].target) != pair ==> db'.grants[id] == db.grants[id])
  }

  /** The invariants of every run: severed pairs are closed, and receipts fit their rows. */
  ghost predicate Sound(db: Db) { Gateway.Cascaded(db) && Gateway.ReceiptsFit(db.outbox) }

  /** The peer a session is with. */
  function PeerOf(db: Db, row: RowKey): AgentId { if row in db.sessions then db.sessions[row].remote else "" }

  lemma WritesSound(db: Db, db': Db, me: AgentId, remote: AgentId, id: string)
    requires Sound(db) && Writes(db, db', me, remote, id)
    ensures Sound(db')
  {
    forall q | Gateway.IsSevered(db', q) ensures Gateway.NothingOpen(db', q) {
      assert Gateway.IsSevered(db, q) && Gateway.NothingOpen(db, q);
    }
  }

  lemma SeverFrame(db: Db, pair: Pair, state: ContactState)
    requires pair in db.contacts && Gateway.Severed(state)
    ensures Severs(db, Sever(db, pair, state), pair)
    ensures Sound(db) ==> Sound(Sever(db, pair, state))
  {
    if Sound(db) {
      Gateway.SeverCascades(db, pair, state);
    }
  }

  lemma InviteFrame(db: Db, me: Identity, input: InviteInput, now: int, id: string, secret: string, nonce: nat)
    ensures Writes(db, CreateInvite(db, me, input, now, id, secret, nonce).0, me.agent, input.remote, id)
    ensures Sound(db) ==> Sound(CreateInvite(db, me, input, now, id, secret, nonce).0)
  {
    var db' := CreateInvite(db, me, input, now, id, secret, nonce).0;
    assert Writes(db, db', me.agent, input.remote, id);
    if Sound(db) { WritesSound(db, db', me.agent, input.remote, id); }
  }

  lemma ImportFrame(db: Db, me: Identity, e: Envelope, now: int, genuine: bool)
    requires e.payload.Invite?
    ensures Writes(db, ImportInvite(db, me, e, now, genuine).0, me.agent, e.payload.inviter, e.payload.inviteId)
    ensures Sound(db) ==> Sound(ImportInvite(db, me, e, now, genuine).0)
  {
    var db' := ImportInvite(db, me, e, now, genuine).0;
    assert Writes(db, db', me.agent, e.payload.inviter, e.payload.inviteId);
    if Sound(db) { WritesSound(db, db', me.agent, e.payload.inviter, e.payload.inviteId); }
  }

  lemma AcceptFrame(db: Db, me: Identity, input: AcceptInput, now: int, newest: string, nonce: nat)
    ensures Writes(db, AcceptInvite(db, me, input, now, newest, nonce).0, me.agent, PeerOf(db, (newest, me.agent)), newest)
    ensures Sound(db) ==> Sound(AcceptInvite(db, me, input, now, newest, nonce).0)
  {
    var db' := AcceptInvite(db, me, input, now, newest, nonce).0;
    assert Writes(db, db', me.agent, PeerOf(db, (newest, me.agent)), newest);
    if Sound(db) { WritesSound(db, db', me.agent, PeerOf(db, (newest, me.agent)), newest); }
  }

  lemma ApproveFrame(db: Db, me: Identity, e: Envelope, expectedHost: string, expectedAgent: Fingerprint, now: int, genuine: bool, nonce: nat)
    requires e.payload.Acceptance?
    ensures Writes(db, ApproveAcceptance(db, me, e, expectedHost, expectedAgent, now, genuine, nonce).0, me.agent, e.payload.accepter, e.payload.inviteId)
    ensures Sound(db) ==> Sound(ApproveAcceptance(db, me, e, expectedHost, expectedAgent, now, genuine, nonce).0)
  {
    var db' := ApproveAcceptance(db, me, e, expectedHost, expectedAgent, now, genuine, nonce).0;
    assert Writes(db, db', me.agent, e.payload.accepter, e.payload.inviteId);
    if Sound(db) { WritesSound(db, db', me.agent, e.payload.accepter, e.payload.inviteId); }
  }

  lemma ConfirmFrame(db: Db, me: Identity, e: Envelope, now: int, genuine: bool, nonce: nat)
    requires e.payload.Confirmation?
    ensures Writes(db, ApplyConfirmation(db, me, e, now, genuine, nonce).0, me.agent, PeerOf(db, (e.payload.inviteId, me.agent)), e.payload.inviteId)
    ensures Sound(db) ==> Sound(ApplyConfirmation(db, me, e, now, genuine, nonce).0)
  {
    var db' := ApplyConfirmation(db, me, e, now, genuine, nonce).0;
    var remote := PeerOf(db, (e.payload.inviteId, me.agent));
    assert Writes(db, db', me.agent, remote, e.payload.inviteId);
    if Sound(db) { WritesSound(db, db', me.agent, remote, e.payload.inviteId); }
  }

  lemma ActivateFrame(db: Db, me: Identity, e: Envelope, genuine: bool)
    requires e.payload.Activation?
    ensures Writes(db, ApplyActivationReceipt(db, me, e, genuine).0, me.agent, PeerOf(db, (e.payload.inviteId, me.agent)), e.payload.inviteId)
    ensures Sound(db) ==> Sound(ApplyActivationReceipt(db, me, e, genuine).0)
  {
    var db' := ApplyActivationReceipt(db, me, e, genuine).0;
    var remote := PeerOf(db, (e.payload.inviteId, me.agent));
    assert Writes(db, db', me.agent, remote, e.payload.inviteId);
    if Sound(db) { WritesSound(db, db', me.agent, remote, e.payload.inviteId); }
  }
}
