/** Whole runs of the pairing protocol. Every honest agent keeps one key pair; the network keeps every
    signed envelope ever released and may deliver any of them to anybody, any number of times, in any
    order, or never. Besides the honest agents there may be others, who sign whatever they like with
    keys of their own. All tables are keyed by the local agent, so one `Db` holds every agent's rows. */
module PairingRun {
  import opened Text
  import opened Store
  import opened Pairing

  /** A contact of `local` became active through an invite, with the peer key its session held. */
  datatype Entry = Entry(role: Role, local: AgentId, remote: AgentId, remoteKey: Key, inviteId: string)

  datatype World = World(db: Db, net: set<Envelope>, log: seq<Entry>)

  const INITIAL := World(EMPTY, {}, [])

  datatype Action =
    | DoInvite(me: AgentId, invite: InviteInput, now: int, id: string, secret: string, nonce: nat)
    | DoImport(me: AgentId, e: Envelope, now: int)
    | DoAccept(me: AgentId, accept: AcceptInput, now: int, newest: string, nonce: nat)
    | DoApprove(me: AgentId, e: Envelope, host: string, agent: Fingerprint, now: int, nonce: nat)
    | DoConfirm(me: AgentId, e: Envelope, now: int, nonce: nat)
    | DoActivate(me: AgentId, e: Envelope)
    | DoRevoke(me: AgentId, remote: AgentId, reason: string, now: int, newest: string, nonce: nat)
    | DoApplyRevocation(me: AgentId, e: Envelope)
    | DoBlock(me: AgentId, remote: AgentId)
    | Forge(e: Envelope)

  type Keys = map<AgentId, Key>

  predicate Honest(keys: Keys, key: Key) { key in keys.Values }

  function Release(w: World, db: Db, r: Result<Envelope>): World {
    if r.Ok? then w.(db := db, net := w.net + {r.value}) else w.(db := db)
  }

  function StepInvite(w: World, me: Identity, a: Action): World
    requires a.DoInvite?
  {
    var (db, r) := CreateInvite(w.db, me, a.invite, a.now, a.id, a.secret, a.nonce);
    Release(w, db, r)
  }

  function StepImport(w: World, me: Identity, a: Action): World
    requires a.DoImport?
  {
    w.(db := ImportInvite(w.db, me, a.e, a.now, a.e in w.net).0)
  }

  function StepAccept(w: World, me: Identity, a: Action): World
    requires a.DoAccept?
  {
    var (db, r) := AcceptInvite(w.db, me, a.accept, a.now, a.newest, a.nonce);
    Release(w, db, r)
  }

  function StepApprove(w: World, me: Identity, a: Action): World
    requires a.DoApprove?
  {
    var (db, r) := ApproveAcceptance(w.db, me, a.e, a.host, a.agent, a.now, a.e in w.net, a.nonce);
    Release(w, db, r)
  }

  function StepConfirm(w: World, me: Identity, a: Action): World
    requires a.DoConfirm?
  {
    var (db, r) := ApplyConfirmation(w.db, me, a.e, a.now, a.e in w.net, a.nonce);
    if r.Err? then w.(db := db)
    else Release(w, db, r).(log := w.log + [Entry(Invitee, me.agent, a.e.payload.inviter, a.e.payload.inviterKey, a.e.payload.inviteId)])
  }

  function StepActivate(w: World, me: Identity, a: Action): World
    requires a.DoActivate?
  {
    var (db, r) := ApplyActivationReceipt(w.db, me, a.e, a.e in w.net);
    if r.Err? then w
    else World(db, w.net, w.log + [Entry(Inviter, me.agent, a.e.payload.accepter, a.e.payload.accepterKey, a.e.payload.inviteId)])
  }

  function StepRevoke(w: World, me: Identity, a: Action): World
    requires a.DoRevoke?
  {
    var (db, r) := RevokeWithNotice(w.db, me, a.remote, a.reason, a.now, a.newest, a.nonce);
    Release(w, db, r)
  }

  /** One call by one honest agent, or one envelope signed by somebody else. */
  function Apply(keys: Keys, w: World, a: Action): World {
    if a.Forge? then
      if Honest(keys, a.e.key) then w else w.(net := w.net + {a.e})
    else if a.me !in keys then w
    else
      var me := Identity(a.me, keys[a.me]);
      match a
      case DoInvite(_, _, _, _, _, _) => StepInvite(w, me, a)
      case DoImport(_, _, _) => StepImport(w, me, a)
      case DoAccept(_, _, _, _, _) => StepAccept(w, me, a)
      case DoApprove(_, _, _, _, _, _) => StepApprove(w, me, a)
      case DoConfirm(_, _, _, _) => StepConfirm(w, me, a)
      case DoActivate(_, _) => StepActivate(w, me, a)
      case DoRevoke(_, _, _, _, _, _) => StepRevoke(w, me, a)
      case DoApplyRevocation(_, e) => w.(db := ApplyRevocation(w.db, me, e, e in w.net).0)
      case DoBlock(_, remote) => w.(db := Block(w.db, a.me, remote).0)
  }

  function Run(keys: Keys, actions: seq<Action>): World {
    if actions == [] then INITIAL
    else Apply(keys, Run(keys, actions[..|actions| - 1]), actions[|actions| - 1])
  }

  // ---- what a run keeps ----

  /** Rows exist in pairs about the same peer, and an answered invite has its request consumed. */
  predicate Tables(db: Db) {
    && db.sessions.Keys == db.requests.Keys
    && forall row :: row in db.sessions ==> RowsFit(db.sessions[row], db.requests[row])
  }

  predicate RowsFit(s: Session, r: Request) {
    s.remote == r.remote && (s.acceptance != NoDigest ==> r.consumed)
  }

  /** The inviter's session describes the confirmation it names, and that confirmation is the inviter's own. */
  predicate Describes(s: Session, c: Envelope, row: RowKey, key: Key) {
    && c.payload.Confirmation? && c.agent == row.1 && c.key == key
    && c.payload.inviteId == row.0 && c.payload.inviter == row.1 && c.payload.inviterKey == key
    && c.payload.inviteDigest == s.invite && c.payload.acceptanceDigest == s.acceptance
    && s.acceptance != NoDigest
    && c.payload.inviterHost == s.localHost && c.payload.accepter == s.remote
    && s.remoteKey == Some(c.payload.accepterKey) && c.payload.accepterHost == s.remoteHost
  }

  predicate InviterSession(keys: Keys, s: Session, row: RowKey) {
    if s.remoteKey.None? then s.confirmation == NoDigest
    else s.confirmation.DigestOf? && row.1 in keys && Describes(s, s.confirmation.envelope, row, keys[row.1])
  }

  predicate InviterSessions(keys: Keys, db: Db) {
    forall row :: row in db.sessions && db.sessions[row].role == Inviter ==> InviterSession(keys, db.sessions[row], row)
  }

  predicate OwnEnvelopes(keys: Keys, net: set<Envelope>) {
    forall e :: e in net && Honest(keys, e.key) ==> e.agent in keys && keys[e.agent] == e.key
  }

  /** An honest confirmation on the network is the one its signer's session names. */
  predicate ConfirmationHeld(keys: Keys, db: Db, e: Envelope)
    requires e.payload.Confirmation?
  {
    var row := (e.payload.inviteId, e.agent);
    row in db.sessions && db.sessions[row].role == Inviter && db.sessions[row].confirmation == DigestOf(e)
  }

  predicate HonestConfirmations(keys: Keys, db: Db, net: set<Envelope>) {
    forall e :: e in net && Honest(keys, e.key) && e.payload.Confirmation? ==> ConfirmationHeld(keys, db, e)
  }

  /** Both sides hold the same three digests and each other's key and host. */
  predicate Agree(keys: Keys, db: Db, id: string, inviter: AgentId, invitee: AgentId) {
    && inviter in keys && invitee in keys
    && (id, inviter) in db.sessions && (id, invitee) in db.sessions
    && var si, se := db.sessions[(id, inviter)], db.sessions[(id, invitee)];
       && si.role == Inviter && se.role == Invitee
       && si.remote == invitee && se.remote == inviter
       && si.invite == se.invite && si.acceptance == se.acceptance && si.confirmation == se.confirmation
       && si.confirmation != NoDigest && si.acceptance != NoDigest
       && si.remoteKey == Some(keys[invitee]) && se.remoteKey == Some(keys[inviter])
       && si.remoteHost == se.localHost && se.remoteHost == si.localHost
  }

  /** An honest receipt for an honest confirmation was released by an invitee that agreed and became active. */
  predicate ReceiptHeld(keys: Keys, w: World, e: Envelope)
    requires e.payload.Activation?
  {
    var c := e.payload.confirmationDigest;
    c.DigestOf? && Honest(keys, c.envelope.key) ==>
      && c.envelope.payload.Confirmation?
      && e.payload.inviteId == c.envelope.payload.inviteId
      && e.payload.inviter == c.envelope.agent && e.payload.accepter == e.agent
      && Agree(keys, w.db, e.payload.inviteId, c.envelope.agent, e.agent)
      && w.db.sessions[(e.payload.inviteId, e.agent)].confirmation == c
      && Entry(Invitee, e.agent, c.envelope.agent, c.envelope.key, e.payload.inviteId) in w.log
  }

  predicate HonestReceipts(keys: Keys, w: World) {
    forall e :: e in w.net && Honest(keys, e.key) && e.payload.Activation? ==> ReceiptHeld(keys, w, e)
  }

  /** What the log records: with an honest peer, both sessions agree; and an inviter became active
      only after its invitee had. */
  predicate EntryHolds(keys: Keys, w: World, n: nat)
    requires n < |w.log|
  {
    var x := w.log[n];
    Honest(keys, x.remoteKey) ==>
      && x.remote in keys && keys[x.remote] == x.remoteKey && x.local in keys
      && (x.role == Invitee ==> Agree(keys, w.db, x.inviteId, x.remote, x.local))
      && (x.role == Inviter ==>
            && Agree(keys, w.db, x.inviteId, x.local, x.remote)
            && Entry(Invitee, x.remote, x.local, keys[x.local], x.inviteId) in w.log[..n])
  }

  predicate LogHolds(keys: Keys, w: World) {
    forall n :: 0 <= n < |w.log| ==> EntryHolds(keys, w, n)
  }

  ghost predicate Inv(keys: Keys, w: World) {
    && Tables(w.db) && InviterSessions(keys, w.db) && OwnEnvelopes(keys, w.net)
    && HonestConfirmations(keys, w.db, w.net) && HonestReceipts(keys, w) && LogHolds(keys, w)
  }

  // ---- how a call may change rows that exist ----

  /** A session whose request is consumed is frozen, except that an invitee may apply a confirmation
      from its peer again. */
  predicate Keeps(keys: Keys, w: World, w': World, row: RowKey)
    requires row in w.db.sessions && row in w'.db.sessions && row in w.db.requests
  {
    var s, t := w.db.sessions[row], w'.db.sessions[row];
    w.db.requests[row].consumed ==>
      && (s.role == Inviter ==> t.(updatedAt := s.updatedAt) == s)
      && (s.role == Invitee ==> t.(updatedAt := s.updatedAt, confirmation := s.confirmation) == s)
      && (t.confirmation != s.confirmation ==>
            && t.confirmation.DigestOf?
            && var c := t.confirmation.envelope;
               c in w.net && c.payload.Confirmation? && c.payload.inviteId == row.0
               && c.agent == s.remote && s.remoteKey == Some(c.key))
  }

  predicate Extends(keys: Keys, w: World, w': World) {
    && w.net <= w'.net && w.log <= w'.log
    && w.db.sessions.Keys <= w'.db.sessions.Keys
    && forall row :: row in w.db.sessions ==> row in w.db.requests && Keeps(keys, w, w', row)
  }

  /** Agreement, once reached with the invitee's request consumed, survives any such change. */
  lemma AgreeKept(keys: Keys, w: World, w': World, id: string, inviter: AgentId, invitee: AgentId)
    requires Inv(keys, w) && Extends(keys, w, w')
    requires Agree(keys, w.db, id, inviter, invitee)
    requires (forall a :: a in keys ==> Honest(keys, keys[a]))
    ensures Agree(keys, w'.db, id, inviter, invitee)
    ensures w'.db.sessions[(id, invitee)].confirmation == w.db.sessions[(id, invitee)].confirmation
  {
    var ri, re := (id, inviter), (id, invitee);
    assert w.db.requests[ri].consumed && w.db.requests[re].consumed;
    assert Keeps(keys, w, w', ri) && Keeps(keys, w, w', re);
    var se, te := w.db.sessions[re], w'.db.sessions[re];
    if te.confirmation.DigestOf? {
      var c := te.confirmation.envelope;
      if c in w.net && Honest(keys, c.key) && c.payload.Confirmation? {
        assert ConfirmationHeld(keys, w.db, c);
      }
    }
  }

  lemma HonestOwn(keys: Keys)
    ensures forall a :: a in keys ==> Honest(keys, keys[a])
  {
  }

  /** Everything already released or logged stays justified. */
  lemma OldKept(keys: Keys, w: World, w': World)
    requires Inv(keys, w) && Extends(keys, w, w')
    ensures forall e :: e in w.net && Honest(keys, e.key) && e.payload.Confirmation? ==> ConfirmationHeld(keys, w'.db, e)
    ensures forall e :: e in w.net && Honest(keys, e.key) && e.payload.Activation? ==> ReceiptHeld(keys, w', e)
    ensures forall n :: 0 <= n < |w.log| ==> EntryHolds(keys, w', n)
  {
    HonestOwn(keys);
    forall e | e in w.net && Honest(keys, e.key) && e.payload.Confirmation?
      ensures ConfirmationHeld(keys, w'.db, e)
    {
      ConfirmationKept(keys, w, w', e);
    }
    forall e | e in w.net && Honest(keys, e.key) && e.payload.Activation?
      ensures ReceiptHeld(keys, w', e)
    {
      ReceiptKept(keys, w, w', e);
    }
    forall n | 0 <= n < |w.log|
      ensures EntryHolds(keys, w', n)
    {
      EntryKept(keys, w, w', n);
    }
  }

  lemma ConfirmationKept(keys: Keys, w: World, w': World, e: Envelope)
    requires Inv(keys, w) && Extends(keys, w, w')
    requires e in w.net && Honest(keys, e.key) && e.payload.Confirmation?
    ensures ConfirmationHeld(keys, w'.db, e)
  {
    var row := (e.payload.inviteId, e.agent);
    assert ConfirmationHeld(keys, w.db, e);
    assert w.db.requests[row].consumed;
    assert Keeps(keys, w, w', row);
  }

  lemma ReceiptKept(keys: Keys, w: World, w': World, e: Envelope)
    requires Inv(keys, w) && Extends(keys, w, w')
    requires e in w.net && Honest(keys, e.key) && e.payload.Activation?
    ensures ReceiptHeld(keys, w', e)
  {
    HonestOwn(keys);
    assert ReceiptHeld(keys, w, e);
    var c := e.payload.confirmationDigest;
    if c.DigestOf? && Honest(keys, c.envelope.key) {
      AgreeKept(keys, w, w', e.payload.inviteId, c.envelope.agent, e.agent);
    }
  }

  lemma EntryKept(keys: Keys, w: World, w': World, n: nat)
    requires Inv(keys, w) && Extends(keys, w, w') && n < |w.log|
    ensures EntryHolds(keys, w', n)
  {
    HonestOwn(keys);
    assert EntryHolds(keys, w, n);
    var x := w.log[n];
    assert w'.log[n] == x && w'.log[..n] == w.log[..n];
    if Honest(keys, x.remoteKey) {
      if x.role == Invitee {
        AgreeKept(keys, w, w', x.inviteId, x.remote, x.local);
      } else {
        AgreeKept(keys, w, w', x.inviteId, x.local, x.remote);
      }
    }
  }

  /** It remains to justify what the call itself wrote, released and logged. */
  lemma Conclude(keys: Keys, w: World, w': World)
    requires Inv(keys, w) && Extends(keys, w, w')
    requires Tables(w'.db) && InviterSessions(keys, w'.db) && OwnEnvelopes(keys, w'.net)
    requires forall e :: e in w'.net && e !in w.net && Honest(keys, e.key) && e.payload.Confirmation? ==> ConfirmationHeld(keys, w'.db, e)
    requires forall e :: e in w'.net && e !in w.net && Honest(keys, e.key) && e.payload.Activation? ==> ReceiptHeld(keys, w', e)
    requires forall n :: |w.log| <= n < |w'.log| ==> EntryHolds(keys, w', n)
    ensures Inv(keys, w')
  {
    OldKept(keys, w, w');
  }

  /** A call that wrote one request row and the session row beside it. */
  lemma RowWritten(keys: Keys, w: World, w': World, row: RowKey, r: Request, s: Session)
    requires Inv(keys, w) && w.net <= w'.net && w.log <= w'.log
    requires w'.db.requests == w.db.requests[row := r] && w'.db.sessions == w.db.sessions[row := s]
    requires row in w.db.sessions ==> Keeps(keys, w, w', row)
    requires RowsFit(s, r)
    requires s.role == Inviter ==> InviterSession(keys, s, row)
    ensures Extends(keys, w, w') && Tables(w'.db) && InviterSessions(keys, w'.db)
  {
  }

  lemma NoRowWritten(keys: Keys, w: World, w': World)
    requires Inv(keys, w) && w.net <= w'.net && w.log <= w'.log
    requires w'.db.requests == w.db.requests && w'.db.sessions == w.db.sessions
    ensures Extends(keys, w, w') && Tables(w'.db) && InviterSessions(keys, w'.db)
  {
  }

  /** Envelopes other than confirmations and receipts need no justification. */
  lemma Quietly(keys: Keys, w: World, w': World)
    requires Inv(keys, w) && Extends(keys, w, w') && Tables(w'.db) && InviterSessions(keys, w'.db)
    requires OwnEnvelopes(keys, w'.net) && w'.log == w.log
    requires forall e :: e in w'.net && e !in w.net && Honest(keys, e.key) ==> !e.payload.Confirmation? && !e.payload.Activation?
    ensures Inv(keys, w')
  {
    Conclude(keys, w, w');
  }

  // ---- every call keeps the invariant ----

  lemma InviteKeeps(keys: Keys, w: World, a: Action)
    requires Inv(keys, w) && a.DoInvite? && a.me in keys
    ensures Inv(keys, StepInvite(w, Identity(a.me, keys[a.me]), a))
  {
    var w' := StepInvite(w, Identity(a.me, keys[a.me]), a);
    if w' != w {
      InviteWrites(keys, w, a);
      var row := (a.id, a.me);
      RowWritten(keys, w, w', row, w'.db.requests[row], w'.db.sessions[row]);
      Quietly(keys, w, w');
    }
  }

  lemma InviteWrites(keys: Keys, w: World, a: Action)
    requires a.DoInvite? && a.me in keys && StepInvite(w, Identity(a.me, keys[a.me]), a) != w
    ensures var row := (a.id, a.me);
            var w' := StepInvite(w, Identity(a.me, keys[a.me]), a);
            var envelope := InviteEnvelope(Identity(a.me, keys[a.me]), a.invite, a.now, a.id, a.secret, a.nonce);
            && row !in w.db.requests && row in w'.db.requests && row in w'.db.sessions
            && w'.db.requests == w.db.requests[row := w'.db.requests[row]]
            && w'.db.sessions == w.db.sessions[row :=
                 Session(a.invite.remote, Inviter, a.invite.host, "", None, DigestOf(envelope), NoDigest, NoDigest, a.now)]
            && RowsFit(w'.db.sessions[row], w'.db.requests[row])
            && w'.log == w.log && (w'.net == w.net || w'.net == w.net + {envelope})
  {
  }

  lemma ImportKeeps(keys: Keys, w: World, a: Action)
    requires Inv(keys, w) && a.DoImport? && a.me in keys
    ensures Inv(keys, StepImport(w, Identity(a.me, keys[a.me]), a))
  {
    var w' := StepImport(w, Identity(a.me, keys[a.me]), a);
    if w' != w {
      var row := (a.e.payload.inviteId, a.me);
      RowWritten(keys, w, w', row, w'.db.requests[row], w'.db.sessions[row]);
      Quietly(keys, w, w');
    }
  }

  lemma AcceptKeeps(keys: Keys, w: World, a: Action)
    requires Inv(keys, w) && a.DoAccept? && a.me in keys
    ensures Inv(keys, StepAccept(w, Identity(a.me, keys[a.me]), a))
  {
    var w' := StepAccept(w, Identity(a.me, keys[a.me]), a);
    if w' != w {
      AcceptWrites(w, Identity(a.me, keys[a.me]), a);
      AnswerKeeps(keys, w, w', (a.newest, a.me), w'.db.sessions[(a.newest, a.me)]);
    }
  }

  /** An unanswered invite is answered: its request is consumed, its session gets an acceptance. */
  predicate Answered(w: World, w': World, row: RowKey, s: Session) {
    && row in w.db.sessions && row in w.db.requests && !w.db.requests[row].consumed
    && w'.db.requests == w.db.requests[row := w.db.requests[row].(consumed := true)]
    && w'.db.sessions == w.db.sessions[row := s]
    && s == w.db.sessions[row].(localHost := s.localHost, acceptance := s.acceptance, updatedAt := s.updatedAt)
    && w'.log == w.log && w.net <= w'.net
  }

  lemma AnswerKeeps(keys: Keys, w: World, w': World, row: RowKey, s: Session)
    requires Inv(keys, w) && Answered(w, w', row, s)
    requires forall e :: e in w'.net && e !in w.net ==> e.agent in keys && e.key == keys[e.agent] && e.payload.Acceptance?
    ensures Inv(keys, w')
  {
    assert RowsFit(w.db.sessions[row], w.db.requests[row]);
    if s.role == Inviter {
      assert InviterSession(keys, w.db.sessions[row], row);
    }
    RowWritten(keys, w, w', row, w'.db.requests[row], s);
    Quietly(keys, w, w');
  }

  lemma AcceptWrites(w: World, me: Identity, a: Action)
    requires a.DoAccept? && StepAccept(w, me, a) != w
    ensures var w' := StepAccept(w, me, a);
            && (a.newest, me.agent) in w'.db.sessions
            && Answered(w, w', (a.newest, me.agent), w'.db.sessions[(a.newest, me.agent)])
            && forall e :: e in w'.net && e !in w.net ==> e.agent == me.agent && e.key == me.key && e.payload.Acceptance?
  {
  }

  lemma ApproveKeeps(keys: Keys, w: World, a: Action)
    requires Inv(keys, w) && a.DoApprove? && a.me in keys
    ensures Inv(keys, StepApprove(w, Identity(a.me, keys[a.me]), a))
  {
    var w' := StepApprove(w, Identity(a.me, keys[a.me]), a);
    if w' != w {
      var row := (a.e.payload.inviteId, a.me);
      ApproveWrites(keys, w, a);
      RowWritten(keys, w, w', row, w'.db.requests[row], w'.db.sessions[row]);
      forall e | e in w'.net && e !in w.net
        ensures e.payload.Confirmation? && ConfirmationHeld(keys, w'.db, e)
      {
      }
      Conclude(keys, w, w');
    }
  }

  /** An approval that writes turns an unanswered invite into one described by its confirmation. */
  lemma ApproveWrites(keys: Keys, w: World, a: Action)
    requires a.DoApprove? && a.me in keys && StepApprove(w, Identity(a.me, keys[a.me]), a) != w
    ensures a.e.payload.Acceptance?
    ensures var row := (a.e.payload.inviteId, a.me);
            var w' := StepApprove(w, Identity(a.me, keys[a.me]), a);
            && row in w.db.sessions && row in w.db.requests && !w.db.requests[row].consumed
            && row in w'.db.sessions && w'.db.sessions == w.db.sessions[row := w'.db.sessions[row]]
            && w'.db.requests == w.db.requests[row := w.db.requests[row].(consumed := true)]
            && w'.db.sessions[row].role == Inviter && w'.db.sessions[row].confirmation.DigestOf?
            && w'.db.sessions[row].remote == w.db.sessions[row].remote && w'.db.sessions[row].acceptance != NoDigest
            && (RowsFit(w.db.sessions[row], w.db.requests[row]) ==> InviterSession(keys, w'.db.sessions[row], row))
            && (w'.net == w.net || w'.net == w.net + {w'.db.sessions[row].confirmation.envelope})
  {
  }

  /** An invitee that applies an honest confirmation agrees with its inviter. */
  lemma ConfirmAgrees(keys: Keys, w: World, a: Action)
    requires Inv(keys, w) && a.DoConfirm? && a.me in keys
    requires ApplyConfirmation(w.db, Identity(a.me, keys[a.me]), a.e, a.now, a.e in w.net, a.nonce).1.Ok?
    requires Honest(keys, a.e.key)
    ensures a.e.agent == a.e.payload.inviter && a.e.key == a.e.payload.inviterKey
    ensures Agree(keys, StepConfirm(w, Identity(a.me, keys[a.me]), a).db, a.e.payload.inviteId, a.e.agent, a.me)
    ensures StepConfirm(w, Identity(a.me, keys[a.me]), a).db.sessions[(a.e.payload.inviteId, a.me)].confirmation == DigestOf(a.e)
  {
    assert ConfirmationHeld(keys, w.db, a.e);
    var row := (a.e.payload.inviteId, a.e.agent);
    assert InviterSession(keys, w.db.sessions[row], row);
    assert row != (a.e.payload.inviteId, a.me);
  }

  /** What a confirm call writes, releases and logs, if it changes anything. */
  lemma ConfirmWrites(keys: Keys, w: World, a: Action)
    requires a.DoConfirm? && a.me in keys && StepConfirm(w, Identity(a.me, keys[a.me]), a) != w
    ensures a.e.payload.Confirmation?
    ensures var row := (a.e.payload.inviteId, a.me);
            var w' := StepConfirm(w, Identity(a.me, keys[a.me]), a);
            && row in w.db.sessions && a.e in w.net && w.db.sessions[row].role == Invitee
            && a.e.agent == w.db.sessions[row].remote && w.db.sessions[row].remoteKey == Some(a.e.key)
            && w'.db.sessions == w.db.sessions[row := w.db.sessions[row].(confirmation := DigestOf(a.e), updatedAt := a.now)]
            && w'.db.requests == w.db.requests
            && if ApplyConfirmation(w.db, Identity(a.me, keys[a.me]), a.e, a.now, true, a.nonce).1.Err?
               then w'.net == w.net && w'.log == w.log
               else w'.log == w.log + [Entry(Invitee, a.me, a.e.agent, a.e.key, a.e.payload.inviteId)]
                    && w'.net == w.net + {ActivationEnvelope(Identity(a.me, keys[a.me]), a.e.payload.inviteId, a.e, w.db.sessions[row], a.nonce)}
  {
  }

  lemma ConfirmKeeps(keys: Keys, w: World, a: Action)
    requires Inv(keys, w) && a.DoConfirm? && a.me in keys
    ensures Inv(keys, StepConfirm(w, Identity(a.me, keys[a.me]), a))
  {
    var w' := StepConfirm(w, Identity(a.me, keys[a.me]), a);
    if w' != w {
      ConfirmWrites(keys, w, a);
      var row := (a.e.payload.inviteId, a.me);
      assert w'.db.requests == w.db.requests[row := w.db.requests[row]];
      RowWritten(keys, w, w', row, w.db.requests[row], w'.db.sessions[row]);
      if w'.log == w.log {
        Quietly(keys, w, w');
      } else {
        if Honest(keys, a.e.key) {
          ConfirmAgrees(keys, w, a);
        }
        var receipt := ActivationEnvelope(Identity(a.me, keys[a.me]), a.e.payload.inviteId, a.e, w.db.sessions[row], a.nonce);
        assert ReceiptHeld(keys, w', receipt);
        assert EntryHolds(keys, w', |w.log|);
        Conclude(keys, w, w');
      }
    }
  }

  lemma ActivateKeeps(keys: Keys, w: World, a: Action)
    requires Inv(keys, w) && a.DoActivate? && a.me in keys
    ensures Inv(keys, StepActivate(w, Identity(a.me, keys[a.me]), a))
  {
    var w' := StepActivate(w, Identity(a.me, keys[a.me]), a);
    HonestOwn(keys);
    if w'.log != w.log {
      var row := (a.e.payload.inviteId, a.me);
      assert InviterSession(keys, w.db.sessions[row], row);
      if Honest(keys, a.e.key) {
        assert ReceiptHeld(keys, w, a.e);
        assert w'.log[..|w.log|] == w.log;
      }
      assert EntryHolds(keys, w', |w.log|);
    }
    Conclude(keys, w, w');
  }

  lemma SeverKeeps(keys: Keys, w: World, a: Action)
    requires Inv(keys, w) && (a.DoRevoke? || a.DoApplyRevocation? || a.DoBlock?) && a.me in keys
    ensures Inv(keys, Apply(keys, w, a))
  {
    var w' := Apply(keys, w, a);
    NoRowWritten(keys, w, w');
    Quietly(keys, w, w');
  }

  lemma ForgeKeeps(keys: Keys, w: World, a: Action)
    requires Inv(keys, w) && a.Forge?
    ensures Inv(keys, Apply(keys, w, a))
  {
    var w' := Apply(keys, w, a);
    NoRowWritten(keys, w, w');
    Quietly(keys, w, w');
  }

  lemma ApplyKeeps(keys: Keys, w: World, a: Action)
    requires Inv(keys, w)
    ensures Inv(keys, Apply(keys, w, a))
  {
    if !a.Forge? && a.me !in keys {
      assert Apply(keys, w, a) == w;
    } else {
      match a
      case DoInvite(_, _, _, _, _, _) => InviteKeeps(keys, w, a);
      case DoImport(_, _, _) => ImportKeeps(keys, w, a);
      case DoAccept(_, _, _, _, _) => AcceptKeeps(keys, w, a);
      case DoApprove(_, _, _, _, _, _) => ApproveKeeps(keys, w, a);
      case DoConfirm(_, _, _, _) => ConfirmKeeps(keys, w, a);
      case DoActivate(_, _) => ActivateKeeps(keys, w, a);
      case Forge(_) => ForgeKeeps(keys, w, a);
      case _ => SeverKeeps(keys, w, a);
    }
  }

  lemma {:induction false} RunKeeps(keys: Keys, actions: seq<Action>)
    ensures Inv(keys, Run(keys, actions))
    decreases |actions|
  {
    if actions != [] {
      RunKeeps(keys, actions[..|actions| - 1]);
      ApplyKeeps(keys, Run(keys, actions[..|actions| - 1]), actions[|actions| - 1]);
    }
  }

  /** Pairing agreement. In every run, whenever an honest agent's contact became active through an
      invite with a peer key that belongs to an honest agent: the peer is that agent; both sessions of
      the invite hold the same invite, acceptance and confirmation digests and each other's key and
      host; and if the agent was the inviter, its invitee had become active through that invite before. */
  lemma PairingAgreement(keys: Keys, actions: seq<Action>, n: nat)
    requires n < |Run(keys, actions).log|
    requires Honest(keys, Run(keys, actions).log[n].remoteKey)
    ensures var w := Run(keys, actions);
            var x := w.log[n];
            && x.local in keys && x.remote in keys && keys[x.remote] == x.remoteKey
            && (x.role == Invitee ==> Agree(keys, w.db, x.inviteId, x.remote, x.local))
            && (x.role == Inviter ==> Agree(keys, w.db, x.inviteId, x.local, x.remote))
            && (x.role == Inviter ==> exists m :: 0 <= m < n && w.log[m] == Entry(Invitee, x.remote, x.local, keys[x.local], x.inviteId))
  {
    RunKeeps(keys, actions);
    var w := Run(keys, actions);
    assert EntryHolds(keys, w, n);
    var x := w.log[n];
    if x.role == Inviter {
      var y := Entry(Invitee, x.remote, x.local, keys[x.local], x.inviteId);
      var m :| 0 <= m < |w.log[..n]| && w.log[..n][m] == y;
      assert w.log[m] == y;
    }
  }

  // ---- identity pinning ----

  predicate IsPinned(w: World, pair: Pair) { pair in w.db.contacts && Pinned(w.db.contacts[pair].state) }

  predicate IsActive(w: World, pair: Pair) { pair in w.db.contacts && w.db.contacts[pair].state == Active }

  predicate SameIdentity(c: Contact, d: Contact) { c.host == d.host && c.agent == d.agent }

  /** A pinned contact keeps its fingerprints, and a contact becomes active only from awaiting. */
  predicate IdentityKept(w: World, w': World, pair: Pair) {
    && (pair in w.db.contacts ==> pair in w'.db.contacts)
    && (IsPinned(w, pair) ==> SameIdentity(w.db.contacts[pair], w'.db.contacts[pair]))
    && (IsActive(w', pair) && !IsActive(w, pair) ==> IsPinned(w, pair))
  }

  lemma HandshakeKeepsIdentity(w: World, me: Identity, a: Action, pair: Pair)
    ensures a.DoInvite? ==> IdentityKept(w, StepInvite(w, me, a), pair)
    ensures a.DoImport? ==> IdentityKept(w, StepImport(w, me, a), pair)
    ensures a.DoAccept? ==> IdentityKept(w, StepAccept(w, me, a), pair)
  {
  }

  lemma ReplyKeepsIdentity(w: World, me: Identity, a: Action, pair: Pair)
    ensures a.DoApprove? ==> IdentityKept(w, StepApprove(w, me, a), pair)
    ensures a.DoConfirm? ==> IdentityKept(w, StepConfirm(w, me, a), pair)
    ensures a.DoActivate? ==> IdentityKept(w, StepActivate(w, me, a), pair)
  {
  }

  /** One call, whichever it is, keeps identities. */
  lemma CallKeepsIdentity(keys: Keys, w: World, a: Action, pair: Pair)
    ensures IdentityKept(w, Apply(keys, w, a), pair)
  {
    if !a.Forge? && a.me in keys {
      var me := Identity(a.me, keys[a.me]);
      HandshakeKeepsIdentity(w, me, a, pair);
      ReplyKeepsIdentity(w, me, a, pair);
      if a.DoRevoke? {
        assert IdentityKept(w, StepRevoke(w, me, a), pair);
      }
    }
  }

  /** Over any stretch of any run in which a contact stays active or awaiting confirmation, its host
      and agent fingerprints do not change. */
  lemma {:induction false} IdentityPinnedOverRuns(keys: Keys, actions: seq<Action>, m: nat, n: nat, pair: Pair)
    requires m <= n <= |actions|
    requires forall j :: m <= j <= n ==> IsPinned(Run(keys, actions[..j]), pair)
    ensures IsPinned(Run(keys, actions[..m]), pair) && IsPinned(Run(keys, actions[..n]), pair)
    ensures SameIdentity(Run(keys, actions[..m]).db.contacts[pair], Run(keys, actions[..n]).db.contacts[pair])
    decreases n - m
  {
    assert IsPinned(Run(keys, actions[..m]), pair) && IsPinned(Run(keys, actions[..n]), pair);
    if m < n {
      IdentityPinnedOverRuns(keys, actions, m, n - 1, pair);
      assert actions[..n][..n - 1] == actions[..n - 1];
      assert IsPinned(Run(keys, actions[..n - 1]), pair);
      CallKeepsIdentity(keys, Run(keys, actions[..n - 1]), actions[n - 1], pair);
    }
  }

  /** In every run a contact that becomes active at some call was awaiting confirmation before it. */
  lemma ActiveOnlyFromAwaiting(keys: Keys, actions: seq<Action>, n: nat, pair: Pair)
    requires n < |actions|
    requires IsActive(Run(keys, actions[..n + 1]), pair) && !IsActive(Run(keys, actions[..n]), pair)
    ensures pair in Run(keys, actions[..n]).db.contacts
    ensures Run(keys, actions[..n]).db.contacts[pair].state == AwaitingConfirmation
  {
    assert actions[..n + 1][..n] == actions[..n];
    CallKeepsIdentity(keys, Run(keys, actions[..n]), actions[n], pair);
  }

  // ---- every activation is logged ----

  predicate Logs(w: World, w': World, pair: Pair) {
    |w'.log| == |w.log| + 1 && w.log <= w'.log && w'.log[|w.log|].local == pair.0 && w'.log[|w.log|].remote == pair.1
  }

  lemma HandshakeActivates(w: World, me: Identity, a: Action, pair: Pair)
    ensures a.DoInvite? ==> (IsActive(StepInvite(w, me, a), pair) ==> IsActive(w, pair))
    ensures a.DoImport? ==> (IsActive(StepImport(w, me, a), pair) ==> IsActive(w, pair))
    ensures a.DoAccept? ==> (IsActive(StepAccept(w, me, a), pair) ==> IsActive(w, pair))
    ensures a.DoApprove? ==> (IsActive(StepApprove(w, me, a), pair) ==> IsActive(w, pair))
  {
  }

  lemma ConfirmLogs(w: World, me: Identity, a: Action, pair: Pair)
    requires a.DoConfirm? && IsActive(StepConfirm(w, me, a), pair) && !IsActive(w, pair)
    ensures Logs(w, StepConfirm(w, me, a), pair)
  {
  }

  lemma ActivateLogs(w: World, me: Identity, a: Action, pair: Pair)
    requires a.DoActivate? && IsActive(StepActivate(w, me, a), pair) && !IsActive(w, pair)
    ensures Logs(w, StepActivate(w, me, a), pair)
  {
  }

  /** A contact that becomes active adds its entry to the log, whichever call it is. */
  lemma CallLogs(keys: Keys, w: World, a: Action, pair: Pair)
    requires IsActive(Apply(keys, w, a), pair) && !IsActive(w, pair)
    ensures Logs(w, Apply(keys, w, a), pair)
  {
    var me := Identity(a.me, keys[a.me]);
    HandshakeActivates(w, me, a, pair);
    if a.DoConfirm? {
      ConfirmLogs(w, me, a, pair);
    } else if a.DoActivate? {
      ActivateLogs(w, me, a, pair);
    }
  }

  /** Pairing agreement in terms of contacts: a contact that becomes active at the n-th call does so
      through an invite, named by the log entry of that call; if the peer key of that entry is an
      honest agent's, that agent is the contact's remote agent, both sessions of the invite agree, and
      an inviter's invitee had become active through it before. */
  lemma ActiveContactsAgree(keys: Keys, actions: seq<Action>, n: nat, pair: Pair)
    requires n < |actions|
    requires IsActive(Run(keys, actions[..n + 1]), pair) && !IsActive(Run(keys, actions[..n]), pair)
    ensures Logs(Run(keys, actions[..n]), Run(keys, actions[..n + 1]), pair)
    ensures var w := Run(keys, actions[..n + 1]);
            var k := |w.log| - 1;
            var x := w.log[k];
            Honest(keys, x.remoteKey) ==>
              && x.local == pair.0 && x.remote == pair.1 && pair.0 in keys && pair.1 in keys && keys[pair.1] == x.remoteKey
              && (x.role == Invitee ==> Agree(keys, w.db, x.inviteId, pair.1, pair.0))
              && (x.role == Inviter ==> Agree(keys, w.db, x.inviteId, pair.0, pair.1))
              && (x.role == Inviter ==> exists m :: 0 <= m < k && w.log[m] == Entry(Invitee, pair.1, pair.0, keys[pair.0], x.inviteId))
  {
    assert actions[..n + 1][..n] == actions[..n];
    CallLogs(keys, Run(keys, actions[..n]), actions[n], pair);
    var w := Run(keys, actions[..n + 1]);
    var k := |w.log| - 1;
    if Honest(keys, w.log[k].remoteKey) {
      PairingAgreement(keys, actions[..n + 1], k);
    }
  }
}
