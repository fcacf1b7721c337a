/** When the pairing calls succeed: for each call exactly on which input and tables, and what a
    successful call leaves; the complete handshake; and what holds of requests over whole runs. */
module PairingLife {
  import opened Text
  import opened Store
  import opened Pairing
  import opened PairingRun

  /** The contact may be written with this identity: it is not pinned to another one. */
  predicate Writable(db: Db, pair: Pair, host: string, agent: Fingerprint) {
    HasState(db, pair, Active) || HasState(db, pair, AwaitingConfirmation) ==> db.contacts[pair].host == host && db.contacts[pair].agent == agent
  }

  predicate HasState(db: Db, pair: Pair, state: ContactState) { pair in db.contacts && db.contacts[pair].state == state }

  /** A request that may be used once more, and not too late. */
  predicate Usable(db: Db, row: RowKey, now: int) { row in db.requests && !db.requests[row].consumed && now < db.requests[row].expiresAt }

  // ---- each call, exactly ----

  lemma InviteExactly(db: Db, me: Identity, input: InviteInput, now: int, id: string, secret: string, nonce: nat)
    ensures var (db', r) := CreateInvite(db, me, input, now, id, secret, nonce);
            && (r.Ok? <==> input.remote != "" && input.remote != me.agent && input.address != "" && input.ttl > 0
                           && (id, me.agent) !in db.requests && !HasState(db, (me.agent, input.remote), Blocked)
                           && Writable(db, (me.agent, input.remote), "", NoFingerprint))
            && (r.Ok? ==> var e := r.value;
                  && e == Envelope(me.agent, me.key, e.payload, nonce)
                  && e.payload == Invite(id, me.agent, me.key, input.host, input.address, input.nodeId, input.remote, secret, now + input.ttl)
                  && db' == db.(
                       contacts := db.contacts[(me.agent, input.remote) := Contact("", "", "", NoFingerprint, PendingOutbound)],
                       requests := db.requests[(id, me.agent) := Request(input.remote, "", NoFingerprint, secret, now + input.ttl, false)],
                       sessions := db.sessions[(id, me.agent) := Session(input.remote, Inviter, input.host, "", None, DigestOf(e), NoDigest, NoDigest, now)]))
  {
  }

  lemma ImportExactly(db: Db, me: Identity, e: Envelope, now: int, genuine: bool)
    ensures var (db', r) := ImportInvite(db, me, e, now, genuine);
            && (r.Ok? <==> e.payload.Invite? && var p := e.payload;
                             && p.target == me.agent && p.inviter != "" && now < p.expiresAt
                             && genuine && e.agent == p.inviter && e.key == p.inviterKey
                             && (p.inviteId, me.agent) !in db.requests && !HasState(db, (me.agent, p.inviter), Blocked)
                             && Writable(db, (me.agent, p.inviter), p.inviterHost, FingerprintOf(p.inviterKey)))
            && (r.Ok? ==> var p := e.payload;
                  db' == db.(
                    contacts := db.contacts[(me.agent, p.inviter) := Contact(p.nodeId, p.address, p.inviterHost, FingerprintOf(p.inviterKey), PendingInbound)],
                    requests := db.requests[(p.inviteId, me.agent) := Request(p.inviter, p.inviterHost, FingerprintOf(p.inviterKey), p.secret, p.expiresAt, false)],
                    sessions := db.sessions[(p.inviteId, me.agent) :=
                      Session(p.inviter, Invitee, "", p.inviterHost, Some(p.inviterKey), DigestOf(e), NoDigest, NoDigest, now)]))
  {
  }

  /** The contact an accept call is about: the named invite's peer, or the only pending one. */
  predicate Concerns(db: Db, me: AgentId, inviteId: string, remote: AgentId) {
    && HasState(db, (me, remote), PendingInbound)
    && if inviteId != "" then (inviteId, me) in db.sessions && db.sessions[(inviteId, me)].remote == remote
       else forall pair <- db.contacts :: pair.0 == me && db.contacts[pair].state == PendingInbound ==> pair == (me, remote)
  }

  lemma ConcernsExactly(db: Db, me: AgentId, inviteId: string, remote: AgentId)
    ensures AcceptTarget(db, me, inviteId) == Ok(remote) <==> Concerns(db, me, inviteId, remote)
  {
    if inviteId == "" {
      var pending := PendingContacts(db.contacts, me);
      if Concerns(db, me, inviteId, remote) {
        assert pending == {(me, remote)};
        assert |pending| == 1 && OnlyElementOf(pending) in pending;
      }
      if |pending| == 1 {
        var only := OnlyElementOf(pending);
        assert only in pending && only.0 == me;
        forall pair <- db.contacts | pair.0 == me && db.contacts[pair].state == PendingInbound ensures pair == only { assert pair in pending; }
      }
    }
  }

  lemma AcceptExactly(db: Db, me: Identity, input: AcceptInput, remote: AgentId, now: int, newest: string, nonce: nat)
    requires Concerns(db, me.agent, input.inviteId, remote)
    ensures var (db', r) := AcceptInvite(db, me, input, now, newest, nonce);
            var row, pair := (newest, me.agent), (me.agent, remote);
            && (r.Ok? <==> IsNewest(db.sessions, me.agent, remote, newest) && Usable(db, row, now))
            && (r.Ok? ==> var e, s, q := r.value, db.sessions[row], db.requests[row];
                  && e == Envelope(me.agent, me.key, e.payload, nonce)
                  && e.payload == Acceptance(newest, s.invite, q.remote, me.agent, me.key, input.host, input.address, input.nodeId,
                                             Proof(q.secret, s.invite, me.agent, input.host, me.key))
                  && db' == db.(
                       contacts := db.contacts[pair := db.contacts[pair].(state := AwaitingConfirmation)],
                       requests := db.requests[row := q.(consumed := true)],
                       sessions := db.sessions[row := s.(localHost := input.host, acceptance := DigestOf(e), updatedAt := now)]))
  {
    ConcernsExactly(db, me.agent, input.inviteId, remote);
  }

  /** An acceptance that answers this inviter's session and proves the secret. */
  predicate Answers(db: Db, me: Identity, e: Envelope)
    requires e.payload.Acceptance?
  {
    var p := e.payload;
    var row := (p.inviteId, me.agent);
    && row in db.requests && row in db.sessions
    && db.sessions[row].role == Inviter && db.requests[row].remote == p.accepter
    && p.inviter == me.agent && p.inviteDigest == db.sessions[row].invite
    && p.proof.secret == db.requests[row].secret && p.proof.inviteDigest == db.sessions[row].invite
    && p.proof.accepter == p.accepter && p.proof.host == p.accepterHost && p.proof.key == p.accepterKey
  }

  lemma ApproveExactly(db: Db, me: Identity, e: Envelope, host: string, agent: Fingerprint, now: int, genuine: bool, nonce: nat)
    ensures var (db', r) := ApproveAcceptance(db, me, e, host, agent, now, genuine, nonce);
            && (r.Ok? <==> e.payload.Acceptance? && var p := e.payload;
                             && agent == FingerprintOf(p.accepterKey) && (host == "" || host == p.accepterHost)
                             && genuine && e.agent == p.accepter && e.key == p.accepterKey
                             && Answers(db, me, e) && Usable(db, (p.inviteId, me.agent), now)
                             && Writable(db, (me.agent, p.accepter), p.accepterHost, FingerprintOf(p.accepterKey)))
            && (r.Ok? ==> var p := e.payload;
                  var row := (p.inviteId, me.agent);
                  var c, s := r.value, db.sessions[row];
                  && c == Envelope(me.agent, me.key, c.payload, nonce)
                  && c.payload == Confirmation(p.inviteId, s.invite, DigestOf(e), me.agent, me.key, s.localHost, p.accepter, p.accepterKey, p.accepterHost)
                  && db' == db.(
                       contacts := db.contacts[(me.agent, p.accepter) := Contact(p.nodeId, p.address, p.accepterHost, FingerprintOf(p.accepterKey), AwaitingConfirmation)],
                       requests := db.requests[row := db.requests[row].(consumed := true)],
                       sessions := db.sessions[row := s.(remoteHost := p.accepterHost, remoteKey := Some(p.accepterKey), acceptance := DigestOf(e),
                                                         confirmation := DigestOf(c), updatedAt := now)]))
  {
  }

  /** A confirmation from the session's peer, about this very invite and acceptance. */
  predicate Confirms(db: Db, me: Identity, e: Envelope)
    requires e.payload.Confirmation?
  {
    var p := e.payload;
    var row := (p.inviteId, me.agent);
    && row in db.sessions && var s := db.sessions[row];
       && s.role == Invitee && s.remote == p.inviter == e.agent && s.remoteKey == Some(p.inviterKey) && p.inviterKey == e.key
       && s.remoteHost == p.inviterHost && s.localHost == p.accepterHost && p.accepter == me.agent && p.accepterKey == me.key
       && s.invite == p.inviteDigest && s.acceptance == p.acceptanceDigest
  }

  lemma ConfirmExactly(db: Db, me: Identity, e: Envelope, now: int, genuine: bool, nonce: nat)
    ensures var (db', r) := ApplyConfirmation(db, me, e, now, genuine, nonce);
            && (r.Ok? <==> e.payload.Confirmation? && genuine && Confirms(db, me, e) && HasState(db, (me.agent, e.agent), AwaitingConfirmation))
            && (r.Ok? ==> var row, pair := (e.payload.inviteId, me.agent), (me.agent, e.agent);
                  var s := db.sessions[row];
                  && r.value == Envelope(me.agent, me.key, Activation(e.payload.inviteId, DigestOf(e), e.agent, me.agent, me.key, s.localHost), nonce)
                  && db' == db.(
                       contacts := db.contacts[pair := db.contacts[pair].(state := Active)],
                       sessions := db.sessions[row := s.(confirmation := DigestOf(e), updatedAt := now)]))
  {
  }

  /** A receipt from the session's peer, for the confirmation this inviter sent. */
  predicate Receipts(db: Db, me: Identity, e: Envelope)
    requires e.payload.Activation?
  {
    var p := e.payload;
    var row := (p.inviteId, me.agent);
    && row in db.sessions && var s := db.sessions[row];
       && s.role == Inviter && p.inviter == me.agent && s.remote == p.accepter == e.agent
       && s.remoteKey == Some(p.accepterKey) && p.accepterKey == e.key && s.remoteHost == p.accepterHost && s.confirmation == p.confirmationDigest
  }

  lemma ActivateExactly(db: Db, me: Identity, e: Envelope, genuine: bool)
    ensures var (db', r) := ApplyActivationReceipt(db, me, e, genuine);
            && (r.Ok? <==> e.payload.Activation? && genuine && Receipts(db, me, e) && HasState(db, (me.agent, e.agent), AwaitingConfirmation))
            && db' == if r.Ok? then db.(contacts := db.contacts[(me.agent, e.agent) := db.contacts[(me.agent, e.agent)].(state := Active)]) else db
  {
  }

  /** What severing a pair leaves, row by row. */
  predicate SeveredTo(db: Db, db': Db, pair: Pair, state: ContactState)
    requires pair in db.contacts
  {
    && db'.contacts == db.contacts[pair := db.contacts[pair].(state := state)] && db'.requests == db.requests && db'.sessions == db.sessions
    && db'.outbox.receipts == db.outbox.receipts && db'.outbox.rows.Keys == db.outbox.rows.Keys && db'.grants.Keys == db.grants.Keys
    && (forall id <- db.outbox.rows :: var row := db.outbox.rows[id];
          db'.outbox.rows[id] == if (row.source, row.target) == pair && row.state == Pending then row.(state := Cancelled) else row)
    && (forall id <- db.grants :: var g := db.grants[id]; db'.grants[id] == if (g.owner, g.target) == pair then g.(revoked := true) else g)
  }

  lemma RevokeExactly(db: Db, me: Identity, remote: AgentId, reason: string, now: int, newest: string, nonce: nat)
    ensures var (db', r) := RevokeWithNotice(db, me, remote, reason, now, newest, nonce);
            var pair := (me.agent, remote);
            && (if pair in db.contacts && db.contacts[pair].state != Blocked then SeveredTo(db, db', pair, Revoked) else db' == db && r.Err?)
            && (r.Ok? <==> pair in db.contacts && db.contacts[pair].state != Blocked && IsNewest(db.sessions, me.agent, remote, newest))
            && (r.Ok? ==> r.value == Envelope(me.agent, me.key,
                                              Revocation(me.agent, me.key, db.sessions[(newest, me.agent)].localHost, remote, reason, now), nonce))
  {
  }

  lemma ApplyRevocationExactly(db: Db, me: Identity, e: Envelope, genuine: bool)
    ensures var (db', r) := ApplyRevocation(db, me, e, genuine);
            && (r.Ok? <==> e.payload.Revocation? && genuine && var p := e.payload;
                             && p.target == me.agent && e.agent == p.revoker && e.key == p.revokerKey && (me.agent, p.revoker) in db.contacts
                             && db.contacts[(me.agent, p.revoker)].host == p.revokerHost
                             && db.contacts[(me.agent, p.revoker)].agent == FingerprintOf(p.revokerKey))
            && (if r.Ok? then SeveredTo(db, db', (me.agent, e.agent), Revoked) else db' == db)
  {
  }

  lemma BlockExactly(db: Db, local: AgentId, remote: AgentId)
    ensures var (db', r) := Block(db, local, remote);
            && (r.Ok? <==> (local, remote) in db.contacts)
            && (if r.Ok? then SeveredTo(db, db', (local, remote), Blocked) else db' == db)
  {
  }

  // ---- the handshake completes ----

  /** Invite, then import of what was released; nothing if a call fails. */
  function Opened(db: Db, a: Identity, b: Identity, input: InviteInput, id: string, secret: string, times: seq<int>): Option<Db>
    requires |times| == 6
  {
    var (d1, invite) := CreateInvite(db, a, input, times[0], id, secret, 0);
    if invite.Err? then None
    else
      var (d2, imported) := ImportInvite(d1, b, invite.value, times[1], true);
      if imported.Err? then None else Some(d2)
  }

  /** Accept, approve, confirm, activate, each on what the one before released. */
  function Finished(d2: Db, a: Identity, b: Identity, id: string, answer: AcceptInput, times: seq<int>): Option<Db>
    requires |times| == 6
  {
    var (d3, acceptance) := AcceptInvite(d2, b, answer, times[2], id, 1);
    if acceptance.Err? then None else
    var (d4, confirmation) := ApproveAcceptance(d3, a, acceptance.value, "", FingerprintOf(b.key), times[3], true, 2);
    if confirmation.Err? then None else
    var (d5, receipt) := ApplyConfirmation(d4, b, confirmation.value, times[4], true, 3);
    if receipt.Err? then None else
    var (d6, activated) := ApplyActivationReceipt(d5, a, receipt.value, true);
    if activated.Err? then None else Some(d6)
  }

  /** A whole handshake, in order and without loss. */
  function Handshake(db: Db, a: Identity, b: Identity, input: InviteInput, id: string, secret: string, answer: AcceptInput, times: seq<int>): Option<Db>
    requires |times| == 6
  {
    match Opened(db, a, b, input, id, secret, times)
    case None => None
    case Some(d2) => Finished(d2, a, b, id, answer, times)
  }

  /** Neither pinned nor blocked. */
  predicate Free(db: Db, pair: Pair) {
    !HasState(db, pair, Active) && !HasState(db, pair, AwaitingConfirmation) && !HasState(db, pair, Blocked)
  }

  predicate BothActive(db: Db, a: Identity, b: Identity) {
    && HasState(db, (a.agent, b.agent), Active) && db.contacts[(a.agent, b.agent)].agent == FingerprintOf(b.key)
    && HasState(db, (b.agent, a.agent), Active) && db.contacts[(b.agent, a.agent)].agent == FingerprintOf(a.key)
  }

  /** In any tables in which the pair is neither pinned nor blocked on either side and the invite id is
      new, a handshake whose import, acceptance and approval come before the invite expires runs to its
      end: every call succeeds and both contacts are active, with each other's key. */
  lemma HandshakeCompletes(db: Db, a: Identity, b: Identity, input: InviteInput, id: string, secret: string, answer: AcceptInput, times: seq<int>)
    requires |times| == 6 && a.agent != b.agent && a.agent != "" && b.agent != "" && id != ""
    requires input.remote == b.agent && input.address != "" && input.ttl > 0 && answer.inviteId == id
    requires times[1] < times[0] + input.ttl && times[2] < times[0] + input.ttl && times[3] < times[0] + input.ttl
    requires (id, a.agent) !in db.requests && (id, b.agent) !in db.requests
    requires Free(db, (a.agent, b.agent)) && Free(db, (b.agent, a.agent))
    requires forall row <- db.sessions :: row.1 == b.agent && db.sessions[row].remote == a.agent ==> db.sessions[row].updatedAt <= times[1]
    ensures var r := Handshake(db, a, b, input, id, secret, answer, times); r.Some? && BothActive(r.value, a, b)
  {
    InvitedAndImported(db, a, b, input, id, secret, times);
    AcceptedAndApproved(Opened(db, a, b, input, id, secret, times).value, a, b, id, answer, times, times[0] + input.ttl);
  }

  // ---- the handshake in runs ----

  /** `x` is an honest agent with its key. */
  predicate Owns(keys: Keys, x: Identity) { x.agent in keys && keys[x.agent] == x.key }

  lemma RunMore(keys: Keys, actions: seq<Action>, x: Action)
    ensures Run(keys, actions + [x]) == Apply(keys, Run(keys, actions), x)
  {
    assert (actions + [x])[..|actions|] == actions;
  }

  lemma OpensInRun(keys: Keys, w: World, a: Identity, b: Identity, input: InviteInput, id: string, secret: string, times: seq<int>) returns (invite: Envelope, w2: World)
    requires |times| == 6 && Owns(keys, a) && Owns(keys, b) && Opened(w.db, a, b, input, id, secret, times).Some?
    ensures w2 == Apply(keys, Apply(keys, w, DoInvite(a.agent, input, times[0], id, secret, 0)), DoImport(b.agent, invite, times[1]))
    ensures w2.db == Opened(w.db, a, b, input, id, secret, times).value && w2.log == w.log
  {
    invite := CreateInvite(w.db, a, input, times[0], id, secret, 0).1.value;
    var w1 := Apply(keys, w, DoInvite(a.agent, input, times[0], id, secret, 0));
    assert invite in w1.net;
    w2 := Apply(keys, w1, DoImport(b.agent, invite, times[1]));
  }

  lemma AnswersInRun(keys: Keys, w: World, a: Identity, b: Identity, id: string, answer: AcceptInput, times: seq<int>) returns (acceptance: Envelope, w2: World)
    requires |times| == 6 && Owns(keys, a) && Owns(keys, b) && Finished(w.db, a, b, id, answer, times).Some?
    ensures acceptance == AcceptInvite(w.db, b, answer, times[2], id, 1).1.value
    ensures w2 == Apply(keys, Apply(keys, w, DoAccept(b.agent, answer, times[2], id, 1)), DoApprove(a.agent, acceptance, "", FingerprintOf(b.key), times[3], 2))
    ensures var (db, r) := ApproveAcceptance(AcceptInvite(w.db, b, answer, times[2], id, 1).0, a, acceptance, "", FingerprintOf(b.key), times[3], true, 2);
            r.Ok? && w2.db == db && r.value in w2.net && w2.log == w.log
  {
    acceptance := AcceptInvite(w.db, b, answer, times[2], id, 1).1.value;
    var w1 := Apply(keys, w, DoAccept(b.agent, answer, times[2], id, 1));
    assert acceptance in w1.net;
    w2 := Apply(keys, w1, DoApprove(a.agent, acceptance, "", FingerprintOf(b.key), times[3], 2));
  }

  lemma ClosesInRun(keys: Keys, w: World, a: Identity, b: Identity, confirmation: Envelope, now: int) returns (receipt: Envelope, w2: World)
    requires Owns(keys, a) && Owns(keys, b) && confirmation in w.net
    requires ApplyConfirmation(w.db, b, confirmation, now, true, 3).1.Ok?
    requires ApplyActivationReceipt(ApplyConfirmation(w.db, b, confirmation, now, true, 3).0, a, ApplyConfirmation(w.db, b, confirmation, now, true, 3).1.value, true).1.Ok?
    ensures receipt == ApplyConfirmation(w.db, b, confirmation, now, true, 3).1.value
    ensures w2 == Apply(keys, Apply(keys, w, DoConfirm(b.agent, confirmation, now, 3)), DoActivate(a.agent, receipt))
    ensures w2.db == ApplyActivationReceipt(ApplyConfirmation(w.db, b, confirmation, now, true, 3).0, a, receipt, true).0
    ensures |w2.log| == |w.log| + 2 && w2.log[|w.log|].role == Invitee && w2.log[|w.log|].local == b.agent && w2.log[|w.log| + 1].role == Inviter && w2.log[|w.log| + 1].local == a.agent
  {
    receipt := ApplyConfirmation(w.db, b, confirmation, now, true, 3).1.value;
    var w1 := Apply(keys, w, DoConfirm(b.agent, confirmation, now, 3));
    assert receipt in w1.net;
    w2 := Apply(keys, w1, DoActivate(a.agent, receipt));
  }

  /** At any point of any run two honest agents whose pair is neither pinned nor blocked can pair: these
      six calls, made while the invite lasts, leave both contacts active, with an activation logged on
      each side. */
  lemma HandshakeRuns(keys: Keys, actions: seq<Action>, a: Identity, b: Identity, input: InviteInput, id: string, secret: string, answer: AcceptInput, times: seq<int>)
    returns (calls: seq<Action>)
    requires Owns(keys, a) && Owns(keys, b)
    requires |times| == 6 && a.agent != b.agent && a.agent != "" && b.agent != "" && id != ""
    requires input.remote == b.agent && input.address != "" && input.ttl > 0 && answer.inviteId == id
    requires times[1] < times[0] + input.ttl && times[2] < times[0] + input.ttl && times[3] < times[0] + input.ttl
    requires var db := Run(keys, actions).db;
             && (id, a.agent) !in db.requests && (id, b.agent) !in db.requests
             && Free(db, (a.agent, b.agent)) && Free(db, (b.agent, a.agent))
             && forall row <- db.sessions :: row.1 == b.agent && db.sessions[row].remote == a.agent ==> db.sessions[row].updatedAt <= times[1]
    ensures |calls| == 6 && calls[0].DoInvite? && calls[1].DoImport? && calls[2].DoAccept? && calls[3].DoApprove? && calls[4].DoConfirm? && calls[5].DoActivate?
    ensures var w, w' := Run(keys, actions), Run(keys, actions + calls);
            BothActive(w'.db, a, b) && |w'.log| == |w.log| + 2 && w'.log[|w.log|].local == b.agent && w'.log[|w.log| + 1].local == a.agent
  {
    var opening := OpensAndRuns(keys, actions, a, b, input, id, secret, times);
    var closing := FinishesAndRuns(keys, actions + opening, a, b, id, answer, times, times[0] + input.ttl);
    calls := opening + closing;
    assert actions + calls == actions + opening + closing;
  }

  lemma OpensAndRuns(keys: Keys, actions: seq<Action>, a: Identity, b: Identity, input: InviteInput, id: string, secret: string, times: seq<int>) returns (x: seq<Action>)
    requires Owns(keys, a) && Owns(keys, b)
    requires |times| == 6 && a.agent != b.agent && a.agent != "" && b.agent != "" && id != ""
    requires input.remote == b.agent && input.address != "" && input.ttl > 0 && times[1] < times[0] + input.ttl
    requires var db := Run(keys, actions).db;
             && (id, a.agent) !in db.requests && (id, b.agent) !in db.requests
             && Free(db, (a.agent, b.agent)) && Free(db, (b.agent, a.agent))
             && forall row <- db.sessions :: row.1 == b.agent && db.sessions[row].remote == a.agent ==> db.sessions[row].updatedAt <= times[1]
    ensures |x| == 2 && x[0].DoInvite? && x[1].DoImport?
    ensures Imported(Run(keys, actions + x).db, a, b, id, times[0] + input.ttl) && Run(keys, actions + x).log == Run(keys, actions).log
  {
    InvitedAndImported(Run(keys, actions).db, a, b, input, id, secret, times);
    var invite, w2 := OpensInRun(keys, Run(keys, actions), a, b, input, id, secret, times);
    var x0, x1 := DoInvite(a.agent, input, times[0], id, secret, 0), DoImport(b.agent, invite, times[1]);
    x := [x0, x1];
    RunMore(keys, actions, x0);
    RunMore(keys, actions + [x0], x1);
    assert actions + x == actions + [x0] + [x1];
  }

  lemma FinishesAndRuns(keys: Keys, actions: seq<Action>, a: Identity, b: Identity, id: string, answer: AcceptInput, times: seq<int>, deadline: int) returns (y: seq<Action>)
    requires |times| == 6 && Owns(keys, a) && Owns(keys, b) && a.agent != b.agent && id != "" && answer.inviteId == id
    requires times[2] < deadline && times[3] < deadline && Imported(Run(keys, actions).db, a, b, id, deadline)
    ensures |y| == 4 && y[0].DoAccept? && y[1].DoApprove? && y[2].DoConfirm? && y[3].DoActivate?
    ensures var w, w' := Run(keys, actions), Run(keys, actions + y);
            && BothActive(w'.db, a, b)
            && |w'.log| == |w.log| + 2 && w'.log[|w.log|].local == b.agent && w'.log[|w.log| + 1].local == a.agent
  {
    var w4;
    AcceptedAndApproved(Run(keys, actions).db, a, b, id, answer, times, deadline);
    y, w4 := FourCalls(keys, Run(keys, actions), a, b, id, answer, times);
    RunFour(keys, actions, y);
  }

  lemma FourCalls(keys: Keys, w: World, a: Identity, b: Identity, id: string, answer: AcceptInput, times: seq<int>) returns (y: seq<Action>, w4: World)
    requires |times| == 6 && Owns(keys, a) && Owns(keys, b) && Finished(w.db, a, b, id, answer, times).Some?
    ensures |y| == 4 && y[0].DoAccept? && y[1].DoApprove? && y[2].DoConfirm? && y[3].DoActivate?
    ensures w4 == Apply(keys, Apply(keys, Apply(keys, Apply(keys, w, y[0]), y[1]), y[2]), y[3])
    ensures w4.db == Finished(w.db, a, b, id, answer, times).value
    ensures |w4.log| == |w.log| + 2 && w4.log[|w.log|].local == b.agent && w4.log[|w.log| + 1].local == a.agent
  {
    var acceptance, w2 := AnswersInRun(keys, w, a, b, id, answer, times);
    var confirmation := ApproveAcceptance(AcceptInvite(w.db, b, answer, times[2], id, 1).0, a, acceptance, "", FingerprintOf(b.key), times[3], true, 2).1.value;
    var receipt;
    receipt, w4 := ClosesInRun(keys, w2, a, b, confirmation, times[4]);
    y := [DoAccept(b.agent, answer, times[2], id, 1), DoApprove(a.agent, acceptance, "", FingerprintOf(b.key), times[3], 2),
          DoConfirm(b.agent, confirmation, times[4], 3), DoActivate(a.agent, receipt)];
  }

  lemma RunFour(keys: Keys, actions: seq<Action>, x: seq<Action>)
    requires |x| == 4
    ensures Run(keys, actions + x) == Apply(keys, Apply(keys, Apply(keys, Apply(keys, Run(keys, actions), x[0]), x[1]), x[2]), x[3])
  {
    assert actions + x[..0] == actions && x[..4] == x;
    forall i | 0 <= i < 4 ensures Run(keys, actions + x[..i + 1]) == Apply(keys, Run(keys, actions + x[..i]), x[i]) {
      assert actions + x[..i + 1] == actions + x[..i] + [x[i]];
      RunMore(keys, actions + x[..i], x[i]);
    }
  }

  /** At any point of any run a revocation severs the contact at once, and the notice it signs severs the
      peer's, if the peer has the revoker under the host and key the notice names. */
  lemma RevocationReaches(keys: Keys, actions: seq<Action>, a: Identity, b: Identity, reason: string, now: int, newest: string, nonce: nat) returns (notice: Envelope)
    requires Owns(keys, a) && Owns(keys, b) && a.agent != b.agent
    requires var db := Run(keys, actions).db;
             && (a.agent, b.agent) in db.contacts && db.contacts[(a.agent, b.agent)].state != Blocked && IsNewest(db.sessions, a.agent, b.agent, newest)
             && (b.agent, a.agent) in db.contacts && db.contacts[(b.agent, a.agent)].agent == FingerprintOf(a.key)
             && db.contacts[(b.agent, a.agent)].host == db.sessions[(newest, a.agent)].localHost
    ensures var db := Run(keys, actions).db;
            var db1 := Run(keys, actions + [DoRevoke(a.agent, b.agent, reason, now, newest, nonce)]).db;
            var db2 := Run(keys, actions + [DoRevoke(a.agent, b.agent, reason, now, newest, nonce)] + [DoApplyRevocation(b.agent, notice)]).db;
            SeveredTo(db, db1, (a.agent, b.agent), Revoked) && (b.agent, a.agent) in db1.contacts && SeveredTo(db1, db2, (b.agent, a.agent), Revoked)
  {
    var w := Run(keys, actions);
    RevokeExactly(w.db, a, b.agent, reason, now, newest, nonce);
    notice := RevokeWithNotice(w.db, a, b.agent, reason, now, newest, nonce).1.value;
    RunMore(keys, actions, DoRevoke(a.agent, b.agent, reason, now, newest, nonce));
    var w1 := Run(keys, actions + [DoRevoke(a.agent, b.agent, reason, now, newest, nonce)]);
    assert w1 == StepRevoke(w, a, DoRevoke(a.agent, b.agent, reason, now, newest, nonce)) && notice in w1.net;
    RunMore(keys, actions + [DoRevoke(a.agent, b.agent, reason, now, newest, nonce)], DoApplyRevocation(b.agent, notice));
    ApplyRevocationExactly(w1.db, b, notice, true);
  }

  /** At any point of any run a block takes effect at once. */
  lemma BlockTakesEffect(keys: Keys, actions: seq<Action>, me: AgentId, remote: AgentId)
    requires me in keys && (me, remote) in Run(keys, actions).db.contacts
    ensures SeveredTo(Run(keys, actions).db, Run(keys, actions + [DoBlock(me, remote)]).db, (me, remote), Blocked)
  {
    RunMore(keys, actions, DoBlock(me, remote));
    BlockExactly(Run(keys, actions).db, me, remote);
  }

  /** In a run every call writes what it writes by itself, whether it succeeds or breaks off in between. */
  lemma CallsWrite(keys: Keys, w: World, x: Action)
    requires !x.Forge? && x.me in keys
    ensures var me := Identity(x.me, keys[x.me]);
            Apply(keys, w, x).db ==
            match x
            case DoInvite(_, invite, now, id, secret, nonce) => CreateInvite(w.db, me, invite, now, id, secret, nonce).0
            case DoImport(_, e, now) => ImportInvite(w.db, me, e, now, e in w.net).0
            case DoAccept(_, accept, now, newest, nonce) => AcceptInvite(w.db, me, accept, now, newest, nonce).0
            case DoApprove(_, e, host, agent, now, nonce) => ApproveAcceptance(w.db, me, e, host, agent, now, e in w.net, nonce).0
            case DoConfirm(_, e, now, nonce) => ApplyConfirmation(w.db, me, e, now, e in w.net, nonce).0
            case DoActivate(_, e) => ApplyActivationReceipt(w.db, me, e, e in w.net).0
            case DoRevoke(_, remote, reason, now, newest, nonce) => RevokeWithNotice(w.db, me, remote, reason, now, newest, nonce).0
            case DoApplyRevocation(_, e) => ApplyRevocation(w.db, me, e, e in w.net).0
            case DoBlock(_, remote) => Block(w.db, x.me, remote).0
  {
  }

  /** An envelope that nobody signed changes nothing, whichever call it is given to. */
  lemma UnsignedChangesNothing(keys: Keys, w: World, x: Action)
    requires (x.DoImport? || x.DoApprove? || x.DoConfirm? || x.DoActivate? || x.DoApplyRevocation?) && x.e !in w.net
    ensures Apply(keys, w, x) == w
  {
  }

  /** The inviter's rows once the invite is out. */
  predicate Invited(db: Db, a: Identity, b: Identity, id: string, secret: string, host: string, deadline: int, e: Envelope) {
    && (id, a.agent) in db.requests && (id, a.agent) in db.sessions
    && db.requests[(id, a.agent)] == Request(b.agent, "", NoFingerprint, secret, deadline, false)
    && db.sessions[(id, a.agent)].remote == b.agent && db.sessions[(id, a.agent)].role == Inviter
    && db.sessions[(id, a.agent)].localHost == host && db.sessions[(id, a.agent)].invite == DigestOf(e)
    && HasState(db, (a.agent, b.agent), PendingOutbound)
  }

  lemma AfterInvite(db: Db, a: Identity, b: Identity, input: InviteInput, now: int, id: string, secret: string)
    requires a.agent != b.agent && input.remote == b.agent != "" && input.address != "" && input.ttl > 0
    requires (id, a.agent) !in db.requests && Free(db, (a.agent, b.agent))
    ensures var (d1, r) := CreateInvite(db, a, input, now, id, secret, 0);
            && r.Ok? && Invited(d1, a, b, id, secret, input.host, now + input.ttl, r.value)
            && Only(db, d1, (id, a.agent), (a.agent, b.agent))
            && r.value.agent == a.agent && r.value.key == a.key && r.value.payload.Invite? && var p := r.value.payload;
               p.inviteId == id && p.inviter == a.agent && p.inviterKey == a.key && p.inviterHost == input.host
               && p.target == b.agent && p.secret == secret && p.expiresAt == now + input.ttl
  {
    InviteExactly(db, a, input, now, id, secret, 0);
  }

  /** Only this row's session and request and this pair's contact differ. */
  predicate Only(db: Db, db': Db, row: RowKey, pair: Pair) {
    && (forall x <- db'.sessions :: x != row ==> x in db.sessions && db'.sessions[x] == db.sessions[x])
    && (forall x <- db.sessions :: x in db'.sessions)
    && (forall x <- db'.requests :: x != row ==> x in db.requests)
    && (forall x <- db'.contacts :: x != pair ==> x in db.contacts && db'.contacts[x] == db.contacts[x])
  }

  lemma AfterImport(d1: Db, a: Identity, b: Identity, e: Envelope, now: int, id: string, secret: string, host: string, deadline: int)
    requires a.agent != b.agent && a.agent != "" && now < deadline
    requires Invited(d1, a, b, id, secret, host, deadline, e) && (id, b.agent) !in d1.requests && Free(d1, (b.agent, a.agent))
    requires e.agent == a.agent && e.key == a.key && e.payload.Invite? && var p := e.payload;
             p.inviteId == id && p.inviter == a.agent && p.inviterKey == a.key && p.inviterHost == host
             && p.target == b.agent && p.secret == secret && p.expiresAt == deadline
    requires forall row <- d1.sessions :: row.1 == b.agent && d1.sessions[row].remote == a.agent ==> d1.sessions[row].updatedAt <= now
    ensures var (d2, r) := ImportInvite(d1, b, e, now, true); r.Ok? && Imported(d2, a, b, id, deadline)
  {
    ImportExactly(d1, b, e, now, true);
  }

  lemma InvitedAndImported(db: Db, a: Identity, b: Identity, input: InviteInput, id: string, secret: string, times: seq<int>)
    requires |times| == 6 && a.agent != b.agent && a.agent != "" && b.agent != "" && id != ""
    requires input.remote == b.agent && input.address != "" && input.ttl > 0 && times[1] < times[0] + input.ttl
    requires (id, a.agent) !in db.requests && (id, b.agent) !in db.requests
    requires Free(db, (a.agent, b.agent)) && Free(db, (b.agent, a.agent))
    requires forall row <- db.sessions :: row.1 == b.agent && db.sessions[row].remote == a.agent ==> db.sessions[row].updatedAt <= times[1]
    ensures var r := Opened(db, a, b, input, id, secret, times); r.Some? && Imported(r.value, a, b, id, times[0] + input.ttl)
  {
    AfterInvite(db, a, b, input, times[0], id, secret);
    var (d1, invite) := CreateInvite(db, a, input, times[0], id, secret, 0);
    AfterImport(d1, a, b, invite.value, times[1], id, secret, input.host, times[0] + input.ttl);
  }

  predicate RequestsMatch(qa: Request, qb: Request, a: Identity, b: Identity, deadline: int) {
    && qa.remote == b.agent && qb.remote == a.agent && qa.secret == qb.secret
    && qa.expiresAt == qb.expiresAt == deadline && !qa.consumed && !qb.consumed
  }

  predicate SessionsMatch(sa: Session, sb: Session, a: Identity, b: Identity) {
    && sa.role == Inviter && sb.role == Invitee && sa.remote == b.agent && sb.remote == a.agent && sa.invite == sb.invite
    && sb.remoteKey == Some(a.key) && sb.remoteHost == sa.localHost
  }

  /** Where the tables stand once the invite is imported. */
  predicate Imported(db: Db, a: Identity, b: Identity, id: string, deadline: int) {
    var ra, rb := (id, a.agent), (id, b.agent);
    && ra in db.requests && rb in db.requests && ra in db.sessions && rb in db.sessions
    && RequestsMatch(db.requests[ra], db.requests[rb], a, b, deadline) && SessionsMatch(db.sessions[ra], db.sessions[rb], a, b)
    && HasState(db, (a.agent, b.agent), PendingOutbound) && HasState(db, (b.agent, a.agent), PendingInbound)
    && db.contacts[(b.agent, a.agent)].agent == FingerprintOf(a.key)
    && IsNewest(db.sessions, b.agent, a.agent, id)
  }

  lemma AcceptedAndApproved(d2: Db, a: Identity, b: Identity, id: string, answer: AcceptInput, times: seq<int>, deadline: int)
    requires |times| == 6 && a.agent != b.agent && id != "" && answer.inviteId == id
    requires times[2] < deadline && times[3] < deadline && Imported(d2, a, b, id, deadline)
    ensures var r := Finished(d2, a, b, id, answer, times); r.Some? && BothActive(r.value, a, b)
  {
    var (d3, acceptance) := AcceptInvite(d2, b, answer, times[2], id, 1);
    AcceptExactly(d2, b, answer, a.agent, times[2], id, 1);
    var (d4, confirmation) := ApproveAcceptance(d3, a, acceptance.value, "", FingerprintOf(b.key), times[3], true, 2);
    ApproveExactly(d3, a, acceptance.value, "", FingerprintOf(b.key), times[3], true, 2);
    var (d5, receipt) := ApplyConfirmation(d4, b, confirmation.value, times[4], true, 3);
    ConfirmExactly(d4, b, confirmation.value, times[4], true, 3);
    ActivateExactly(d5, a, receipt.value, true);
  }

  // ---- requests over runs ----

  predicate IsConsumed(w: World, row: RowKey) { row in w.db.requests && w.db.requests[row].consumed }

  /** The clock reading of a call that consumes a request. */
  function ConsumedAt(a: Action): Option<int> {
    if a.DoAccept? then Some(a.now) else if a.DoApprove? then Some(a.now) else None
  }

  /** In every run a request is consumed only by an accept or approve call made before it expires. */
  lemma ConsumedInTime(keys: Keys, actions: seq<Action>, n: nat, row: RowKey)
    requires n < |actions|
    requires IsConsumed(Run(keys, actions[..n + 1]), row) && !IsConsumed(Run(keys, actions[..n]), row)
    ensures row in Run(keys, actions[..n]).db.requests
    ensures ConsumedAt(actions[n]).Some? && ConsumedAt(actions[n]).value < Run(keys, actions[..n]).db.requests[row].expiresAt
  {
    assert actions[..n + 1][..n] == actions[..n];
    CallConsumes(keys, Run(keys, actions[..n]), actions[n], row);
  }

  lemma CallConsumes(keys: Keys, w: World, a: Action, row: RowKey)
    requires IsConsumed(Apply(keys, w, a), row) && !IsConsumed(w, row)
    ensures row in w.db.requests && ConsumedAt(a).Some? && ConsumedAt(a).value < w.db.requests[row].expiresAt
  {
    assert !a.Forge? && a.me in keys;
    var me := Identity(a.me, keys[a.me]);
    match a
    case DoInvite(_, _, _, _, _, _) => InviteConsumesNothing(w, me, a, row);
    case DoImport(_, _, _) => ImportConsumesNothing(w, me, a, row);
    case DoAccept(_, _, _, _, _) => AcceptConsumes(w, me, a, row);
    case DoApprove(_, _, _, _, _, _) => ApproveConsumes(w, me, a, row);
    case DoConfirm(_, _, _, _) => ConfirmConsumesNothing(w, me, a);
    case _ =>
  }

  lemma InviteConsumesNothing(w: World, me: Identity, a: Action, row: RowKey)
    requires a.DoInvite?
    ensures IsConsumed(StepInvite(w, me, a), row) ==> IsConsumed(w, row)
  {
  }

  lemma ImportConsumesNothing(w: World, me: Identity, a: Action, row: RowKey)
    requires a.DoImport?
    ensures IsConsumed(StepImport(w, me, a), row) ==> IsConsumed(w, row)
  {
  }

  lemma ConfirmConsumesNothing(w: World, me: Identity, a: Action)
    requires a.DoConfirm?
    ensures StepConfirm(w, me, a).db.requests == w.db.requests
  {
  }

  lemma AcceptConsumes(w: World, me: Identity, a: Action, row: RowKey)
    requires a.DoAccept? && IsConsumed(StepAccept(w, me, a), row) && !IsConsumed(w, row)
    ensures row in w.db.requests && a.now < w.db.requests[row].expiresAt
  {
  }

  lemma ApproveConsumes(w: World, me: Identity, a: Action, row: RowKey)
    requires a.DoApprove? && IsConsumed(StepApprove(w, me, a), row) && !IsConsumed(w, row)
    ensures row in w.db.requests && a.now < w.db.requests[row].expiresAt
  {
  }
}
