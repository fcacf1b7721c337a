/** One daemon: pairing calls, the message and grant handlers of internal/management/handler.go, and the
    delivery worker, interleaved in any order. Each IPC call and each store statement of the worker is
    one step. */
module Gateway {
  import opened Text
  import opened Store
  import Pairing
  import PairingRun

  datatype Action =
    | Pair(a: PairingRun.Action)
    | Send(source: AgentId, target: AgentId, id: string, context: string, payload: string, now: int)
    | CancelMessage(source: AgentId, id: string)
    | GrantBlob(grantId: string, grant: Grant)
    | WithdrawGrant(grantId: string)
    | WorkerRetry(id: string, next: int)
    | WorkerDeliver(id: string, target: AgentId, remoteId: string, deliveredAt: int)

  predicate CanCommunicate(db: Pairing.Db, local: AgentId, remote: AgentId) {
    (local, remote) in db.contacts && db.contacts[(local, remote)].state == Active
  }

  /** message.send: only to an active contact; a known id of the same pair is answered, not sent again. */
  function SendMessage(db: Pairing.Db, source: AgentId, target: AgentId, id: string, context: string, payload: string, now: int): (Pairing.Db, Result<()>) {
    if source == "" || target == "" || payload == "" then (db, Err(InvalidInput))
    else if !CanCommunicate(db, source, target) then (db, Err(InvalidInput))
    else if id in db.outbox.rows then
      if db.outbox.rows[id].source == source && db.outbox.rows[id].target == target then (db, Ok(())) else (db, Err(InvalidInput))
    else match Enqueue(db.outbox, id, source, target, context, payload, now)
      case Err(e) => (db, Err(e))
      case Ok(o) => (db.(outbox := o), Ok(()))
  }

  /** message.cancel on a queued message. */
  function Cancel(db: Pairing.Db, source: AgentId, id: string): (Pairing.Db, Result<()>) {
    if id !in db.outbox.rows then (db, Err(NotFound))
    else if db.outbox.rows[id].source != source then (db, Err(InvalidInput))
    else match CancelOne(db.outbox, id)
      case Err(e) => (db, Err(e))
      case Ok(o) => (db.(outbox := o), Ok(()))
  }

  /** attachment.grant: only to an active contact. */
  function GrantAttachment(db: Pairing.Db, id: string, grant: Grant): (Pairing.Db, Result<()>) {
    if grant.target == "" || grant.context == "" then (db, Err(InvalidInput))
    else if !CanCommunicate(db, grant.owner, grant.target) then (db, Err(InvalidInput))
    else match CreateGrant(db.grants, id, grant)
      case Err(e) => (db, Err(e))
      case Ok(grants) => (db.(grants := grants), Ok(()))
  }

  function WithOutbox(db: Pairing.Db, r: Result<Outbox>): Pairing.Db {
    if r.Ok? then db.(outbox := r.value) else db
  }

  function Step(keys: PairingRun.Keys, w: PairingRun.World, a: Action): PairingRun.World {
    match a
    case Pair(p) => PairingRun.Apply(keys, w, p)
    case Send(source, target, id, context, payload, now) => w.(db := SendMessage(w.db, source, target, id, context, payload, now).0)
    case CancelMessage(source, id) => w.(db := Cancel(w.db, source, id).0)
    case GrantBlob(id, grant) => w.(db := GrantAttachment(w.db, id, grant).0)
    case WithdrawGrant(id) => if id in w.db.grants then w.(db := w.db.(grants := RevokeOne(w.db.grants, id).value)) else w
    case WorkerRetry(id, next) => w.(db := WithOutbox(w.db, ScheduleRetry(w.db.outbox, id, next)))
    case WorkerDeliver(id, target, remoteId, at) => w.(db := WithOutbox(w.db, MarkDelivered(w.db.outbox, id, target, remoteId, at)))
  }

  function Run(keys: PairingRun.Keys, actions: seq<Action>): PairingRun.World {
    if actions == [] then PairingRun.INITIAL
    else Step(keys, Run(keys, actions[..|actions| - 1]), actions[|actions| - 1])
  }

  // ---- revocation cascades ----

  predicate Severed(state: ContactState) { state == Revoked || state == Blocked }

  predicate IsSevered(db: Pairing.Db, pair: Pair) { pair in db.contacts && Severed(db.contacts[pair].state) }

  /** Nothing is left to deliver to, or to be fetched by, the other side of the pair. */
  predicate NothingOpen(db: Pairing.Db, pair: Pair) {
    && (forall id :: id in db.outbox.rows && db.outbox.rows[id].source == pair.0 && db.outbox.rows[id].target == pair.1
          ==> db.outbox.rows[id].state != Pending)
    && (forall id :: id in db.grants && db.grants[id].owner == pair.0 && db.grants[id].target == pair.1
          ==> db.grants[id].revoked)
  }

  ghost predicate Cascaded(db: Pairing.Db) { forall pair :: IsSevered(db, pair) ==> NothingOpen(db, pair) }

  lemma SeverCascades(db: Pairing.Db, pair: Pair, state: ContactState)
    requires Cascaded(db) && pair in db.contacts
    ensures Cascaded(Pairing.Sever(db, pair, state))
  {
    var next := Pairing.Sever(db, pair, state);
    forall q | IsSevered(next, q) ensures NothingOpen(next, q) {
      if q != pair { assert IsSevered(db, q) && NothingOpen(db, q); }
    }
  }

  /** A pairing call either severs one contact with its cascade, or severs none and touches no message or grant. */
  ghost predicate SeversOrSpares(db: Pairing.Db, next: Pairing.Db) {
    || (exists pair, state :: pair in db.contacts && next == Pairing.Sever(db, pair, state))
    || (next.outbox == db.outbox && next.grants == db.grants && forall pair :: IsSevered(next, pair) ==> IsSevered(db, pair))
  }

  lemma HandshakeSpares(w: PairingRun.World, me: Pairing.Identity, a: PairingRun.Action)
    ensures a.DoInvite? ==> SeversOrSpares(w.db, PairingRun.StepInvite(w, me, a).db)
    ensures a.DoImport? ==> SeversOrSpares(w.db, PairingRun.StepImport(w, me, a).db)
    ensures a.DoAccept? ==> SeversOrSpares(w.db, PairingRun.StepAccept(w, me, a).db)
  {
  }

  lemma ReplySpares(w: PairingRun.World, me: Pairing.Identity, a: PairingRun.Action)
    ensures a.DoApprove? ==> SeversOrSpares(w.db, PairingRun.StepApprove(w, me, a).db)
    ensures a.DoConfirm? ==> SeversOrSpares(w.db, PairingRun.StepConfirm(w, me, a).db)
    ensures a.DoActivate? ==> SeversOrSpares(w.db, PairingRun.StepActivate(w, me, a).db)
  {
  }

  lemma PairingCall(keys: PairingRun.Keys, w: PairingRun.World, a: PairingRun.Action)
    ensures SeversOrSpares(w.db, PairingRun.Apply(keys, w, a).db)
  {
    if !a.Forge? && a.me in keys {
      var me := Pairing.Identity(a.me, keys[a.me]);
      HandshakeSpares(w, me, a);
      ReplySpares(w, me, a);
      var db, next := w.db, PairingRun.Apply(keys, w, a).db;
      if a.DoRevoke? || a.DoBlock? {
        var pair := (a.me, a.remote);
        var state := if a.DoRevoke? then Revoked else Blocked;
        assert next == db || (pair in db.contacts && next == Pairing.Sever(db, pair, state));
      } else if a.DoApplyRevocation? && a.e.payload.Revocation? {
        var pair := (a.me, a.e.payload.revoker);
        assert next == db || (pair in db.contacts && next == Pairing.Sever(db, pair, Revoked));
      }
    }
  }

  lemma PairingCascades(db: Pairing.Db, next: Pairing.Db)
    requires Cascaded(db) && SeversOrSpares(db, next)
    ensures Cascaded(next)
  {
    if pair, state :| pair in db.contacts && next == Pairing.Sever(db, pair, state) {
      SeverCascades(db, pair, state);
    } else {
      forall q | IsSevered(next, q) ensures NothingOpen(next, q) {
        assert NothingOpen(db, q);
      }
    }
  }

  /** Steps that leave contacts alone open nothing for a severed pair. */
  lemma HandlersCascade(keys: PairingRun.Keys, w: PairingRun.World, a: Action)
    requires Cascaded(w.db) && !a.Pair?
    ensures Cascaded(Step(keys, w, a).db)
  {
    var next := Step(keys, w, a).db;
    assert next.contacts == w.db.contacts;
    forall q | IsSevered(next, q) ensures NothingOpen(next, q) {
      assert IsSevered(w.db, q) && NothingOpen(w.db, q);
    }
  }

  /** In every interleaving, a contact that is revoked or blocked has no pending message and no
      unrevoked grant. */
  lemma {:induction false} RevocationCascade(keys: PairingRun.Keys, actions: seq<Action>)
    ensures Cascaded(Run(keys, actions).db)
    decreases |actions|
  {
    if actions != [] {
      var w, a := Run(keys, actions[..|actions| - 1]), actions[|actions| - 1];
      RevocationCascade(keys, actions[..|actions| - 1]);
      if a.Pair? {
        PairingCall(keys, w, a.a);
        PairingCascades(w.db, Step(keys, w, a).db);
      } else {
        HandlersCascade(keys, w, a);
      }
    }
  }

  // ---- the life of a message and of a grant ----

  /** What one step may do to a row: nothing undone, nothing forgotten. */
  predicate RowAges(r: Row, r': Row) {
    && r' == r.(state := r'.state, attempts := r'.attempts, next := r'.next)
    && r.attempts <= r'.attempts
    && (r.state != Pending ==> r' == r)
  }

  predicate GrantAges(g: Grant, g': Grant) { g' == g || g' == g.(revoked := true) }

  /** Rows, receipts and grants are never deleted. */
  predicate OutboxAges(o: Outbox, o': Outbox) {
    && (forall id :: id in o.rows ==> id in o'.rows && RowAges(o.rows[id], o'.rows[id]))
    && (forall key :: key in o.receipts ==> key in o'.receipts && o'.receipts[key] == o.receipts[key])
  }

  predicate GrantsAge(grants: map<string, Grant>, grants': map<string, Grant>) {
    forall id :: id in grants ==> id in grants' && GrantAges(grants[id], grants'[id])
  }

  predicate Ages(db: Pairing.Db, db': Pairing.Db) {
    OutboxAges(db.outbox, db'.outbox) && GrantsAge(db.grants, db'.grants)
  }

  lemma PairingAges(db: Pairing.Db, next: Pairing.Db)
    requires SeversOrSpares(db, next)
    ensures Ages(db, next)
  {
    if pair, state :| pair in db.contacts && next == Pairing.Sever(db, pair, state) {
      assert Ages(db, Pairing.Sever(db, pair, state));
    }
  }

  lemma WorkerAges(o: Outbox, id: string, next: int, target: AgentId, remoteId: string, at: int)
    ensures ScheduleRetry(o, id, next).Ok? ==> OutboxAges(o, ScheduleRetry(o, id, next).value)
    ensures MarkDelivered(o, id, target, remoteId, at).Ok? ==> OutboxAges(o, MarkDelivered(o, id, target, remoteId, at).value)
  {
  }

  lemma SendAges(db: Pairing.Db, a: Action)
    requires a.Send?
    ensures Ages(db, SendMessage(db, a.source, a.target, a.id, a.context, a.payload, a.now).0)
  {
  }

  lemma CancelAges(db: Pairing.Db, source: AgentId, id: string)
    ensures Ages(db, Cancel(db, source, id).0)
  {
  }

  lemma GrantingAges(db: Pairing.Db, id: string, grant: Grant)
    ensures Ages(db, GrantAttachment(db, id, grant).0)
  {
  }

  lemma StepAges(keys: PairingRun.Keys, w: PairingRun.World, a: Action)
    ensures Ages(w.db, Step(keys, w, a).db)
  {
    if a.Pair? {
      PairingCall(keys, w, a.a);
      PairingAges(w.db, Step(keys, w, a).db);
    } else {
      match a
      case Send(_, _, _, _, _, _) => SendAges(w.db, a);
      case CancelMessage(source, id) => CancelAges(w.db, source, id);
      case GrantBlob(id, grant) => GrantingAges(w.db, id, grant);
      case WorkerRetry(id, next) => WorkerAges(w.db.outbox, id, next, "", "", 0);
      case WorkerDeliver(id, target, remoteId, at) => WorkerAges(w.db.outbox, id, 0, target, remoteId, at);
      case _ =>
    }
  }

  lemma {:induction false} RunAges(keys: PairingRun.Keys, actions: seq<Action>, m: nat, n: nat)
    requires m <= n <= |actions|
    ensures Ages(Run(keys, actions[..m]).db, Run(keys, actions[..n]).db)
    decreases n - m
  {
    if m < n {
      RunAges(keys, actions, m, n - 1);
      assert actions[..n][..n - 1] == actions[..n - 1];
      StepAges(keys, Run(keys, actions[..n - 1]), actions[n - 1]);
    }
  }

  /** Delivered exactly when there is one receipt for the message, under its own target. */
  predicate ReceiptsFit(o: Outbox) {
    && (forall key :: key in o.receipts ==> key.0 in o.rows && o.rows[key.0].target == key.1 && o.rows[key.0].state == Delivered)
    && (forall id :: id in o.rows && o.rows[id].state == Delivered ==> (id, o.rows[id].target) in o.receipts)
  }

  /** Every statement on the outbox keeps receipts and rows together. */
  lemma StatementsFit(o: Outbox, id: string, source: AgentId, target: AgentId, context: string, payload: string, remoteId: string, at: int)
    requires ReceiptsFit(o)
    ensures Enqueue(o, id, source, target, context, payload, at).Ok? ==> ReceiptsFit(Enqueue(o, id, source, target, context, payload, at).value)
    ensures ScheduleRetry(o, id, at).Ok? ==> ReceiptsFit(ScheduleRetry(o, id, at).value)
    ensures MarkDelivered(o, id, target, remoteId, at).Ok? ==> ReceiptsFit(MarkDelivered(o, id, target, remoteId, at).value)
    ensures CancelOne(o, id).Ok? ==> ReceiptsFit(CancelOne(o, id).value)
    ensures ReceiptsFit(CancelForContact(o, source, target))
  {
  }

  lemma StepFits(keys: PairingRun.Keys, w: PairingRun.World, a: Action)
    requires ReceiptsFit(w.db.outbox)
    ensures ReceiptsFit(Step(keys, w, a).db.outbox)
  {
    var o := w.db.outbox;
    match a
    case Pair(p) =>
      PairingCall(keys, w, p);
      if pair, state :| pair in w.db.contacts && Step(keys, w, a).db == Pairing.Sever(w.db, pair, state) {
        StatementsFit(o, "", pair.0, pair.1, "", "", "", 0);
      }
    case Send(source, target, id, context, payload, now) => StatementsFit(o, id, source, target, context, payload, "", now);
    case CancelMessage(source, id) => StatementsFit(o, id, source, "", "", "", "", 0);
    case WorkerRetry(id, next) => StatementsFit(o, id, "", "", "", "", "", next);
    case WorkerDeliver(id, target, remoteId, at) => StatementsFit(o, id, "", target, "", "", remoteId, at);
    case _ =>
  }

  lemma {:induction false} RunFits(keys: PairingRun.Keys, actions: seq<Action>)
    ensures ReceiptsFit(Run(keys, actions).db.outbox)
    decreases |actions|
  {
    if actions != [] {
      RunFits(keys, actions[..|actions| - 1]);
      StepFits(keys, Run(keys, actions[..|actions| - 1]), actions[|actions| - 1]);
    }
  }

  /** The receipts recorded for a message. */
  function ReceiptsOf(o: Outbox, id: string): set<(string, AgentId)> { set key | key in o.receipts && key.0 == id }

  /** Outbox lifecycle: between any two points of any run a message keeps its identity and its attempts
      only grow; Delivered and Cancelled are final; and it is Delivered exactly when it has one receipt. */
  lemma OutboxLifecycle(keys: PairingRun.Keys, actions: seq<Action>, m: nat, n: nat, id: string)
    requires m <= n <= |actions| && id in Run(keys, actions[..m]).db.outbox.rows
    ensures id in Run(keys, actions[..n]).db.outbox.rows
    ensures var o := Run(keys, actions[..n]).db.outbox;
            var before, after := Run(keys, actions[..m]).db.outbox.rows[id], o.rows[id];
            && before.attempts <= after.attempts
            && (before.state != Pending ==> after == before)
            && (if after.state == Delivered then ReceiptsOf(o, id) == {(id, after.target)} else ReceiptsOf(o, id) == {})
  {
    RunAges(keys, actions, m, n);
    RunFits(keys, actions[..n]);
  }

  /** Messages and grants of a severed pair stay closed for good, whatever is paired again later. */
  lemma SeveredForGood(keys: PairingRun.Keys, actions: seq<Action>, m: nat, n: nat, pair: Pair)
    requires m <= n <= |actions| && IsSevered(Run(keys, actions[..m]).db, pair)
    ensures var before, after := Run(keys, actions[..m]).db, Run(keys, actions[..n]).db;
            && (forall id :: id in before.outbox.rows && before.outbox.rows[id].source == pair.0 && before.outbox.rows[id].target == pair.1
                  ==> id in after.outbox.rows && after.outbox.rows[id] == before.outbox.rows[id] && after.outbox.rows[id].state != Pending)
            && (forall id :: id in before.grants && before.grants[id].owner == pair.0 && before.grants[id].target == pair.1
                  ==> id in after.grants && after.grants[id].revoked)
  {
    RevocationCascade(keys, actions[..m]);
    assert NothingOpen(Run(keys, actions[..m]).db, pair);
    RunAges(keys, actions, m, n);
  }

  /** The blob endpoint's gate (after the signature and nonce checks): an active contact with the
      presented key, and a grant that names the pair, is not revoked and has not expired. */
  function AuthorizeBlob(db: Pairing.Db, owner: AgentId, remote: AgentId, key: Key, grantId: string,
                         blob: string, context: string, digest: string, now: int): Option<Grant> {
    if remote == "" || remote == owner || !CanCommunicate(db, owner, remote) then None
    else if db.contacts[(owner, remote)].agent != FingerprintOf(key) then None
    else if grantId !in db.grants then None
    else
      var g := db.grants[grantId];
      if g.blob != blob || g.owner != owner || g.target != remote || g.context != context || g.digest != digest then None
      else if g.revoked || now >= g.expiresAt then None
      else Some(g)
  }

  /** Once a pair has been severed, no grant made before serves a blob again, even when the pair has
      become active once more. */
  lemma SeveredGrantsServeNothing(keys: PairingRun.Keys, actions: seq<Action>, m: nat, n: nat, owner: AgentId, remote: AgentId,
                                  key: Key, grantId: string, blob: string, context: string, digest: string, now: int)
    requires m <= n <= |actions| && IsSevered(Run(keys, actions[..m]).db, (owner, remote))
    requires grantId in Run(keys, actions[..m]).db.grants
    ensures AuthorizeBlob(Run(keys, actions[..n]).db, owner, remote, key, grantId, blob, context, digest, now).None?
  {
    SeveredForGood(keys, actions, m, n, (owner, remote));
    RunAges(keys, actions, m, n);
  }
}
