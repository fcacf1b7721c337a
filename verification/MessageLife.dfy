/** What becomes of one message and of one grant: when the handlers of internal/management/handler.go
    and the statements of internal/store/store.go succeed and what they then leave, and, over runs of
    the daemon, where every row, receipt and grant comes from. */
module MessageLife {
  import opened Text
  import opened Store
  import opened Gateway
  import Pairing
  import PairingRun
  import Delivery

  predicate ActivePair(db: Pairing.Db, local: AgentId, remote: AgentId) {
    (local, remote) in db.contacts && db.contacts[(local, remote)].state == Active
  }

  // ---- sending ----

  /** Everything but the outbox rows and the insertion counter. */
  predicate OnlyRows(db: Pairing.Db, db': Pairing.Db) {
    db' == db.(outbox := db.outbox.(rows := db'.outbox.rows, nextRowid := db'.outbox.nextRowid))
  }

  /** message.send answers Ok exactly for a complete message to an active contact whose id is either
      unknown or its own; a new message is queued as it was sent, due at once, and nothing else
      changes. */
  lemma SendExactly(db: Pairing.Db, source: AgentId, target: AgentId, id: string, context: string, payload: string, now: int)
    ensures var (db', r) := SendMessage(db, source, target, id, context, payload, now);
            && OnlyRows(db, db')
            && (r.Ok? <==>
                && source != "" && target != "" && payload != "" && ActivePair(db, source, target)
                && if id in db.outbox.rows then db.outbox.rows[id].source == source && db.outbox.rows[id].target == target
                   else forall x <- db.outbox.rows :: db.outbox.rows[x].source + ":" + db.outbox.rows[x].target + ":" + x != source + ":" + target + ":" + id)
            && (r.Ok? && id !in db.outbox.rows ==>
                && db'.outbox.rows.Keys == db.outbox.rows.Keys + {id}
                && (forall x <- db.outbox.rows :: db'.outbox.rows[x] == db.outbox.rows[x])
                && SentRow(db'.outbox.rows[id], source, target, context, payload, now) && db'.outbox.rows[id].rowid == db.outbox.nextRowid
                && db'.outbox.nextRowid == db.outbox.nextRowid + 1)
            && (r.Err? || id in db.outbox.rows ==> db' == db)
  {
  }

  predicate SentRow(r: Row, source: AgentId, target: AgentId, context: string, payload: string, now: int) {
    && r.source == source && r.target == target && r.context == context && r.payload == payload
    && r.state == Pending && r.attempts == 0 && r.next == r.created == now / 1_000_000
  }

  /** A queued message is due from the millisecond it was sent on, and so waits a bounded time. */
  lemma SentIsDue(db: Pairing.Db, source: AgentId, target: AgentId, id: string, context: string, payload: string, now: int, later: int)
    requires ActivePair(db, source, target) && source != "" && target != "" && payload != ""
    requires id !in db.outbox.rows && !KeyTaken(db.outbox, IdempotencyKey(source, target, id)) && now <= later
    ensures var o := SendMessage(db, source, target, id, context, payload, now).0.outbox;
            Delivery.IsDue(o, id, later) && Delivery.IsPending(o, id) && Delivery.DueSince(o.rows[id], later)
  {
  }

  // ---- attempts ----

  /** An attempt on a pending message that fails counts once and makes the message due again exactly
      when its delay is over; one that succeeds delivers it with the transport's receipt and the time
      of the pass, unless there already is one; no other message is touched. */
  lemma AttemptExactly(o: Outbox, item: Delivery.Item, now: int, a: Delivery.Attempt)
    requires Delivery.IsPending(o, item.id) && o.rows[item.id].target == item.target
    ensures var r := Delivery.Statement(o, item, now, a);
            && r.Ok?
            && r.value.rows.Keys == o.rows.Keys && r.value.nextRowid == o.nextRowid
            && (forall x <- o.rows :: x != item.id ==> r.value.rows[x] == o.rows[x])
            && if a.receipt.None? then
                 && r.value.receipts == o.receipts
                 && r.value.rows[item.id].attempts == o.rows[item.id].attempts + 1
                 && (forall t :: Delivery.IsDue(r.value, item.id, t) <==> (now + a.delay) / 1_000_000 <= t / 1_000_000)
               else
                 && r.value.rows[item.id] == o.rows[item.id].(state := Delivered)
                 && (forall t :: !Delivery.IsDue(r.value, item.id, t))
                 && (item.id, item.target) in r.value.receipts
                 && (forall k <- r.value.receipts :: k in o.receipts || k == (item.id, item.target))
                 && (forall k <- o.receipts :: k in r.value.receipts && r.value.receipts[k] == o.receipts[k])
                 && ((item.id, item.target) !in o.receipts ==> r.value.receipts[(item.id, item.target)] == Receipt(a.receipt.value, now / 1_000_000))
  {
    assert forall t :: Millis(t) == t / 1_000_000;
  }

  /** A message the worker no longer finds pending: a failed attempt is an error; a second delivery is
      accepted exactly if it is the one recorded; one of a cancelled message never is. */
  lemma LateAttempt(o: Outbox, item: Delivery.Item, now: int, a: Delivery.Attempt)
    requires !Delivery.IsPending(o, item.id)
    ensures var r := Delivery.Statement(o, item, now, a);
            && (r.Ok? ==> r.value == o)
            && (r.Ok? <==>
                && a.receipt.Some? && item.id in o.rows && o.rows[item.id].target == item.target && o.rows[item.id].state == Delivered
                && (item.id, item.target) in o.receipts && o.receipts[(item.id, item.target)].remoteId == a.receipt.value
                && o.receipts[(item.id, item.target)].deliveredAt * 1_000_000 == now)
  {
  }

  /** message.cancel answers Ok exactly for the sender's own message that has not been delivered, and
      leaves it cancelled and all else as it was. */
  lemma CancelExactly(db: Pairing.Db, source: AgentId, id: string)
    ensures var (db', r) := Cancel(db, source, id);
            && (r.Ok? <==> id in db.outbox.rows && db.outbox.rows[id].source == source && db.outbox.rows[id].state != Delivered)
            && if r.Err? then db' == db
               else
                 && OnlyRows(db, db') && db'.outbox.nextRowid == db.outbox.nextRowid && db'.outbox.rows.Keys == db.outbox.rows.Keys
                 && db'.outbox.rows[id] == db.outbox.rows[id].(state := Cancelled)
                 && forall x <- db.outbox.rows :: x != id ==> db'.outbox.rows[x] == db.outbox.rows[x]
  {
  }

  // ---- where rows come from ----

  /** The call that queued row `r` of message `id`. */
  predicate Sends(a: Action, id: string, r: Row) {
    && a.Send? && a.id == id && a.source == r.source && a.target == r.target && a.context == r.context && a.payload == r.payload
    && r.created == a.now / 1_000_000
  }

  predicate SentAt(keys: PairingRun.Keys, actions: seq<Action>, k: nat, id: string, r: Row)
    requires k < |actions|
  {
    Sends(actions[k], id, r) && ActivePair(Run(keys, actions[..k]).db, r.source, r.target) && id !in Run(keys, actions[..k]).db.outbox.rows
  }

  ghost predicate WasSent(keys: PairingRun.Keys, actions: seq<Action>, id: string, r: Row) {
    exists k: nat :: k < |actions| && SentAt(keys, actions, k, id, r)
  }

  /** The worker's statement that recorded receipt `c` under `key`. */
  predicate Delivers(a: Action, key: (string, AgentId), c: Receipt) {
    a.WorkerDeliver? && a.id == key.0 && a.target == key.1 && c == Receipt(a.remoteId, a.deliveredAt / 1_000_000)
  }

  predicate DeliveredAt(keys: PairingRun.Keys, actions: seq<Action>, k: nat, key: (string, AgentId), c: Receipt)
    requires k < |actions|
  {
    var o := Run(keys, actions[..k]).db.outbox;
    Delivers(actions[k], key, c) && Delivery.IsPending(o, key.0) && o.rows[key.0].target == key.1
  }

  ghost predicate WasDelivered(keys: PairingRun.Keys, actions: seq<Action>, key: (string, AgentId), c: Receipt) {
    exists k: nat :: k < |actions| && DeliveredAt(keys, actions, k, key, c)
  }

  /** The call that made grant `g`. */
  predicate Grants(a: Action, id: string, g: Grant) { a.GrantBlob? && a.grantId == id && a.grant.(revoked := g.revoked) == g }

  predicate GrantedAt(keys: PairingRun.Keys, actions: seq<Action>, k: nat, id: string, g: Grant)
    requires k < |actions|
  {
    Grants(actions[k], id, g) && ActivePair(Run(keys, actions[..k]).db, g.owner, g.target)
  }

  /** No later call withdraws it. */
  predicate Kept(actions: seq<Action>, k: nat, id: string) { forall j :: k < j < |actions| ==> actions[j] != WithdrawGrant(id) }

  ghost predicate WasGranted(keys: PairingRun.Keys, actions: seq<Action>, id: string, g: Grant) {
    exists k: nat :: k < |actions| && GrantedAt(keys, actions, k, id, g) && (g.revoked || Kept(actions, k, id))
  }

  ghost predicate Accounted(keys: PairingRun.Keys, actions: seq<Action>, db: Pairing.Db) {
    && (forall id <- db.outbox.rows :: WasSent(keys, actions, id, db.outbox.rows[id]))
    && (forall key <- db.outbox.receipts :: WasDelivered(keys, actions, key, db.outbox.receipts[key]))
    && (forall id <- db.grants :: WasGranted(keys, actions, id, db.grants[id]))
  }

  /** A row after a step is an older row aged, or was queued by the step. */
  predicate RowFrom(db: Pairing.Db, a: Action, id: string, r: Row) {
    || (id in db.outbox.rows && RowAges(db.outbox.rows[id], r))
    || (id !in db.outbox.rows && Sends(a, id, r) && ActivePair(db, r.source, r.target))
  }

  predicate ReceiptFrom(db: Pairing.Db, a: Action, key: (string, AgentId), c: Receipt) {
    || (key in db.outbox.receipts && c == db.outbox.receipts[key])
    || (Delivers(a, key, c) && Delivery.IsPending(db.outbox, key.0) && db.outbox.rows[key.0].target == key.1)
  }

  predicate GrantFrom(db: Pairing.Db, a: Action, id: string, g: Grant) {
    || (id in db.grants && GrantAges(db.grants[id], g) && (a == WithdrawGrant(id) ==> g.revoked))
    || (id !in db.grants && Grants(a, id, g) && ActivePair(db, g.owner, g.target))
  }

  predicate Traced(db: Pairing.Db, a: Action, db': Pairing.Db) {
    && (forall id <- db'.outbox.rows :: RowFrom(db, a, id, db'.outbox.rows[id]))
    && (forall key <- db'.outbox.receipts :: ReceiptFrom(db, a, key, db'.outbox.receipts[key]))
    && (forall id <- db'.grants :: GrantFrom(db, a, id, db'.grants[id]))
  }

  lemma PairTraced(keys: PairingRun.Keys, w: PairingRun.World, a: Action)
    requires a.Pair?
    ensures Traced(w.db, a, Step(keys, w, a).db)
  {
    PairingCall(keys, w, a.a);
    if pair, state :| pair in w.db.contacts && Step(keys, w, a).db == Pairing.Sever(w.db, pair, state) {
      assert Traced(w.db, a, Pairing.Sever(w.db, pair, state));
    }
  }

  lemma SendTraced(db: Pairing.Db, a: Action)
    requires a.Send?
    ensures Traced(db, a, SendMessage(db, a.source, a.target, a.id, a.context, a.payload, a.now).0)
  {
  }

  lemma HandlerTraced(db: Pairing.Db, a: Action)
    ensures a.CancelMessage? ==> Traced(db, a, Cancel(db, a.source, a.id).0)
    ensures a.GrantBlob? ==> Traced(db, a, GrantAttachment(db, a.grantId, a.grant).0)
    ensures a.WithdrawGrant? && a.grantId in db.grants ==> Traced(db, a, db.(grants := RevokeOne(db.grants, a.grantId).value))
  {
  }

  lemma WorkerTraced(db: Pairing.Db, a: Action)
    ensures a.WorkerRetry? ==> Traced(db, a, WithOutbox(db, ScheduleRetry(db.outbox, a.id, a.next)))
    ensures a.WorkerDeliver? ==> Traced(db, a, WithOutbox(db, MarkDelivered(db.outbox, a.id, a.target, a.remoteId, a.deliveredAt)))
  {
  }

  lemma StepTraced(keys: PairingRun.Keys, w: PairingRun.World, a: Action)
    ensures Traced(w.db, a, Step(keys, w, a).db)
  {
    match a
    case Pair(_) => PairTraced(keys, w, a);
    case Send(_, _, _, _, _, _) => SendTraced(w.db, a);
    case CancelMessage(_, _) => HandlerTraced(w.db, a);
    case GrantBlob(_, _) => HandlerTraced(w.db, a);
    case WithdrawGrant(_) => HandlerTraced(w.db, a);
    case _ => WorkerTraced(w.db, a);
  }

  lemma RowsAccounted(keys: PairingRun.Keys, front: seq<Action>, a: Action, db: Pairing.Db, id: string, r: Row)
    requires db == Run(keys, front).db && RowFrom(db, a, id, r)
    requires id in db.outbox.rows ==> WasSent(keys, front, id, db.outbox.rows[id])
    ensures WasSent(keys, front + [a], id, r)
  {
    var actions := front + [a];
    if id in db.outbox.rows {
      var k: nat :| k < |front| && SentAt(keys, front, k, id, db.outbox.rows[id]);
      assert actions[..k] == front[..k];
      assert SentAt(keys, actions, k, id, r);
    } else {
      assert actions[..|front|] == front;
      assert SentAt(keys, actions, |front|, id, r);
    }
  }

  lemma ReceiptsAccounted(keys: PairingRun.Keys, front: seq<Action>, a: Action, db: Pairing.Db, key: (string, AgentId), c: Receipt)
    requires db == Run(keys, front).db && ReceiptFrom(db, a, key, c)
    requires key in db.outbox.receipts ==> WasDelivered(keys, front, key, db.outbox.receipts[key])
    ensures WasDelivered(keys, front + [a], key, c)
  {
    var actions := front + [a];
    if key in db.outbox.receipts && c == db.outbox.receipts[key] {
      var k: nat :| k < |front| && DeliveredAt(keys, front, k, key, c);
      assert actions[..k] == front[..k];
      assert DeliveredAt(keys, actions, k, key, c);
    } else {
      assert actions[..|front|] == front;
      assert DeliveredAt(keys, actions, |front|, key, c);
    }
  }

  lemma GrantsAccounted(keys: PairingRun.Keys, front: seq<Action>, a: Action, db: Pairing.Db, id: string, g: Grant)
    requires db == Run(keys, front).db && GrantFrom(db, a, id, g)
    requires id in db.grants ==> WasGranted(keys, front, id, db.grants[id])
    ensures WasGranted(keys, front + [a], id, g)
  {
    var actions := front + [a];
    if id in db.grants {
      var k: nat :| k < |front| && GrantedAt(keys, front, k, id, db.grants[id]) && (db.grants[id].revoked || Kept(front, k, id));
      assert actions[..k] == front[..k];
      assert GrantedAt(keys, actions, k, id, g);
    } else {
      assert actions[..|front|] == front;
      assert GrantedAt(keys, actions, |front|, id, g) && Kept(actions, |front|, id);
    }
  }

  lemma AccountedStep(keys: PairingRun.Keys, front: seq<Action>, a: Action, db: Pairing.Db, db': Pairing.Db)
    requires db == Run(keys, front).db && Accounted(keys, front, db) && Traced(db, a, db')
    ensures Accounted(keys, front + [a], db')
  {
    forall id | id in db'.outbox.rows ensures WasSent(keys, front + [a], id, db'.outbox.rows[id]) {
      RowsAccounted(keys, front, a, db, id, db'.outbox.rows[id]);
    }
    forall key | key in db'.outbox.receipts ensures WasDelivered(keys, front + [a], key, db'.outbox.receipts[key]) {
      ReceiptsAccounted(keys, front, a, db, key, db'.outbox.receipts[key]);
    }
    forall id | id in db'.grants ensures WasGranted(keys, front + [a], id, db'.grants[id]) {
      GrantsAccounted(keys, front, a, db, id, db'.grants[id]);
    }
  }

  /** In every run each row holds what one message.send asked for, at a moment when the contact was
      active; each receipt holds what the worker got for a message then pending, with its remote id
      and time; and each grant is one that was asked for while the contact was active, and has not been
      withdrawn since unless it is revoked. */
  lemma {:induction false} NothingFromNowhere(keys: PairingRun.Keys, actions: seq<Action>)
    ensures Accounted(keys, actions, Run(keys, actions).db)
    decreases |actions|
  {
    if actions != [] {
      var front, a := actions[..|actions| - 1], actions[|actions| - 1];
      assert actions == front + [a];
      NothingFromNowhere(keys, front);
      StepTraced(keys, Run(keys, front), a);
      AccountedStep(keys, front, a, Run(keys, front).db, Run(keys, actions).db);
    }
  }

  // ---- grants and the blob endpoint ----

  /** attachment.grant answers Ok exactly for a complete new grant to an active contact, and then stores
      it as asked for, unrevoked. */
  lemma GrantExactly(db: Pairing.Db, id: string, grant: Grant)
    ensures var (db', r) := GrantAttachment(db, id, grant);
            && (r.Ok? <==>
                && id != "" && grant.blob != "" && grant.owner != "" && grant.target != "" && grant.context != "" && grant.digest != ""
                && ActivePair(db, grant.owner, grant.target) && id !in db.grants)
            && db' == if r.Ok? then db.(grants := db.grants[id := grant.(revoked := false)]) else db
  {
  }

  /** The blob endpoint serves exactly what an unrevoked grant of an active contact names, to the key
      that contact is pinned to, before the grant expires. */
  lemma AuthorizeExactly(db: Pairing.Db, owner: AgentId, remote: AgentId, key: Key, grantId: string, blob: string, context: string, digest: string, now: int)
    ensures var r := AuthorizeBlob(db, owner, remote, key, grantId, blob, context, digest, now);
            && (r.Some? <==>
                && remote != "" && remote != owner && ActivePair(db, owner, remote) && db.contacts[(owner, remote)].agent == FingerprintOf(key)
                && grantId in db.grants
                && db.grants[grantId] == Grant(blob, owner, remote, context, digest, db.grants[grantId].size, db.grants[grantId].expiresAt, false)
                && now < db.grants[grantId].expiresAt)
            && (r.Some? ==> r.value == db.grants[grantId])
  {
  }

  /** A blob is served in a run only on a grant made in that run for this pair, blob, context and
      digest, not yet expired and not withdrawn. */
  lemma ServedWasGranted(
    keys: PairingRun.Keys, actions: seq<Action>, owner: AgentId, remote: AgentId, key: Key, grantId: string,
    blob: string, context: string, digest: string, now: int) returns (k: nat)
    requires AuthorizeBlob(Run(keys, actions).db, owner, remote, key, grantId, blob, context, digest, now).Some?
    ensures k < |actions| && actions[k].GrantBlob? && actions[k].grantId == grantId && Kept(actions, k, grantId)
    ensures var g := actions[k].grant;
            g.blob == blob && g.owner == owner && g.target == remote && g.context == context && g.digest == digest && now < g.expiresAt
    ensures ActivePair(Run(keys, actions[..k]).db, owner, remote) && ActivePair(Run(keys, actions).db, owner, remote)
  {
    NothingFromNowhere(keys, actions);
    var g := Run(keys, actions).db.grants[grantId];
    assert WasGranted(keys, actions, grantId, g);
    k :| k < |actions| && GrantedAt(keys, actions, k, grantId, g) && (g.revoked || Kept(actions, k, grantId));
  }

  // ---- whole lives ----

  lemma RunTwo(keys: PairingRun.Keys, actions: seq<Action>, a: Action, b: Action)
    ensures Run(keys, actions + [a, b]) == Step(keys, Step(keys, Run(keys, actions), a), b)
  {
    assert (actions + [a])[..|actions|] == actions;
    assert actions + [a, b] == (actions + [a]) + [b] && ((actions + [a]) + [b])[..|actions| + 1] == actions + [a];
  }

  /** At any point of any run, a new message to an active contact goes out: tried once in vain and then
      delivered, its row tells both, and its one receipt holds the transport's id and the time. */
  lemma MessageGoesOut(
    keys: PairingRun.Keys, actions: seq<Action>, source: AgentId, target: AgentId, id: string, context: string, payload: string, now: int,
    next: int, remoteId: string, at: int)
    requires var db := Run(keys, actions).db;
             ActivePair(db, source, target) && id !in db.outbox.rows && !KeyTaken(db.outbox, IdempotencyKey(source, target, id))
    requires source != "" && target != "" && payload != ""
    ensures var o, o' := Run(keys, actions).db.outbox, Run(keys, actions + [Send(source, target, id, context, payload, now), WorkerRetry(id, next)] + [WorkerDeliver(id, target, remoteId, at)]).db.outbox;
            && id in o'.rows && o'.rows == o.rows[id := o'.rows[id]]
            && o'.rows[id] == Row(source, target, context, payload, Delivered, 1, next, now / 1_000_000, o.nextRowid)
            && o'.receipts == o.receipts[(id, target) := Receipt(remoteId, at / 1_000_000)]
  {
    var w := Run(keys, actions);
    var two := actions + [Send(source, target, id, context, payload, now), WorkerRetry(id, next)];
    RunFits(keys, actions);
    assert (id, target) !in w.db.outbox.receipts;
    RunTwo(keys, actions, Send(source, target, id, context, payload, now), WorkerRetry(id, next));
    SentAndRetried(keys, w, source, target, id, context, payload, now, next);
    assert (two + [WorkerDeliver(id, target, remoteId, at)])[..|two|] == two;
    ThenDelivered(keys, Run(keys, two), id, target, remoteId, at);
  }

  lemma SentAndRetried(
    keys: PairingRun.Keys, w: PairingRun.World, source: AgentId, target: AgentId, id: string, context: string, payload: string, now: int, next: int)
    requires ActivePair(w.db, source, target) && id !in w.db.outbox.rows && !KeyTaken(w.db.outbox, IdempotencyKey(source, target, id))
    requires source != "" && target != "" && payload != ""
    ensures var o, o' := w.db.outbox, Step(keys, Step(keys, w, Send(source, target, id, context, payload, now)), WorkerRetry(id, next)).db.outbox;
            && o'.rows == o.rows[id := Row(source, target, context, payload, Pending, 1, next, now / 1_000_000, o.nextRowid)]
            && o'.receipts == o.receipts
  {
  }

  lemma ThenDelivered(keys: PairingRun.Keys, w: PairingRun.World, id: string, target: AgentId, remoteId: string, at: int)
    requires Delivery.IsPending(w.db.outbox, id) && w.db.outbox.rows[id].target == target && (id, target) !in w.db.outbox.receipts
    ensures var o, o' := w.db.outbox, Step(keys, w, WorkerDeliver(id, target, remoteId, at)).db.outbox;
            && o'.rows == o.rows[id := o.rows[id].(state := Delivered)]
            && o'.receipts == o.receipts[(id, target) := Receipt(remoteId, at / 1_000_000)]
  {
  }

  /** One cancelled instead never is delivered: the worker's statement for it is refused. */
  lemma CancelledStays(
    keys: PairingRun.Keys, actions: seq<Action>, source: AgentId, target: AgentId, id: string, context: string, payload: string, now: int,
    remoteId: string, at: int)
    requires var db := Run(keys, actions).db;
             ActivePair(db, source, target) && id !in db.outbox.rows && !KeyTaken(db.outbox, IdempotencyKey(source, target, id))
    requires source != "" && target != "" && payload != ""
    ensures var o, o' := Run(keys, actions).db.outbox, Run(keys, actions + [Send(source, target, id, context, payload, now), CancelMessage(source, id)]).db.outbox;
            && id in o'.rows && o'.receipts == o.receipts
            && o'.rows == o.rows[id := Row(source, target, context, payload, Cancelled, 0, now / 1_000_000, now / 1_000_000, o.nextRowid)]
            && MarkDelivered(o', id, target, remoteId, at).Err?
  {
    RunTwo(keys, actions, Send(source, target, id, context, payload, now), CancelMessage(source, id));
  }

  /** A grant to an active contact opens its blob to that contact's key until it expires, and
      withdrawing it closes the blob. */
  lemma GrantOpens(
    keys: PairingRun.Keys, actions: seq<Action>, id: string, g: Grant, key: Key, now: int)
    requires var db := Run(keys, actions).db;
             ActivePair(db, g.owner, g.target) && db.contacts[(g.owner, g.target)].agent == FingerprintOf(key) && id !in db.grants
    requires id != "" && g.blob != "" && g.owner != "" && g.target != "" && g.context != "" && g.digest != "" && g.owner != g.target
    ensures AuthorizeBlob(Run(keys, actions + [GrantBlob(id, g)]).db, g.owner, g.target, key, id, g.blob, g.context, g.digest, now)
            == if now < g.expiresAt then Some(g.(revoked := false)) else None
    ensures AuthorizeBlob(Run(keys, actions + [GrantBlob(id, g), WithdrawGrant(id)]).db, g.owner, g.target, key, id, g.blob, g.context, g.digest, now) == None
  {
    assert (actions + [GrantBlob(id, g)])[..|actions|] == actions;
    RunTwo(keys, actions, GrantBlob(id, g), WithdrawGrant(id));
  }
}
