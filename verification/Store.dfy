/** Tables and statements of internal/store/store.go that the pairing and delivery protocols share.
    A table is a map from its primary key; every statement or transaction is one function of the
    tables, and one method of the class that holds them. */
module Store {
  import opened Text

  type AgentId = string

  /** An Ed25519 public key; its fingerprint determines it (no SHA-256 collisions). */
  datatype Key = Key(id: nat)

  datatype Fingerprint = NoFingerprint | FingerprintOf(key: Key)

  datatype ContactState = PendingOutbound | PendingInbound | AwaitingConfirmation | Active | Revoked | Blocked

  datatype Contact = Contact(nodeId: string, binding: string, host: string, agent: Fingerprint, state: ContactState)

  datatype Error =
    | InvalidInput | NotFound | IdentityConflict | InvalidState
    | InviteConsumed | InviteExpired | InvalidSecret | IdentityMismatch | InvalidTransition
    | ContactBlocked | InvalidEnvelope

  datatype Result<+T> = Ok(value: T) | Err(error: Error)

  type Pair = (AgentId, AgentId)

  // ---- contacts ----

  predicate Pinned(state: ContactState) { state == Active || state == AwaitingConfirmation }

  /** INSERT ... ON CONFLICT DO UPDATE, guarded: a pinned row only accepts its own fingerprints. */
  function UpsertContact(contacts: map<Pair, Contact>, pair: Pair, contact: Contact): Option<map<Pair, Contact>> {
    if pair in contacts && Pinned(contacts[pair].state)
       && (contacts[pair].host != contact.host || contacts[pair].agent != contact.agent)
    then None
    else Some(contacts[pair := contact])
  }

  // ---- outbox and receipts ----

  datatype OutboxState = Pending | Delivered | Cancelled

  /** `rowid` is the insertion order SQLite falls back on. */
  datatype Row = Row(source: AgentId, target: AgentId, context: string, payload: string,
                     state: OutboxState, attempts: nat, next: int, created: int, rowid: nat)

  /** Clock values are nanoseconds; columns hold milliseconds. */
  function Millis(t: int): int { t / 1_000_000 }

  datatype Receipt = Receipt(remoteId: string, deliveredAt: int)

  datatype Outbox = Outbox(rows: map<string, Row>, receipts: map<(string, AgentId), Receipt>, nextRowid: nat)

  const EMPTY_OUTBOX := Outbox(map[], map[], 0)

  /** The text of the UNIQUE idempotency_key column, as message.send builds it. */
  function IdempotencyKey(source: AgentId, target: AgentId, id: string): string { source + ":" + target + ":" + id }

  predicate KeyTaken(o: Outbox, key: string) {
    exists id <- o.rows :: IdempotencyKey(o.rows[id].source, o.rows[id].target, id) == key
  }

  /** Both the primary key and the idempotency key are unique. */
  function Enqueue(o: Outbox, id: string, source: AgentId, target: AgentId, context: string, payload: string, now: int): Result<Outbox> {
    if id in o.rows || KeyTaken(o, IdempotencyKey(source, target, id)) then Err(InvalidState)
    else Ok(o.(rows := o.rows[id := Row(source, target, context, payload, Pending, 0, Millis(now), Millis(now), o.nextRowid)],
               nextRowid := o.nextRowid + 1))
  }

  /** Between agent ids of the same lengths the key tells the three parts apart. */
  lemma KeyTellsParts(source: AgentId, target: AgentId, id: string, source': AgentId, target': AgentId, id': string)
    requires |source| == |source'| && |target| == |target'|
    requires IdempotencyKey(source, target, id) == IdempotencyKey(source', target', id')
    ensures source == source' && target == target' && id == id'
  {
    var k, n, m := IdempotencyKey(source, target, id), |source|, |source| + 1 + |target|;
    assert k[..n] == source && k[..n] == source';
    assert k[n + 1..m] == target && k[n + 1..m] == target';
    assert k[m + 1..] == id && k[m + 1..] == id';
  }

  /** Among messages between agent ids of the same lengths, as generated ones are, only a known
      message id is refused. */
  lemma EqualLengthsRefuseKnown(o: Outbox, id: string, source: AgentId, target: AgentId, context: string, payload: string, now: int)
    requires forall x <- o.rows :: |o.rows[x].source| == |source| && |o.rows[x].target| == |target|
    ensures Enqueue(o, id, source, target, context, payload, now).Err? <==> id in o.rows
  {
    forall x | x in o.rows && IdempotencyKey(o.rows[x].source, o.rows[x].target, x) == IdempotencyKey(source, target, id) ensures x == id {
      KeyTellsParts(o.rows[x].source, o.rows[x].target, x, source, target, id);
    }
  }

  predicate Plain(source: AgentId, target: AgentId, id: string) { ':' !in source && ':' !in target && ':' !in id }

  /** A key of plain parts has two colons only, so every triple with that key is the same. */
  lemma PlainKey(source: AgentId, target: AgentId, id: string, source': AgentId, target': AgentId, id': string)
    requires Plain(source, target, id) && IdempotencyKey(source, target, id) == IdempotencyKey(source', target', id')
    ensures source == source' && target == target' && id == id'
  {
    var k, n, m := IdempotencyKey(source, target, id), |source|, |source| + 1 + |target|;
    var n', m' := |source'|, |source'| + 1 + |target'|;
    assert forall i :: 0 <= i < |k| && k[i] == ':' ==> i == n || i == m by {
      assert k[..n] == source && k[n + 1..m] == target && k[m + 1..] == id;
    }
    assert k[n'] == ':' && k[m'] == ':';
    KeyTellsParts(source, target, id, source', target', id');
  }

  /** Moving a colon across the separator gives another triple with the same key and another id. */
  lemma ColonMoves(source: AgentId, target: AgentId, id: string) returns (source': AgentId, target': AgentId, id': string)
    requires !Plain(source, target, id)
    ensures IdempotencyKey(source', target', id') == IdempotencyKey(source, target, id) && id' != id
  {
    if ':' in id {
      var i :| 0 <= i < |id| && id[i] == ':';
      source', target', id' := source, target + ":" + id[..i], id[i + 1..];
      assert id == id[..i] + ":" + id[i + 1..];
    } else if ':' in target {
      var i :| 0 <= i < |target| && target[i] == ':';
      source', target', id' := source, target[..i], target[i + 1..] + ":" + id;
      assert target == target[..i] + ":" + target[i + 1..];
    } else {
      var i :| 0 <= i < |source| && source[i] == ':';
      source', target', id' := source[..i], source[i + 1..], target + ":" + id;
      assert source == source[..i] + ":" + source[i + 1..];
    }
  }

  /** Some outbox without the message id refuses it. */
  ghost predicate Refusable(id: string, source: AgentId, target: AgentId, context: string, payload: string, now: int) {
    exists o: Outbox :: id !in o.rows && Enqueue(o, id, source, target, context, payload, now).Err?
  }

  /** Exactly which new messages can be refused for the sake of another one: those with a colon in the
      source, the target or the message id. */
  lemma RefusedExactly(id: string, source: AgentId, target: AgentId, context: string, payload: string, now: int)
    ensures Refusable(id, source, target, context, payload, now) <==> ':' in source || ':' in target || ':' in id
  {
    if Plain(source, target, id) {
      forall o: Outbox | id !in o.rows ensures Enqueue(o, id, source, target, context, payload, now).Ok? {
        forall x | x in o.rows ensures IdempotencyKey(o.rows[x].source, o.rows[x].target, x) != IdempotencyKey(source, target, id) {
          if IdempotencyKey(source, target, id) == IdempotencyKey(o.rows[x].source, o.rows[x].target, x) {
            PlainKey(source, target, id, o.rows[x].source, o.rows[x].target, x);
          }
        }
      }
    } else {
      var source', target', id' := ColonMoves(source, target, id);
      var o := Enqueue(EMPTY_OUTBOX, id', source', target', context, payload, now).value;
      assert o.rows[id'].source == source' && o.rows[id'].target == target';
      assert KeyTaken(o, IdempotencyKey(source, target, id));
    }
  }

  /** One instance: after a message c:d from a to b, a new message d from a to b:c is refused. */
  lemma KeysClash(context: string, payload: string, now: int)
    ensures Enqueue(EMPTY_OUTBOX, "c:d", "a", "b", context, payload, now).Ok?
    ensures var o := Enqueue(EMPTY_OUTBOX, "c:d", "a", "b", context, payload, now).value;
            "d" !in o.rows && Enqueue(o, "d", "a", "b:c", context, payload, now) == Err(InvalidState)
  {
    var o := Enqueue(EMPTY_OUTBOX, "c:d", "a", "b", context, payload, now).value;
    assert IdempotencyKey("a", "b", "c:d") == IdempotencyKey("a", "b:c", "d");
    assert o.rows["c:d"].source == "a" && o.rows["c:d"].target == "b";
    assert KeyTaken(o, IdempotencyKey("a", "b:c", "d"));
  }

  function ScheduleRetry(o: Outbox, id: string, next: int): Result<Outbox> {
    if id in o.rows && o.rows[id].state == Pending
    then Ok(o.(rows := o.rows[id := o.rows[id].(attempts := o.rows[id].attempts + 1, next := next)]))
    else Err(NotFound)
  }

  /** One transaction: the row becomes Delivered and its receipt is recorded; repeating the very same
      delivery is accepted without effect. */
  function MarkDelivered(o: Outbox, id: string, target: AgentId, remoteId: string, deliveredAt: int): Result<Outbox> {
    var key := (id, target);
    if id !in o.rows || o.rows[id].target != target then Err(NotFound)
    else match o.rows[id].state
      case Delivered =>
        if key !in o.receipts then Err(NotFound)
        else if o.receipts[key].remoteId != remoteId || o.receipts[key].deliveredAt * 1_000_000 != deliveredAt then Err(InvalidState)
        else Ok(o)
      case Cancelled => Err(InvalidState)
      case Pending =>
        Ok(o.(rows := o.rows[id := o.rows[id].(state := Delivered)],
              receipts := if key in o.receipts then o.receipts else o.receipts[key := Receipt(remoteId, Millis(deliveredAt))]))
  }

  function CancelOne(o: Outbox, id: string): Result<Outbox> {
    if id !in o.rows then Err(NotFound)
    else match o.rows[id].state
      case Cancelled => Ok(o)
      case Delivered => Err(InvalidState)
      case Pending => Ok(o.(rows := o.rows[id := o.rows[id].(state := Cancelled)]))
  }

  function CancelRow(row: Row, source: AgentId, target: AgentId): Row {
    if row.source == source && row.target == target && row.state == Pending then row.(state := Cancelled) else row
  }

  function CancelForContact(o: Outbox, source: AgentId, target: AgentId): Outbox {
    o.(rows := map id | id in o.rows :: CancelRow(o.rows[id], source, target))
  }

  // ---- attachment grants ----

  datatype Grant = Grant(blob: string, owner: AgentId, target: AgentId, context: string, digest: string,
                         size: nat, expiresAt: int, revoked: bool)

  function CreateGrant(grants: map<string, Grant>, id: string, grant: Grant): Result<map<string, Grant>> {
    if id == "" || grant.blob == "" || grant.owner == "" || grant.target == "" || grant.context == "" || grant.digest == ""
    then Err(InvalidInput)
    else if id in grants then Err(InvalidState)
    else Ok(grants[id := grant.(revoked := false)])
  }

  function RevokeOne(grants: map<string, Grant>, id: string): Result<map<string, Grant>> {
    if id in grants then Ok(grants[id := grants[id].(revoked := true)]) else Err(NotFound)
  }

  function RevokeGrant(g: Grant, owner: AgentId, target: AgentId): Grant {
    if g.owner == owner && g.target == target then g.(revoked := true) else g
  }

  function RevokeForContact(grants: map<string, Grant>, owner: AgentId, target: AgentId): map<string, Grant> {
    map id | id in grants :: RevokeGrant(grants[id], owner, target)
  }
}
