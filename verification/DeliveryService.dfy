/** The outbox statements and the worker's pass as they run on the stored tables. Every statement keeps
    receipts and rows together, touches one message (or one pair's), undoes nothing and deletes nothing. */
module DeliveryService {
  import opened Text
  import opened Store
  import opened Delivery
  import opened Gateway

  /** Insertion numbers are used once, and receipts fit their rows. */
  ghost predicate Kept(o: Outbox) { Numbered(o) && Distinguished(o) && ReceiptsFit(o) }

  predicate Distinguished(o: Outbox) { forall a, b :: a in o.rows && b in o.rows && a != b ==> o.rows[a].rowid != o.rows[b].rowid }

  /** No other message's row or receipt differs. */
  predicate OnlyMessage(o: Outbox, o': Outbox, id: string) {
    && (forall x <- o'.rows :: x in o.rows || x == id)
    && (forall x <- o.rows :: x in o'.rows && (x != id ==> o'.rows[x] == o.rows[x]))
    && (forall key <- o'.receipts :: key in o.receipts || key.0 == id)
  }

  /** What every statement on one message leaves: a sound outbox in which nothing is undone or deleted
      and no other message has changed. */
  ghost predicate Moves(o: Outbox, o': Outbox, id: string) { Kept(o') && OutboxAges(o, o') && OnlyMessage(o, o', id) }

  /** The outbox after a statement that may fail. */
  function After(o: Outbox, r: Result<Outbox>): Outbox { if r.Ok? then r.value else o }

  /** A new pending row with the next number, or an old row that ages. */
  predicate Puts(o: Outbox, o': Outbox, id: string, row: Row) {
    && o'.rows == o.rows[id := row]
    && (if id in o.rows then RowAges(o.rows[id], row) && o'.nextRowid == o.nextRowid
        else row.state == Pending && row.rowid == o.nextRowid && o'.nextRowid == o.nextRowid + 1)
  }

  lemma PutNumbered(o: Outbox, o': Outbox, id: string, row: Row)
    requires Numbered(o) && Distinguished(o) && Puts(o, o', id, row)
    ensures Numbered(o') && Distinguished(o')
  {
  }

  lemma PutFits(o: Outbox, o': Outbox, id: string, row: Row)
    requires ReceiptsFit(o) && Puts(o, o', id, row) && o.receipts.Keys <= o'.receipts.Keys
    requires row.state != Delivered || (id in o.rows && o.rows[id].state == Delivered) ==> o'.receipts == o.receipts
    requires row.state == Delivered ==> (id, row.target) in o'.receipts && forall key <- o'.receipts :: key in o.receipts || key == (id, row.target)
    ensures ReceiptsFit(o')
  {
  }

  lemma PutAges(o: Outbox, o': Outbox, id: string, row: Row)
    requires Puts(o, o', id, row)
    requires forall key <- o.receipts :: key in o'.receipts && o'.receipts[key] == o.receipts[key]
    requires forall key <- o'.receipts :: key in o.receipts || key.0 == id
    ensures OutboxAges(o, o') && OnlyMessage(o, o', id)
  {
  }

  lemma Unmoved(o: Outbox, id: string)
    requires Kept(o)
    ensures Moves(o, o, id)
  {
  }

  lemma PutMoves(o: Outbox, o': Outbox, id: string, row: Row)
    requires Kept(o) && Puts(o, o', id, row) && o'.receipts == o.receipts
    requires row.state == Delivered ==> id in o.rows && o.rows[id].state == Delivered
    ensures Moves(o, o', id)
  {
    PutNumbered(o, o', id, row);
    PutFits(o, o', id, row);
    PutAges(o, o', id, row);
  }

  lemma EnqueueMoves(o: Outbox, id: string, source: AgentId, target: AgentId, context: string, payload: string, now: int)
    requires Kept(o)
    ensures Moves(o, After(o, Enqueue(o, id, source, target, context, payload, now)), id)
  {
    var o' := After(o, Enqueue(o, id, source, target, context, payload, now));
    if o' == o { Unmoved(o, id); } else { PutMoves(o, o', id, o'.rows[id]); }
  }

  lemma RetryMoves(o: Outbox, id: string, next: int)
    requires Kept(o)
    ensures Moves(o, After(o, ScheduleRetry(o, id, next)), id)
  {
    var o' := After(o, ScheduleRetry(o, id, next));
    if o' == o { Unmoved(o, id); } else { PutMoves(o, o', id, o'.rows[id]); }
  }

  lemma DeliverMoves(o: Outbox, id: string, target: AgentId, remoteId: string, at: int)
    requires Kept(o)
    ensures Moves(o, After(o, MarkDelivered(o, id, target, remoteId, at)), id)
  {
    var o' := After(o, MarkDelivered(o, id, target, remoteId, at));
    if o' == o {
      Unmoved(o, id);
    } else {
      var row := o'.rows[id];
      PutNumbered(o, o', id, row);
      PutFits(o, o', id, row);
      PutAges(o, o', id, row);
    }
  }

  lemma CancelMoves(o: Outbox, id: string)
    requires Kept(o)
    ensures Moves(o, After(o, CancelOne(o, id)), id)
  {
    var o' := After(o, CancelOne(o, id));
    if o' == o { Unmoved(o, id); } else { PutMoves(o, o', id, o'.rows[id]); }
  }

  lemma CancelContactKeeps(o: Outbox, source: AgentId, target: AgentId)
    requires Kept(o)
    ensures Kept(CancelForContact(o, source, target)) && OutboxAges(o, CancelForContact(o, source, target))
  {
  }

  class Service {
    var rows: map<string, Row>
    var receipts: map<(string, AgentId), Receipt>
    var nextRowid: nat
    const batchSize: nat

    ghost predicate Valid()
      reads this
    {
      batchSize > 0 && Kept(Box())
    }

    function Box(): Outbox
      reads this
    {
      Outbox(rows, receipts, nextRowid)
    }

    constructor (batchSize: int)
      ensures Valid() && Box() == EMPTY_OUTBOX && this.batchSize == if batchSize <= 0 then 100 else batchSize
    {
      this.batchSize := if batchSize <= 0 then 100 else batchSize;
      rows, receipts, nextRowid := map[], map[], 0;
    }

    method EnqueueOutbox(id: string, source: AgentId, target: AgentId, context: string, payload: string, now: int) returns (r: Result<()>)
      requires Valid()
      modifies this
      ensures Valid() && Moves(old(Box()), Box(), id)
      ensures Box() == After(old(Box()), Enqueue(old(Box()), id, source, target, context, payload, now)) && r.Ok? == Enqueue(old(Box()), id, source, target, context, payload, now).Ok?
      ensures r.Err? ==> r.error == Enqueue(old(Box()), id, source, target, context, payload, now).error
    {
      EnqueueMoves(Box(), id, source, target, context, payload, now);
      if id in rows || KeyTaken(Box(), IdempotencyKey(source, target, id)) {
        return Err(InvalidState);
      }
      rows := rows[id := Row(source, target, context, payload, Pending, 0, Millis(now), Millis(now), nextRowid)];
      nextRowid := nextRowid + 1;
      return Ok(());
    }

    method ScheduleOutboxRetry(id: string, next: int) returns (r: Result<()>)
      requires Valid()
      modifies this`rows
      ensures Valid() && Moves(old(Box()), Box(), id)
      ensures Box() == After(old(Box()), ScheduleRetry(old(Box()), id, next)) && r.Ok? == ScheduleRetry(old(Box()), id, next).Ok?
      ensures r.Err? ==> r.error == ScheduleRetry(old(Box()), id, next).error
    {
      ghost var after := After(Box(), ScheduleRetry(Box(), id, next));
      RetryMoves(Box(), id, next);
      if id !in rows || rows[id].state != Pending {
        assert after == Box();
        return Err(NotFound);
      }
      rows := rows[id := rows[id].(attempts := rows[id].attempts + 1, next := next)];
      assert after == Box();
      return Ok(());
    }

    method MarkOutboxDelivered(id: string, target: AgentId, remoteId: string, deliveredAt: int) returns (r: Result<()>)
      requires Valid()
      modifies this`rows, this`receipts
      ensures Valid() && Moves(old(Box()), Box(), id)
      ensures Box() == After(old(Box()), MarkDelivered(old(Box()), id, target, remoteId, deliveredAt)) && r.Ok? == MarkDelivered(old(Box()), id, target, remoteId, deliveredAt).Ok?
      ensures r.Err? ==> r.error == MarkDelivered(old(Box()), id, target, remoteId, deliveredAt).error
    {
      DeliverMoves(Box(), id, target, remoteId, deliveredAt);
      if id !in rows || rows[id].target != target {
        return Err(NotFound);
      }
      var key := (id, target);
      if rows[id].state == Delivered {
        if key !in receipts {
          return Err(NotFound);
        }
        if receipts[key].remoteId != remoteId || receipts[key].deliveredAt * 1_000_000 != deliveredAt {
          return Err(InvalidState);
        }
        return Ok(());
      }
      if rows[id].state != Pending {
        return Err(InvalidState);
      }
      rows := rows[id := rows[id].(state := Delivered)];
      if key !in receipts {
        receipts := receipts[key := Receipt(remoteId, Millis(deliveredAt))];
      }
      return Ok(());
    }

    method CancelOutbox(id: string) returns (r: Result<()>)
      requires Valid()
      modifies this`rows
      ensures Valid() && Moves(old(Box()), Box(), id)
      ensures Box() == After(old(Box()), CancelOne(old(Box()), id)) && r.Ok? == CancelOne(old(Box()), id).Ok?
      ensures r.Err? ==> r.error == CancelOne(old(Box()), id).error
    {
      CancelMoves(Box(), id);
      if id !in rows {
        return Err(NotFound);
      }
      if rows[id].state == Store.Cancelled {
        return Ok(());
      }
      if rows[id].state != Pending {
        return Err(InvalidState);
      }
      rows := rows[id := rows[id].(state := Store.Cancelled)];
      return Ok(());
    }

    method CancelOutboxForContact(source: AgentId, target: AgentId)
      requires Valid()
      modifies this`rows
      ensures Valid() && OutboxAges(old(Box()), Box()) && Box() == CancelForContact(old(Box()), source, target)
      ensures forall id <- rows :: rows[id].source == source && rows[id].target == target ==> rows[id].state != Pending
    {
      CancelContactKeeps(Box(), source, target);
      rows := map id | id in rows :: CancelRow(rows[id], source, target);
    }

    /** A call of another component between two statements of the worker. */
    method Serve(x: Other)
      requires Valid()
      modifies this
      ensures Valid() && Box() == Interfere(old(Box()), x)
    {
      match x
      case Sent(id, source, target, context, payload, at) => var _ := EnqueueOutbox(id, source, target, context, payload, at);
      case Cancelled1(id) => var _ := CancelOutbox(id);
      case CancelledContact(source, target) => CancelOutboxForContact(source, target);
    }

    method ServeAll(xs: seq<Other>)
      requires Valid()
      modifies this
      ensures Valid() && Box() == InterfereAll(old(Box()), xs)
    {
      for i := 0 to |xs|
        invariant Valid()
        invariant InterfereAll(old(Box()), xs) == InterfereAll(Box(), xs[i..])
      {
        assert xs[i..][0] == xs[i] && xs[i..][1..] == xs[i + 1..];
        Serve(xs[i]);
      }
    }

    method Earliest(ids: set<string>) returns (best: string)
      requires Valid() && ids != {} && ids <= rows.Keys
      ensures best in ids && forall id :: id in ids && id != best ==> Ahead(rows[best], rows[id])
    {
      best :| best in ids;
      var left := ids - {best};
      while left != {}
        invariant left <= ids && best in ids && best !in left
        invariant forall id :: id in ids - left && id != best ==> Ahead(rows[best], rows[id])
        decreases left
      {
        var id :| id in left;
        if Ahead(rows[id], rows[best]) {
          best := id;
        }
        left := left - {id};
      }
    }

    /** SELECT ... WHERE state = pending AND next_attempt_at <= now ORDER BY ... LIMIT. */
    method ListDueOutbox(now: int, limit: nat) returns (batch: seq<Item>)
      requires Valid()
      ensures DueList(Box(), now, limit, batch)
    {
      ghost var o := Box();
      var left := DueIds(Box(), now);
      batch := [];
      while |batch| < limit && left != {}
        invariant |batch| <= limit && Ordered(o, batch, left)
        invariant left <= DueIds(o, now) && Ids(batch) == DueIds(o, now) - left
        decreases left
      {
        var id := Earliest(left);
        assert forall i :: 0 <= i < |batch| ==> batch[i].id in Ids(batch);
        OrderedAppend(o, batch, left, id);
        IdsAppend(batch, ItemOf(o, id));
        batch := batch + [Item(id, rows[id].target, rows[id].attempts)];
        left := left - {id};
      }
      assert left == DueIds(o, now) - Ids(batch);
    }

    /** One pass. `script[i]` is what happens around the i-th listed message. */
    method ProcessDue(now: int, script: seq<Attempt>) returns (delivered: nat, retried: nat, failed: bool, batch: seq<Item>)
      requires Valid() && |script| == batchSize
      modifies this
      ensures Valid() && DueList(old(Box()), now, batchSize, batch)
      ensures Pass(Box(), delivered, retried, failed) == ProcessBatch(old(Box()), now, batch, script[..|batch|])
      ensures Exact(old(Box()), Box(), Ids(batch), delivered, retried)
    {
      batch := ListDueOutbox(now, batchSize);
      DueUndelivered(Box(), now, batchSize, batch);
      CountersExact(Box(), now, batch, script[..|batch|]);
      delivered, retried, failed := ProcessListed(now, batch, script[..|batch|]);
    }

    method ProcessListed(now: int, batch: seq<Item>, attempts: seq<Attempt>) returns (delivered: nat, retried: nat, failed: bool)
      requires Valid() && |attempts| == |batch|
      modifies this
      ensures Valid()
      ensures Pass(Box(), delivered, retried, failed) == ProcessBatch(old(Box()), now, batch, attempts)
    {
      delivered, retried, failed := 0, 0, false;
      assert batch[0..] == batch && attempts[0..] == attempts;
      for i := 0 to |batch|
        invariant Valid() && !failed
        invariant ProcessBatch(old(Box()), now, batch, attempts) ==
                  Plus(ProcessBatch(Box(), now, batch[i..], attempts[i..]), delivered, retried)
      {
        ProcessStep(Box(), now, batch, attempts, i);
        ServeAll(attempts[i].others);
        if attempts[i].stopped {
          failed := true;
          return;
        }
        var outcome := AttemptOne(batch[i], now, attempts[i]);
        if outcome.Err? {
          failed := true;
          return;
        }
        if attempts[i].receipt.None? {
          retried := retried + 1;
        } else {
          delivered := delivered + 1;
        }
      }
    }

    /** What the worker writes for one message after the transport has answered. */
    method AttemptOne(item: Item, now: int, a: Attempt) returns (r: Result<()>)
      requires Valid()
      modifies this
      ensures Valid()
      ensures match Statement(old(Box()), item, now, a)
              case Ok(o) => r.Ok? && Box() == o
              case Err(e) => r == Err(e) && Box() == old(Box())
    {
      match a.receipt
      case None =>
        r := ScheduleOutboxRetry(item.id, Millis(now + a.delay));
      case Some(receipt) =>
        r := MarkOutboxDelivered(item.id, item.target, receipt, now);
    }
  }

  lemma DueUndelivered(o: Outbox, now: int, limit: nat, batch: seq<Item>)
    requires DueList(o, now, limit, batch)
    ensures Distinct(batch) && Undelivered(o, batch)
  {
    assert forall i :: 0 <= i < |batch| ==> batch[i].id in Ids(batch);
  }

  function Plus(p: Pass, delivered: nat, retried: nat): Pass {
    p.(delivered := p.delivered + delivered, retried := p.retried + retried)
  }

  // ---- back-off ----

  const MAX_INT64: int := 0x7FFF_FFFF_FFFF_FFFF
  const EXACT_FLOAT: int := 0x20_0000_0000_0000

  function Pow2(n: nat): (p: nat)
    ensures p >= 1
  {
    if n == 0 then 1 else 2 * Pow2(n - 1)
  }

  function Min(a: int, b: int): int { if a <= b then a else b }

  /** The un-jittered delay: base times a power of two, capped. */
  function Backoff(base: int, max: int, attempt: int): int {
    var exponent: nat := if attempt < 1 then 0 else if attempt - 1 > 62 then 62 else attempt - 1;
    Min(base * Pow2(exponent), max)
  }

  /** The spacing of float64 numbers at n. */
  function Spacing(n: nat): (u: nat)
    ensures u > 0
  {
    if n < EXACT_FLOAT then 1 else 2 * Spacing(n / 2)
  }

  /** float64(n): the nearest multiple of the spacing, ties to even. Multiplying it by a power of two is exact. */
  function Float(n: nat): nat {
    var u := Spacing(n);
    var q, r := n / u, n % u;
    if 2 * r < u || (2 * r == u && q % 2 == 0) then n - r else n - r + u
  }

  /** Conversion is exact below 2^53, and everywhere at most half a spacing off. */
  lemma FloatNear(n: nat)
    ensures n < EXACT_FLOAT ==> Float(n) == n
    ensures -(Spacing(n) as int) <= 2 * (Float(n) - n) <= Spacing(n)
  {
    RemainderFits(n, Spacing(n));
  }

  lemma RemainderFits(n: nat, u: nat)
    requires u > 0
    ensures 0 <= n % u < u && n % 1 == 0
  {
  }

  /** The spacing is small: its 2^52-fold is at most n. */
  lemma {:induction false} SpacingSmall(n: nat)
    requires n >= EXACT_FLOAT
    ensures Spacing(n) * (EXACT_FLOAT / 2) <= n
    decreases n
  {
    if n / 2 >= EXACT_FLOAT {
      SpacingSmall(n / 2);
    } else {
      assert Spacing(n / 2) == 1;
    }
  }

  /** And it is what 53 bits need: n is less than 2^53 times the spacing. */
  lemma {:induction false} SpacingLarge(n: nat)
    ensures n < EXACT_FLOAT * Spacing(n)
    decreases n
  {
    if n >= EXACT_FLOAT {
      SpacingLarge(n / 2);
    }
  }

  /** Rounding: to a multiple of the spacing, the nearer one, and between two equally near ones to the
      even multiple. */
  lemma FloatExactly(n: nat) returns (q: nat)
    ensures Float(n) == q * Spacing(n) && -(Spacing(n) as int) <= 2 * (Float(n) - n) <= Spacing(n)
    ensures 2 * (Float(n) - n) == Spacing(n) || 2 * (Float(n) - n) == -(Spacing(n) as int) ==> q % 2 == 0
  {
    var u := Spacing(n);
    var r := n % u;
    QuotientTimes(n, u);
    OneMultipleMore(n / u, u);
    RemainderFits(n, u);
    q := NearerMultiple(n, u, n / u, r, Float(n));
  }

  lemma NearerMultiple(n: nat, u: nat, down: nat, r: nat, f: int) returns (q: nat)
    requires r < u && f == if 2 * r < u || (2 * r == u && down % 2 == 0) then n - r else n - r + u
    ensures q == (if f == n - r then down else down + 1) && -(u as int) <= 2 * (f - n) <= u
    ensures 2 * (f - n) == u || 2 * (f - n) == -(u as int) ==> q % 2 == 0
  {
    q := if f == n - r then down else down + 1;
  }

  lemma QuotientTimes(n: nat, u: nat)
    requires u > 0
    ensures n - n % u == (n / u) * u
  {
  }

  lemma OneMultipleMore(q: nat, u: nat)
    ensures (q + 1) * u == q * u + u
  {
  }

  lemma FloatPositive(n: nat)
    requires n > 0
    ensures Float(n) > 0
  {
    FloatNear(n);
    if n >= EXACT_FLOAT { SpacingSmall(n); }
  }

  /** retryDelay. The base is converted to float64 and scaled; a product beyond int64 converts to some
      platform value that is not positive or is the largest int64. */
  method RetryDelay(base: int, max: int, attempt: int, jitter: int -> int, overflow: int) returns (delay: int)
    requires 0 < base <= max <= MAX_INT64
    requires -MAX_INT64 - 1 <= attempt <= MAX_INT64
    requires forall d :: -MAX_INT64 - 1 <= jitter(d) <= MAX_INT64
    requires -MAX_INT64 - 1 <= overflow <= 0 || overflow == MAX_INT64
    ensures Backoff(Float(base), max, attempt) <= delay <= max
    ensures base < EXACT_FLOAT ==> Backoff(base, max, attempt) <= delay
    ensures var bare := Backoff(Float(base), max, attempt); delay == Min(max, bare + (if jitter(bare) < 0 then 0 else jitter(bare)))
  {
    var n := attempt;
    if n < 1 {
      n := 1;
    }
    var exponent := n - 1;
    if exponent > 62 {
      exponent := 62;
    }
    var multiplier := Pow2(exponent);
    FloatNear(base);
    FloatPositive(base);
    var scaled := Float(base);
    var product := scaled * multiplier;
    ProductPositive(scaled, multiplier);
    assert Backoff(scaled, max, attempt) == Min(product, max);
    delay := if product <= MAX_INT64 then product else overflow;
    if delay <= 0 || delay > max {
      delay := max;
    }
    delay := AddJitter(delay, max, jitter);
  }

  /** The jitter on top, without passing the maximum or overflowing. */
  method AddJitter(bare: int, max: int, jitter: int -> int) returns (delay: int)
    requires 0 <= bare <= max <= MAX_INT64 && -MAX_INT64 - 1 <= jitter(bare) <= MAX_INT64
    ensures bare <= delay <= max && delay == Min(max, bare + (if jitter(bare) < 0 then 0 else jitter(bare)))
  {
    var extra := jitter(bare);
    if extra < 0 {
      extra := 0;
    }
    assert -MAX_INT64 - 1 <= max - extra <= MAX_INT64;
    if bare > max - extra {
      return max;
    }
    assert bare + extra <= MAX_INT64;
    return bare + extra;
  }

  lemma ProductPositive(a: int, b: int)
    requires a > 0 && b >= 1
    ensures a * b >= a
  {
  }

  lemma {:induction false} Pow2Monotone(m: nat, n: nat)
    requires m <= n
    ensures Pow2(m) <= Pow2(n)
    decreases n
  {
    if m < n {
      Pow2Monotone(m, n - 1);
    }
  }

  /** The delay never shrinks from one attempt to a later one, and starts at the base, or at the
      maximum if that is less. */
  lemma BackoffMonotone(base: int, max: int, a: int, b: int)
    requires 0 < base && 0 < max && a <= b
    ensures Min(base, max) <= Backoff(base, max, a) <= Backoff(base, max, b) <= max
  {
    var m: nat := if a < 1 then 0 else if a - 1 > 62 then 62 else a - 1;
    var n: nat := if b < 1 then 0 else if b - 1 > 62 then 62 else b - 1;
    Pow2Monotone(m, n);
    ProductPositive(base, Pow2(m));
    ScaleMonotone(base, Pow2(m), Pow2(n));
  }

  /** The bare delay is the base for a first attempt and doubles with every further one, up to the
      maximum and up to the 63rd attempt. */
  lemma BackoffDoubles(base: int, max: int, n: int)
    requires 0 < base && 0 < max
    ensures n <= 1 ==> Backoff(base, max, n) == if base <= max then base else max
    ensures 1 <= n <= 62 ==> Backoff(base, max, n + 1) == if 2 * Backoff(base, max, n) <= max then 2 * Backoff(base, max, n) else max
    ensures 63 <= n ==> Backoff(base, max, n) == Backoff(base, max, 63)
  {
    if 1 <= n <= 62 {
      Twice(base, Pow2(n - 1));
    }
  }

  lemma Twice(a: int, x: int)
    ensures a * (2 * x) == 2 * (a * x)
  {
  }

  lemma ScaleMonotone(a: int, x: int, y: int)
    requires a > 0 && x <= y
    ensures a * x <= a * y
  {
  }
}
