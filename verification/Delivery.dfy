/** The delivery worker of internal/delivery/service.go over the outbox tables. Calls of other
    components run between its statements and are given as part of a pass. */
module Delivery {
  import opened Text
  import opened Store

  // ---- what other calls do to the outbox between the worker's statements ----

  datatype Other =
    | Sent(id: string, source: AgentId, target: AgentId, context: string, payload: string, at: int)
    | Cancelled1(id: string)
    | CancelledContact(source: AgentId, target: AgentId)

  function Interfere(o: Outbox, x: Other): Outbox {
    match x
    case Sent(id, source, target, context, payload, at) =>
      (match Enqueue(o, id, source, target, context, payload, at) case Ok(o') => o' case Err(_) => o)
    case Cancelled1(id) => (match CancelOne(o, id) case Ok(o') => o' case Err(_) => o)
    case CancelledContact(source, target) => CancelForContact(o, source, target)
  }

  function InterfereAll(o: Outbox, xs: seq<Other>): Outbox
    decreases xs
  {
    if xs == [] then o else InterfereAll(Interfere(o, xs[0]), xs[1..])
  }

  // ---- due messages ----

  /** A message as listed: the worker keeps this copy for the whole pass. */
  datatype Item = Item(id: string, target: AgentId, attempts: nat)

  /** ORDER BY next_attempt_at, created_at; equal rows in insertion order. */
  predicate Ahead(r: Row, s: Row) {
    r.next < s.next || (r.next == s.next && (r.created < s.created || (r.created == s.created && r.rowid < s.rowid)))
  }

  predicate IsDue(o: Outbox, id: string, now: int) {
    id in o.rows && o.rows[id].state == Pending && o.rows[id].next <= Millis(now)
  }

  function ItemOf(o: Outbox, id: string): Item
    requires id in o.rows
  {
    Item(id, o.rows[id].target, o.rows[id].attempts)
  }

  function Ids(batch: seq<Item>): set<string> { set i | 0 <= i < |batch| :: batch[i].id }

  /** Rows as they stand, in order, all of them ahead of the rows in `left`. */
  ghost predicate Ordered(o: Outbox, batch: seq<Item>, left: set<string>) {
    && left <= o.rows.Keys
    && (forall i :: 0 <= i < |batch| ==> batch[i].id in o.rows && batch[i] == ItemOf(o, batch[i].id))
    && (forall i, j :: 0 <= i < j < |batch| ==> batch[i].id != batch[j].id && Ahead(o.rows[batch[i].id], o.rows[batch[j].id]))
    && (forall i, id :: 0 <= i < |batch| && id in left ==> Ahead(o.rows[batch[i].id], o.rows[id]))
  }

  function DueIds(o: Outbox, now: int): set<string> { set id | id in o.rows && IsDue(o, id, now) }

  /** What ListDueOutbox returns: the first `limit` due rows. */
  ghost predicate DueList(o: Outbox, now: int, limit: nat, batch: seq<Item>) {
    && |batch| <= limit && Ids(batch) <= DueIds(o, now)
    && Ordered(o, batch, DueIds(o, now) - Ids(batch))
    && (DueIds(o, now) != Ids(batch) ==> |batch| == limit)
  }

  lemma IdsAppend(batch: seq<Item>, item: Item)
    ensures Ids(batch + [item]) == Ids(batch) + {item.id}
  {
    var longer := batch + [item];
    assert longer[|batch|] == item && forall i :: 0 <= i < |batch| ==> longer[i] == batch[i];
    forall id | id in Ids(batch) ensures id in Ids(longer) {
      var i :| 0 <= i < |batch| && batch[i].id == id;
      assert longer[i].id == id;
    }
  }

  lemma OrderedAppend(o: Outbox, batch: seq<Item>, left: set<string>, id: string)
    requires Ordered(o, batch, left) && id in left && (forall i :: 0 <= i < |batch| ==> batch[i].id != id)
    requires forall x :: x in left && x != id ==> Ahead(o.rows[id], o.rows[x])
    ensures Ordered(o, batch + [ItemOf(o, id)], left - {id})
  {
  }

  /** The order is a strict one, and tells any two rows apart. */
  lemma AheadOrders(r: Row, s: Row, t: Row)
    ensures !Ahead(r, r) && (Ahead(r, s) && Ahead(s, t) ==> Ahead(r, t))
    ensures r.rowid != s.rowid ==> Ahead(r, s) || Ahead(s, r)
    ensures r.next < s.next || (r.next == s.next && r.created < s.created) ==> Ahead(r, s)
  {
  }

  /** A list of due messages that leaves another list of them at place i has nothing to put there. */
  lemma {:induction false} SamePlaces(o: Outbox, now: int, limit: nat, a: seq<Item>, b: seq<Item>, i: nat)
    requires DueList(o, now, limit, a) && DueList(o, now, limit, b) && i <= |a| && i <= |b|
    ensures a[..i] == b[..i]
    decreases i
  {
    if i > 0 {
      SamePlaces(o, now, limit, a, b, i - 1);
      SamePlace(o, now, limit, a, b, i - 1);
      SamePlace(o, now, limit, b, a, i - 1);
      var x, y := o.rows[a[i - 1].id], o.rows[b[i - 1].id];
      AheadOrders(x, y, x);
      assert a[..i] == a[..i - 1] + [a[i - 1]] && b[..i] == b[..i - 1] + [b[i - 1]];
    }
  }

  lemma SamePlace(o: Outbox, now: int, limit: nat, a: seq<Item>, b: seq<Item>, i: nat)
    requires DueList(o, now, limit, a) && DueList(o, now, limit, b) && i < |a| && i < |b| && a[..i] == b[..i]
    ensures a[i] == b[i] || Ahead(o.rows[a[i].id], o.rows[b[i].id])
  {
    var id := b[i].id;
    assert id in Ids(b) && id in DueIds(o, now);
    if id in Ids(a) {
      var j :| 0 <= j < |a| && a[j].id == id;
      assert j >= i by { assert forall n :: 0 <= n < i ==> a[n] == b[..i][n]; }
    } else {
      assert id in DueIds(o, now) - Ids(a);
    }
  }

  /** What the store lists is determined: two lists of the first due messages are the same list. */
  lemma DueListUnique(o: Outbox, now: int, limit: nat, a: seq<Item>, b: seq<Item>)
    requires DueList(o, now, limit, a) && DueList(o, now, limit, b)
    ensures a == b
  {
    if |a| <= |b| { NotLonger(o, now, limit, a, b); } else { NotLonger(o, now, limit, b, a); }
    SamePlaces(o, now, limit, a, b, |a|);
    assert a[..|a|] == a && b[..|a|] == b;
  }

  lemma NextIsNew(o: Outbox, b: seq<Item>, left: set<string>, n: nat)
    requires Ordered(o, b, left) && n < |b|
    ensures b[n].id in Ids(b) && b[n].id !in Ids(b[..n])
  {
  }

  lemma NotLonger(o: Outbox, now: int, limit: nat, a: seq<Item>, b: seq<Item>)
    requires DueList(o, now, limit, a) && DueList(o, now, limit, b) && |a| <= |b|
    ensures |a| == |b|
  {
    SamePlaces(o, now, limit, a, b, |a|);
    assert a == a[..|a|];
    if |a| < |b| {
      NextIsNew(o, b, DueIds(o, now) - Ids(b), |a|);
    }
  }

  // ---- one pass ----

  /** What happens around one listed message: other calls first; `stopped` if the context has ended;
      the transport's receipt id, or None if delivery failed; the back-off chosen on failure. */
  datatype Attempt = Attempt(others: seq<Other>, stopped: bool, receipt: Option<string>, delay: int)

  datatype Pass = Pass(outbox: Outbox, delivered: nat, retried: nat, failed: bool)

  function Statement(o: Outbox, item: Item, now: int, a: Attempt): Result<Outbox> {
    match a.receipt
    case None => ScheduleRetry(o, item.id, Millis(now + a.delay))
    case Some(receipt) => MarkDelivered(o, item.id, item.target, receipt, now)
  }

  function ProcessBatch(o: Outbox, now: int, batch: seq<Item>, attempts: seq<Attempt>): Pass
    requires |attempts| == |batch|
    decreases batch
  {
    if batch == [] then Pass(o, 0, 0, false)
    else
      var seen := InterfereAll(o, attempts[0].others);
      if attempts[0].stopped then Pass(seen, 0, 0, true)
      else match Statement(seen, batch[0], now, attempts[0])
        case Err(_) => Pass(seen, 0, 0, true)
        case Ok(next) =>
          var rest := ProcessBatch(next, now, batch[1..], attempts[1..]);
          if attempts[0].receipt.Some? then rest.(delivered := rest.delivered + 1) else rest.(retried := rest.retried + 1)
  }

  /** The pass from its i-th message on. */
  lemma ProcessStep(o: Outbox, now: int, batch: seq<Item>, attempts: seq<Attempt>, i: nat)
    requires |attempts| == |batch| && i < |batch|
    ensures var seen := InterfereAll(o, attempts[i].others);
            ProcessBatch(o, now, batch[i..], attempts[i..]) ==
            if attempts[i].stopped || Statement(seen, batch[i], now, attempts[i]).Err? then Pass(seen, 0, 0, true)
            else
              var rest := ProcessBatch(Statement(seen, batch[i], now, attempts[i]).value, now, batch[i + 1..], attempts[i + 1..]);
              if attempts[i].receipt.Some? then rest.(delivered := rest.delivered + 1) else rest.(retried := rest.retried + 1)
  {
    assert batch[i..][0] == batch[i] && batch[i..][1..] == batch[i + 1..];
    assert attempts[i..][0] == attempts[i] && attempts[i..][1..] == attempts[i + 1..];
  }

  // ---- the counters tell what the pass did ----

  function AttemptsOf(o: Outbox, id: string): nat { if id in o.rows then o.rows[id].attempts else 0 }

  predicate IsDelivered(o: Outbox, id: string) { id in o.rows && o.rows[id].state == Delivered }

  /** Rows delivered, and rows put back for another attempt, between two states. */
  function NewlyDelivered(o: Outbox, o': Outbox): set<string> {
    set id | id in o'.rows && IsDelivered(o', id) && !IsDelivered(o, id)
  }

  function PutBack(o: Outbox, o': Outbox): set<string> {
    set id | id in o'.rows && AttemptsOf(o', id) != AttemptsOf(o, id)
  }

  /** Other calls deliver nothing and put nothing back. */
  predicate Idle(o: Outbox, o': Outbox) {
    && o.rows.Keys <= o'.rows.Keys
    && forall id :: id in o'.rows ==> AttemptsOf(o', id) == AttemptsOf(o, id) && IsDelivered(o', id) == IsDelivered(o, id)
  }

  lemma InterfereIdle(o: Outbox, x: Other)
    ensures Idle(o, Interfere(o, x))
  {
  }

  lemma {:induction false} InterfereAllIdle(o: Outbox, xs: seq<Other>)
    ensures Idle(o, InterfereAll(o, xs))
    decreases xs
  {
    if xs != [] {
      InterfereIdle(o, xs[0]);
      InterfereAllIdle(Interfere(o, xs[0]), xs[1..]);
    }
  }

  predicate Distinct(batch: seq<Item>) {
    forall i, j :: 0 <= i < j < |batch| ==> batch[i].id != batch[j].id
  }

  predicate Undelivered(o: Outbox, batch: seq<Item>) {
    forall i :: 0 <= i < |batch| ==> batch[i].id in o.rows && !IsDelivered(o, batch[i].id)
  }

  /** A statement on an undelivered row moves that row and no other. */
  lemma StatementMoves(o: Outbox, item: Item, now: int, a: Attempt)
    requires item.id in o.rows && !IsDelivered(o, item.id) && Statement(o, item, now, a).Ok?
    ensures var o' := Statement(o, item, now, a).value;
            && o'.rows.Keys == o.rows.Keys
            && (forall id :: id in o.rows && id != item.id ==> o'.rows[id] == o.rows[id])
            && IsDelivered(o', item.id) == a.receipt.Some?
            && AttemptsOf(o', item.id) == AttemptsOf(o, item.id) + if a.receipt.Some? then 0 else 1
  {
  }

  /** The counters are the numbers of rows delivered and put back between two states, all of them
      listed rows, each put back exactly once, and no delivery undone. */
  ghost predicate Exact(o: Outbox, o': Outbox, ids: set<string>, delivered: nat, retried: nat) {
    && o.rows.Keys <= o'.rows.Keys
    && NewlyDelivered(o, o') <= ids && PutBack(o, o') <= ids
    && delivered == |NewlyDelivered(o, o')| && retried == |PutBack(o, o')|
    && (forall id :: id in PutBack(o, o') ==> AttemptsOf(o', id) == AttemptsOf(o, id) + 1)
    && (forall id :: IsDelivered(o, id) ==> IsDelivered(o', id))
  }

  lemma IdleExact(o: Outbox, o': Outbox, ids: set<string>)
    requires Idle(o, o')
    ensures Exact(o, o', ids, 0, 0)
  {
    assert NewlyDelivered(o, o') == {} && PutBack(o, o') == {};
  }

  /** Even when the pass stops early, its two counters equal the rows it moved. */
  lemma {:induction false} CountersExact(o: Outbox, now: int, batch: seq<Item>, attempts: seq<Attempt>)
    requires |attempts| == |batch| && Distinct(batch) && Undelivered(o, batch)
    ensures var p := ProcessBatch(o, now, batch, attempts);
            Exact(o, p.outbox, Ids(batch), p.delivered, p.retried)
    decreases batch
  {
    if batch == [] {
      IdleExact(o, o, {});
    } else {
      var item, a := batch[0], attempts[0];
      var seen := InterfereAll(o, a.others);
      InterfereAllIdle(o, a.others);
      if a.stopped || Statement(seen, item, now, a).Err? {
        IdleExact(o, seen, Ids(batch));
      } else {
        var next := Statement(seen, item, now, a).value;
        StatementMoves(seen, item, now, a);
        UndeliveredRest(o, seen, next, batch);
        CountersExact(next, now, batch[1..], attempts[1..]);
        var rest := ProcessBatch(next, now, batch[1..], attempts[1..]);
        IdsFirst(batch);
        ExactFirst(o, seen, next, rest.outbox, item.id, Ids(batch[1..]), a.receipt.Some?, rest.delivered, rest.retried);
      }
    }
  }

  lemma UndeliveredRest(o: Outbox, seen: Outbox, next: Outbox, batch: seq<Item>)
    requires batch != [] && Distinct(batch) && Undelivered(o, batch) && Idle(o, seen) && next.rows.Keys == seen.rows.Keys
    requires forall id :: id in seen.rows && id != batch[0].id ==> next.rows[id] == seen.rows[id]
    ensures Distinct(batch[1..]) && Undelivered(next, batch[1..])
  {
    forall i | 0 <= i < |batch[1..]|
      ensures batch[1..][i].id in next.rows && !IsDelivered(next, batch[1..][i].id)
    {
      assert batch[1..][i] == batch[i + 1] && batch[0].id != batch[i + 1].id;
    }
  }

  /** The first listed row is moved in one of the two ways, and the rest of the pass leaves it. */
  lemma ExactFirst(o: Outbox, seen: Outbox, next: Outbox, last: Outbox, first: string, ids: set<string>,
                   delivers: bool, delivered: nat, retried: nat)
    requires first in o.rows && !IsDelivered(o, first) && first !in ids
    requires Idle(o, seen) && next.rows.Keys == seen.rows.Keys
    requires forall id :: id in seen.rows && id != first ==> next.rows[id] == seen.rows[id]
    requires IsDelivered(next, first) == delivers
    requires AttemptsOf(next, first) == AttemptsOf(seen, first) + if delivers then 0 else 1
    requires Exact(next, last, ids, delivered, retried)
    ensures Exact(o, last, {first} + ids, if delivers then delivered + 1 else delivered, if delivers then retried else retried + 1)
  {
    OthersAlike(o, seen, next, first);
    assert first !in PutBack(next, last) && first in last.rows;
    assert AttemptsOf(last, first) == AttemptsOf(next, first);
    FirstDelivered(o, next, last, first, delivers);
    FirstPutBack(o, next, last, first, delivers);
  }

  lemma OthersAlike(o: Outbox, seen: Outbox, next: Outbox, first: string)
    requires first in o.rows && Idle(o, seen) && next.rows.Keys == seen.rows.Keys
    requires forall id :: id in seen.rows && id != first ==> next.rows[id] == seen.rows[id]
    ensures forall id :: id != first ==> AttemptsOf(next, id) == AttemptsOf(o, id) && IsDelivered(next, id) == IsDelivered(o, id)
  {
    forall id | id != first
      ensures AttemptsOf(next, id) == AttemptsOf(o, id) && IsDelivered(next, id) == IsDelivered(o, id)
    {
      assert id !in seen.rows ==> id !in next.rows && id !in o.rows;
    }
  }

  lemma FirstDelivered(o: Outbox, next: Outbox, last: Outbox, first: string, delivers: bool)
    requires !IsDelivered(o, first) && IsDelivered(next, first) == delivers
    requires forall id :: id != first ==> IsDelivered(next, id) == IsDelivered(o, id)
    requires forall id :: IsDelivered(next, id) ==> IsDelivered(last, id)
    requires first !in NewlyDelivered(next, last)
    ensures NewlyDelivered(o, last) == NewlyDelivered(next, last) + if delivers then {first} else {}
  {
  }

  lemma FirstPutBack(o: Outbox, next: Outbox, last: Outbox, first: string, delivers: bool)
    requires first in last.rows && first !in PutBack(next, last)
    requires AttemptsOf(next, first) == AttemptsOf(o, first) + if delivers then 0 else 1
    requires forall id :: id != first ==> AttemptsOf(next, id) == AttemptsOf(o, id)
    ensures PutBack(o, last) == PutBack(next, last) + if delivers then {} else {first}
  {
  }

  lemma IdsFirst(batch: seq<Item>)
    requires batch != [] && Distinct(batch)
    ensures batch[0].id !in Ids(batch[1..]) && Ids(batch) == {batch[0].id} + Ids(batch[1..])
  {
    forall i | 0 <= i < |batch| ensures i == 0 || batch[i].id in Ids(batch[1..]) {
      if i > 0 { assert batch[1..][i - 1] == batch[i]; }
    }
    forall i | 0 <= i < |batch[1..]| ensures batch[1..][i].id in Ids(batch) && batch[1..][i].id != batch[0].id {
      assert batch[1..][i] == batch[i + 1];
    }
  }

  // ---- bounded wait ----

  predicate IsPending(o: Outbox, id: string) { id in o.rows && o.rows[id].state == Pending }

  /** Insertion numbers are used once. */
  predicate Numbered(o: Outbox) { forall id :: id in o.rows ==> o.rows[id].rowid < o.nextRowid }

  /** The pending rows ordered before row `r`. */
  function AheadOf(o: Outbox, r: Row): set<string> { set id | id in o.rows && IsPending(o, id) && Ahead(o.rows[id], r) }

  /** Row `m` was due and written at clock reading `clock`. */
  predicate DueSince(r: Row, clock: int) { r.next <= Millis(clock) && r.created <= Millis(clock) }

  /** `m` keeps its place, and nothing gets in front of it but what was there. */
  predicate HoldsPlace(o: Outbox, o': Outbox, m: string, passed: set<string>)
    requires m in o.rows
  {
    && Numbered(o') && m in o'.rows
    && o'.rows[m] == o.rows[m].(state := o'.rows[m].state)
    && AheadOf(o', o.rows[m]) <= AheadOf(o, o.rows[m]) - passed
  }

  predicate SentAfter(xs: seq<Other>, clock: int) {
    forall i :: 0 <= i < |xs| && xs[i].Sent? ==> xs[i].at >= clock
  }

  lemma InterferenceHoldsPlace(o: Outbox, x: Other, m: string, clock: int)
    requires Numbered(o) && m in o.rows && DueSince(o.rows[m], clock) && (x.Sent? ==> x.at >= clock)
    ensures HoldsPlace(o, Interfere(o, x), m, {})
  {
    if x.Sent? {
      assert Millis(clock) <= Millis(x.at);
    }
  }

  lemma {:induction false} OthersHoldPlace(o: Outbox, xs: seq<Other>, m: string, clock: int)
    requires Numbered(o) && m in o.rows && DueSince(o.rows[m], clock) && SentAfter(xs, clock)
    ensures HoldsPlace(o, InterfereAll(o, xs), m, {})
    decreases xs
  {
    if xs != [] {
      var o1 := Interfere(o, xs[0]);
      InterferenceHoldsPlace(o, xs[0], m, clock);
      OthersHoldPlace(o1, xs[1..], m, clock);
      SameAhead(o1, o.rows[m], o1.rows[m]);
      SameAhead(InterfereAll(o1, xs[1..]), o.rows[m], o1.rows[m]);
    }
  }

  lemma SameAhead(o: Outbox, r: Row, s: Row)
    requires r.next == s.next && r.created == s.created && r.rowid == s.rowid
    ensures AheadOf(o, r) == AheadOf(o, s)
  {
  }

  /** A processed row leaves Pending or moves strictly behind every row that was due. */
  lemma StatementPasses(o: Outbox, item: Item, now: int, a: Attempt, m: string, clock: int)
    requires Numbered(o) && m in o.rows && DueSince(o.rows[m], clock) && clock <= now && a.delay >= 1_000_000
    requires item.id != m && Statement(o, item, now, a).Ok?
    ensures HoldsPlace(o, Statement(o, item, now, a).value, m, {item.id})
  {
    var o' := Statement(o, item, now, a).value;
    assert Millis(clock) < Millis(now + a.delay);
    assert o'.rows.Keys == o.rows.Keys;
    assert !(IsPending(o', item.id) && Ahead(o'.rows[item.id], o.rows[m]));
  }

  predicate FairAttempts(attempts: seq<Attempt>, clock: int) {
    forall i :: 0 <= i < |attempts| ==> SentAfter(attempts[i].others, clock) && attempts[i].delay >= 1_000_000
  }

  lemma HoldsPlaceTwice(o: Outbox, o1: Outbox, o2: Outbox, m: string, passed1: set<string>, passed2: set<string>)
    requires m in o.rows && HoldsPlace(o, o1, m, passed1) && HoldsPlace(o1, o2, m, passed2)
    ensures HoldsPlace(o, o2, m, passed1 + passed2)
  {
    SameAhead(o1, o.rows[m], o1.rows[m]);
    SameAhead(o2, o.rows[m], o1.rows[m]);
  }

  /** A pass without errors that does not attempt `m` takes every listed row out of its way. */
  lemma {:induction false} PassClears(o: Outbox, now: int, batch: seq<Item>, attempts: seq<Attempt>, m: string, clock: int)
    requires |attempts| == |batch| && Distinct(batch) && m !in Ids(batch)
    requires Numbered(o) && m in o.rows && DueSince(o.rows[m], clock) && clock <= now && FairAttempts(attempts, clock)
    requires !ProcessBatch(o, now, batch, attempts).failed
    ensures HoldsPlace(o, ProcessBatch(o, now, batch, attempts).outbox, m, Ids(batch))
    decreases batch
  {
    if batch != [] {
      var item, a := batch[0], attempts[0];
      var seen := InterfereAll(o, a.others);
      OthersHoldPlace(o, a.others, m, clock);
      IdsFirst(batch);
      assert Statement(seen, item, now, a).Ok?;
      var next := Statement(seen, item, now, a).value;
      StatementPasses(seen, item, now, a, m, clock);
      HoldsPlaceTwice(o, seen, next, m, {}, {item.id});
      PassClears(next, now, batch[1..], attempts[1..], m, clock);
      HoldsPlaceTwice(o, next, ProcessBatch(next, now, batch[1..], attempts[1..]).outbox, m, {} + {item.id}, Ids(batch[1..]));
      assert {} + {item.id} + Ids(batch[1..]) == Ids(batch);
    }
  }

  /** Other calls, then one pass of the worker. */
  datatype Round = Round(others: seq<Other>, now: int, batch: seq<Item>, attempts: seq<Attempt>)

  function Listed(o: Outbox, r: Round): Outbox { InterfereAll(o, r.others) }

  function AfterRound(o: Outbox, r: Round): Outbox
    requires |r.attempts| == |r.batch|
  {
    ProcessBatch(Listed(o, r), r.now, r.batch, r.attempts).outbox
  }

  /** An error-free pass with a clock that has not gone back, on what the store lists. */
  ghost predicate CleanRound(o: Outbox, r: Round, limit: nat, clock: int) {
    && |r.attempts| == |r.batch| && DueList(Listed(o, r), r.now, limit, r.batch)
    && clock <= r.now && SentAfter(r.others, clock) && FairAttempts(r.attempts, clock)
    && !ProcessBatch(Listed(o, r), r.now, r.batch, r.attempts).failed
  }

  /** `m` is still pending when each of the rounds lists its messages. */
  ghost predicate CleanRounds(o: Outbox, rounds: seq<Round>, limit: nat, clock: int, m: string)
    decreases rounds
  {
    rounds == [] ||
    (CleanRound(o, rounds[0], limit, clock) && IsPending(Listed(o, rounds[0]), m)
     && CleanRounds(AfterRound(o, rounds[0]), rounds[1..], limit, clock, m))
  }

  /** A round that leaves `m` out serves a full batch of rows in front of it. */
  lemma RoundClears(o: Outbox, r: Round, limit: nat, clock: int, m: string)
    requires Numbered(o) && m in o.rows && DueSince(o.rows[m], clock)
    requires CleanRound(o, r, limit, clock) && IsPending(Listed(o, r), m) && m !in Ids(r.batch)
    ensures HoldsPlace(o, AfterRound(o, r), m, Ids(r.batch))
    ensures |AheadOf(AfterRound(o, r), o.rows[m])| + limit <= |AheadOf(o, o.rows[m])|
  {
    var o1 := Listed(o, r);
    OthersHoldPlace(o, r.others, m, clock);
    assert IsDue(o1, m, r.now) by { assert Millis(clock) <= Millis(r.now); }
    assert m in DueIds(o1, r.now) - Ids(r.batch);
    assert |r.batch| == limit && Distinct(r.batch);
    PassClears(o1, r.now, r.batch, r.attempts, m, clock);
    HoldsPlaceTwice(o, o1, AfterRound(o, r), m, {}, Ids(r.batch));
    assert {} + Ids(r.batch) == Ids(r.batch);
    SameAhead(o1, o.rows[m], o1.rows[m]);
    forall id | id in Ids(r.batch) ensures id in AheadOf(o1, o1.rows[m]) {
      var i :| 0 <= i < |r.batch| && r.batch[i].id == id;
    }
    IdsCount(r.batch);
    var before, after := AheadOf(o, o.rows[m]), AheadOf(AfterRound(o, r), o.rows[m]);
    CountRemoved(before, after, Ids(r.batch));
  }

  lemma CountRemoved(before: set<string>, after: set<string>, gone: set<string>)
    requires gone <= before && after <= before - gone
    ensures |after| + |gone| <= |before|
  {
    SubsetSize(after, before - gone);
  }

  lemma SubsetSize(a: set<string>, b: set<string>)
    requires a <= b
    ensures |a| <= |b|
  {
    assert b == a + (b - a);
  }

  lemma {:induction false} IdsCount(batch: seq<Item>)
    requires Distinct(batch)
    ensures |Ids(batch)| == |batch|
    decreases batch
  {
    if batch == [] {
      assert Ids(batch) == {};
    } else {
      IdsFirst(batch);
      IdsCount(batch[1..]);
    }
  }

  predicate Attempted(rounds: seq<Round>, m: string) { exists k :: 0 <= k < |rounds| && m in Ids(rounds[k].batch) }

  lemma {:induction false} WaitingCosts(o: Outbox, rounds: seq<Round>, limit: nat, clock: int, m: string)
    requires Numbered(o) && m in o.rows && DueSince(o.rows[m], clock)
    requires CleanRounds(o, rounds, limit, clock, m) && !Attempted(rounds, m)
    ensures |rounds| * limit <= |AheadOf(o, o.rows[m])|
    decreases rounds
  {
    if rounds != [] {
      var o' := AfterRound(o, rounds[0]);
      NotAttemptedRest(rounds, m);
      RoundClears(o, rounds[0], limit, clock, m);
      WaitingCosts(o', rounds[1..], limit, clock, m);
      SameAhead(o', o.rows[m], o'.rows[m]);
      OneMore(|rounds[1..]|, limit);
    }
  }

  lemma NotAttemptedRest(rounds: seq<Round>, m: string)
    requires rounds != [] && !Attempted(rounds, m)
    ensures m !in Ids(rounds[0].batch) && !Attempted(rounds[1..], m)
  {
    forall k | 0 <= k < |rounds[1..]| ensures m !in Ids(rounds[1..][k].batch) {
      assert rounds[1..][k] == rounds[k + 1];
    }
  }

  lemma OneMore(n: nat, limit: nat)
    ensures (n + 1) * limit == n * limit + limit
  {
  }

  /** Bounded wait. With a clock that does not go back and delays of at least a millisecond, a message
      that is due behind r pending ones is attempted within floor(r / batch size) + 1 error-free
      passes, unless it stops being pending, whatever is sent and cancelled meanwhile. */
  lemma BoundedWait(o: Outbox, rounds: seq<Round>, limit: nat, clock: int, m: string)
    requires limit > 0 && Numbered(o) && IsPending(o, m) && DueSince(o.rows[m], clock)
    requires |rounds| == |AheadOf(o, o.rows[m])| / limit + 1
    requires CleanRounds(o, rounds, limit, clock, m)
    ensures Attempted(rounds, m)
  {
    if !Attempted(rounds, m) {
      WaitingCosts(o, rounds, limit, clock, m);
      FloorExceeded(|AheadOf(o, o.rows[m])|, limit);
    }
  }

  lemma FloorExceeded(r: nat, limit: nat)
    requires limit > 0
    ensures (r / limit + 1) * limit > r
  {
  }
}
