/** The Codex adapter's durable state: bindings and mailbox of
    adapters/snw-agent-link-codex/snw_agent_link_codex/storage.py, and receive_message, send_message,
    attach_inbox and sync_inbox of service.py in the same directory. Every store call is one step. One
    receive runs at a time, behind its lock; sends, attaches and syncs interleave with it freely, and
    the process may crash between any two steps. */
module Adapter {
  import opened Text

  // ---- bindings ----

  /** The bindings table is listed in id order. */
  datatype Binding = Binding(agent: string, context: string, thread: string, lastTurn: string, active: bool, createdAt: int, updatedAt: int) {
    predicate For(agent: string, context: string) { this.agent == agent && this.context == context }
  }

  /** The row of (agent, context, thread), or the table's length. */
  function RowOf(b: seq<Binding>, agent: string, context: string, thread: string): (i: nat)
    ensures i <= |b|
    ensures i < |b| ==> b[i].For(agent, context) && b[i].thread == thread
    ensures forall j :: 0 <= j < i ==> !(b[j].For(agent, context) && b[j].thread == thread)
  {
    if b == [] then 0
    else if b[0].For(agent, context) && b[0].thread == thread then 0
    else 1 + RowOf(b[1..], agent, context, thread)
  }

  function Retire(row: Binding, agent: string, context: string, now: int): Binding {
    if row.For(agent, context) && row.active then row.(active := false, updatedAt := now) else row
  }

  function RetireAll(b: seq<Binding>, agent: string, context: string, now: int): seq<Binding> {
    seq(|b|, i requires 0 <= i < |b| => Retire(b[i], agent, context, now))
  }

  /** The transaction of bind_context: retire the active row, then insert or reactivate. */
  function Bind(b: seq<Binding>, agent: string, context: string, thread: string, lastTurn: string, now: int): seq<Binding> {
    var retired := RetireAll(b, agent, context, now);
    var i := RowOf(retired, agent, context, thread);
    if i < |retired| then retired[i := retired[i].(lastTurn := lastTurn, active := true, updatedAt := now)]
    else retired + [Binding(agent, context, thread, lastTurn, true, now, now)]
  }

  /** The active row of a context, or the table's length. */
  function ActiveRow(b: seq<Binding>, agent: string, context: string): (i: nat)
    ensures i <= |b|
    ensures i < |b| ==> b[i].For(agent, context) && b[i].active
    ensures forall j :: 0 <= j < i ==> !(b[j].For(agent, context) && b[j].active)
  {
    if b == [] then 0
    else if b[0].For(agent, context) && b[0].active then 0
    else 1 + ActiveRow(b[1..], agent, context)
  }

  predicate Bound(b: seq<Binding>, agent: string, context: string) { ActiveRow(b, agent, context) < |b| }

  function ActiveThread(b: seq<Binding>, agent: string, context: string): string
    requires Bound(b, agent, context)
  {
    b[ActiveRow(b, agent, context)].thread
  }

  predicate Listed(b: seq<Binding>, agent: string, context: string, thread: string) { RowOf(b, agent, context, thread) < |b| }

  /** The two uniqueness constraints, and threads that are never empty. */
  predicate WellBound(b: seq<Binding>) {
    && (forall i, j :: 0 <= i < j < |b| && b[j].For(b[i].agent, b[i].context) ==> b[i].thread != b[j].thread)
    && (forall i, j :: 0 <= i < j < |b| && b[j].For(b[i].agent, b[i].context) ==> !(b[i].active && b[j].active))
    && (forall i :: 0 <= i < |b| ==> b[i].thread != "")
  }

  /** Every row of `b` is still in its place in `b'`. */
  predicate Remembers(b: seq<Binding>, b': seq<Binding>) {
    && |b| <= |b'|
    && forall i :: 0 <= i < |b| ==> b'[i].For(b[i].agent, b[i].context) && b'[i].thread == b[i].thread && b'[i].createdAt == b[i].createdAt
  }

  lemma BindRows(b: seq<Binding>, agent: string, context: string, thread: string, lastTurn: string, now: int)
    ensures var b' := Bind(b, agent, context, thread, lastTurn, now);
            var i := RowOf(b, agent, context, thread);
            && Remembers(b, b')
            && |b'| == (if i < |b| then |b| else |b| + 1)
            && b'[i].For(agent, context) && b'[i].thread == thread && b'[i].active
            && forall j :: 0 <= j < |b'| && j != i ==> j < |b| && b'[j] == Retire(b[j], agent, context, now)
  {
    var retired := RetireAll(b, agent, context, now);
    SameRow(b, retired, agent, context, thread);
  }

  lemma {:induction false} SameRow(b: seq<Binding>, b': seq<Binding>, agent: string, context: string, thread: string)
    requires |b| == |b'|
    requires forall i :: 0 <= i < |b| ==> b'[i].agent == b[i].agent && b'[i].context == b[i].context && b'[i].thread == b[i].thread
    ensures RowOf(b', agent, context, thread) == RowOf(b, agent, context, thread)
    decreases b
  {
    if b != [] {
      SameRow(b[1..], b'[1..], agent, context, thread);
    }
  }

  /** bind_context keeps both uniqueness constraints, so its transaction never fails on them. */
  lemma BindKeepsWellBound(b: seq<Binding>, agent: string, context: string, thread: string, lastTurn: string, now: int)
    requires WellBound(b) && thread != ""
    ensures WellBound(Bind(b, agent, context, thread, lastTurn, now))
  {
    var b' := Bind(b, agent, context, thread, lastTurn, now);
    BindRows(b, agent, context, thread, lastTurn, now);
    var k := RowOf(b, agent, context, thread);
    forall i, j | 0 <= i < j < |b'| && b'[j].For(b'[i].agent, b'[i].context) ensures b'[i].thread != b'[j].thread && !(b'[i].active && b'[j].active) {
      assert i != k ==> b'[i] == Retire(b[i], agent, context, now);
      assert j != k ==> b'[j] == Retire(b[j], agent, context, now);
      assert j < |b| ==> b[j].For(b[i].agent, b[i].context);
    }
  }

  /** What a later table still has of an earlier one: bound contexts stay bound, listed threads stay listed. */
  ghost predicate Keeps(b: seq<Binding>, b': seq<Binding>) {
    && Remembers(b, b')
    && (forall a, c :: Bound(b, a, c) ==> Bound(b', a, c))
    && (forall a, c, t :: Listed(b, a, c, t) ==> Listed(b', a, c, t))
  }

  lemma BindKeeps(b: seq<Binding>, agent: string, context: string, thread: string, lastTurn: string, now: int)
    ensures var b' := Bind(b, agent, context, thread, lastTurn, now);
            Keeps(b, b') && Bound(b', agent, context) && Listed(b', agent, context, thread)
  {
    var b' := Bind(b, agent, context, thread, lastTurn, now);
    var i := RowOf(b, agent, context, thread);
    BindRows(b, agent, context, thread, lastTurn, now);
    forall a, c | Bound(b, a, c) ensures Bound(b', a, c) {
      var k := ActiveRow(b, a, c);
      if b[k].For(agent, context) || k == i {
        assert b'[i].For(a, c) && b'[i].active;
      } else {
        assert b'[k] == b[k];
      }
    }
    forall a, c, t | Listed(b, a, c, t) ensures Listed(b', a, c, t) {
      var k := RowOf(b, a, c, t);
      assert b'[k].For(a, c) && b'[k].thread == t;
    }
  }

  /** The thread that is active after a bind is the one just bound. */
  lemma BindActivates(b: seq<Binding>, agent: string, context: string, thread: string, lastTurn: string, now: int)
    requires WellBound(b) && thread != ""
    ensures var b' := Bind(b, agent, context, thread, lastTurn, now);
            Bound(b', agent, context) && ActiveThread(b', agent, context) == thread
  {
    BindRows(b, agent, context, thread, lastTurn, now);
    BindKeepsWellBound(b, agent, context, thread, lastTurn, now);
    var b' := Bind(b, agent, context, thread, lastTurn, now);
    var i := RowOf(b, agent, context, thread);
    assert b'[i].active && b'[i].For(agent, context);
  }

  // ---- mailbox ----

  datatype Key = Key(agent: string, message: string)

  datatype Metadata = Metadata(own: string, threadId: string, attachError: string)

  datatype Item = Item(context: string, remote: string, direction: string, body: string, metadata: Metadata, state: string,
                       task: string, taskState: string, received: int, readAt: Option<int>, attachedThread: string, attachedAt: Option<int>)

  /** put_mailbox_item: insert, or overwrite content and task but not direction, state or times. */
  function Put(rows: map<Key, Item>, key: Key, context: string, remote: string, body: string, direction: string, state: string, task: string, taskState: string,
               received: int, metadata: Metadata): map<Key, Item> {
    var itemState := if state != "" then state else if direction == "inbound" then "unread" else "sent";
    var itemTaskState := if taskState != "" then taskState else if direction == "inbound" then "received" else itemState;
    if key in rows then
      var row := rows[key];
      rows[key := row.(context := context, remote := remote, body := body, metadata := metadata,
                       task := if task == "" then row.task else task, taskState := itemTaskState)]
    else rows[key := Item(context, remote, direction, body, metadata, itemState, task, itemTaskState, received, None, "", None)]
  }

  function Marked(row: Item, thread: string, now: int): Item {
    row.(state := "attached", readAt := if row.readAt.Some? then row.readAt else Some(now), attachedThread := thread, attachedAt := Some(now))
  }

  /** mark_attached: all the messages or, if one is missing, none. */
  function MarkAll(rows: map<Key, Item>, agent: string, messages: seq<string>, thread: string, now: int): map<Key, Item> {
    if forall m <- messages :: Key(agent, m) in rows
    then map k | k in rows :: if k.agent == agent && k.message in messages then Marked(rows[k], thread, now) else rows[k]
    else rows
  }

  /** Some row of the agent has this task. */
  predicate HasTask(rows: map<Key, Item>, agent: string, task: string) { exists k <- rows :: k.agent == agent && rows[k].task == task }

  /** `pick` is a message find_task may return: one of the newest rows with that task id. */
  predicate MayFind(rows: map<Key, Item>, agent: string, task: string, pick: string) {
    HasTask(rows, agent, task) ==>
      && Key(agent, pick) in rows && rows[Key(agent, pick)].task == task
      && forall k <- rows :: k.agent == agent && rows[k].task == task ==> rows[k].received <= rows[Key(agent, pick)].received
  }

  // ---- receive_message ----

  datatype Params = Params(agent: string, remote: string, context: string, message: string, body: string, taskId: string, metadata: string) {
    function Task(): string { if taskId != "" then taskId else message }

    predicate Complete() { context != "" && message != "" && agent != "" && remote != "" }
  }

  function KeyOf(p: Params): Key { Key(p.agent, p.message) }

  /** The app-server behind the adapter: absent, without or with external messages. */
  datatype App = NoApp | Plain | WithMessages

  datatype Started = Raised | Returned(thread: string)

  /** What the surroundings answer: the clock, the lookup by task id, the app-server. */
  datatype Answers = Answers(now: int, pick: string, started: Started, attachError: string)

  datatype Reply = Refused | Failed | Received(item: Item, thread: string, duplicate: bool, attachError: string)

  /** Where a receive stands; each phase names what it does next. */
  datatype Phase =
    | Look | Recheck(item: Item) | CheckTask | Save | ReadBinding | Start
    | BindThread(thread: string) | Attach(thread: string) | Record(thread: string, error: string) | Finish(thread: string, error: string)
    | Done(reply: Reply)
  {
    function Left(): nat {
      match this
      case Look => 10
      case Recheck(_) => 9
      case CheckTask => 8
      case Save => 7
      case ReadBinding => 6
      case Start => 5
      case BindThread(_) => 4
      case Attach(_) => 3
      case Record(_, _) => 2
      case Finish(_, _) => 1
      case Done(_) => 0
    }
  }

  datatype Injection = Injection(agent: string, message: string, context: string, thread: string, remote: string, body: string)

  datatype Self = Self(agent: string, context: string, thread: string)

  /** The store, the external messages handed to the app-server by receive_message, and the threads
      it started and bound. */
  datatype World = World(bindings: seq<Binding>, rows: map<Key, Item>, injected: seq<Injection>, selfStarted: seq<Self>)

  const NO_THREAD := "Codex app-server did not return a thread id"

  function Found(w: World, p: Params): Phase {
    if KeyOf(p) !in w.rows then CheckTask
    else
      var item := w.rows[KeyOf(p)];
      if item.context != p.context || item.remote != p.remote || item.body != p.body then Done(Refused)
      else if item.task != "" && item.task != p.Task() then Done(Refused)
      else Recheck(item)
  }

  /** The row as the two puts of receive_message write it. */
  function Stored(w: World, p: Params, metadata: Metadata, now: int): World {
    w.(rows := Put(w.rows, KeyOf(p), p.context, p.remote, p.body, "inbound", "", p.Task(), "received", now, metadata))
  }

  function AfterThread(app: App, thread: string): Phase {
    if app == WithMessages then Attach(thread) else Record(thread, "")
  }

  function SelfBound(w: World, p: Params, thread: string, now: int): World {
    w.(bindings := Bind(w.bindings, p.agent, p.context, thread, "", now), selfStarted := w.selfStarted + [Self(p.agent, p.context, thread)])
  }

  function Injected(w: World, p: Params, thread: string): World {
    w.(injected := w.injected + [Injection(p.agent, p.message, p.context, thread, p.remote, p.body)])
  }

  /** One step of receive_message. */
  function Act(app: App, w: World, p: Params, phase: Phase, e: Answers): (r: (World, Phase))
    requires !phase.Done?
    ensures r.1.Left() < phase.Left()
  {
    match phase
    case Look => (w, Found(w, p))
    case Recheck(item) =>
      (w, if Bound(w.bindings, p.agent, p.context) then Done(Received(item, ActiveThread(w.bindings, p.agent, p.context), true, "")) else CheckTask)
    case CheckTask => (w, if HasTask(w.rows, p.agent, p.Task()) && e.pick != p.message then Done(Refused) else Save)
    case Save => (Stored(w, p, Metadata(p.metadata, "", ""), e.now), ReadBinding)
    case ReadBinding =>
      (w, if !Bound(w.bindings, p.agent, p.context) then (if app == NoApp then Finish("", "") else Start)
          else AfterThread(app, ActiveThread(w.bindings, p.agent, p.context)))
    case Start =>
      (w, match e.started
          case Raised => Done(Failed)
          case Returned(thread) => if thread == "" then Record("", NO_THREAD) else BindThread(thread))
    case BindThread(thread) => (SelfBound(w, p, thread, e.now), AfterThread(app, thread))
    case Attach(thread) => (Injected(w, p, thread), Record(thread, e.attachError))
    case Record(thread, error) => (Stored(w, p, Metadata(p.metadata, thread, error), e.now), Finish(thread, error))
    case Finish(thread, error) =>
      (w, Done(if KeyOf(p) in w.rows then Received(w.rows[KeyOf(p)], thread, false, error) else Failed))
  }

  // ---- runs ----

  datatype Receiving = Receiving(params: Params, phase: Phase)

  /** A send_message between its bind and its put. */
  datatype Sending = Sending(agent: string, context: string)

  datatype State = State(world: World, receiving: Option<Receiving>, sending: map<nat, Sending>)

  datatype Action =
    | Receive(params: Params)
    | Proceed(answers: Answers)
    | SendBind(id: nat, agent: string, context: string, thread: string, lastTurn: string, now: int)
    | SendPut(id: nat, message: string, target: string, body: string, task: string, state: string, metadata: Metadata, now: int)
    | SendFails(id: nat)
    | AttachBind(agent: string, context: string, thread: string, lastTurn: string, now: int)
    | MarkAttached(agent: string, messages: seq<string>, thread: string, now: int)
    | Sync(agent: string, message: string, context: string, remote: string, body: string, task: string, state: string, metadata: Metadata, received: int)
    | Crash

  const INITIAL := State(World([], map[], [], []), None, map[])

  /** bind_context and put_mailbox_item refuse empty names. */
  predicate Enabled(s: State, a: Action) {
    match a
    case Receive(p) => s.receiving == None && p.Complete()
    case Proceed(e) =>
      s.receiving.Some? && (s.receiving.value.phase == CheckTask ==>
                              MayFind(s.world.rows, s.receiving.value.params.agent, s.receiving.value.params.Task(), e.pick))
    case SendBind(id, agent, context, thread, _, _) => id !in s.sending && agent != "" && context != "" && thread != ""
    case SendPut(id, message, _, _, _, _, _, _) => id in s.sending && message != ""
    case SendFails(id) => true
    case AttachBind(agent, context, thread, _, _) => agent != "" && context != "" && thread != ""
    case MarkAttached(_, messages, _, _) => messages != []
    case Sync(agent, message, context, remote, _, _, _, _, _) => agent != "" && message != "" && context != "" && remote != ""
    case Crash => true
  }

  function DoProceed(app: App, s: State, e: Answers): State
    requires s.receiving.Some?
  {
    var r := s.receiving.value;
    if r.phase.Done? then s.(receiving := None)
    else
      var (w, phase) := Act(app, s.world, r.params, r.phase, e);
      s.(world := w, receiving := Some(r.(phase := phase)))
  }

  function DoSendPut(s: State, id: nat, message: string, target: string, body: string, task: string, state: string, metadata: Metadata, now: int): State
    requires id in s.sending
  {
    var sending := s.sending[id];
    s.(world := s.world.(rows := Put(s.world.rows, Key(sending.agent, message), sending.context, target, body, "outbound", state, task, "", now, metadata)),
       sending := s.sending - {id})
  }

  /** One message of the daemon's list, as sync_inbox writes it. */
  function Listing(w: World, key: Key, context: string, remote: string, body: string, task: string, state: string, metadata: Metadata, received: int): World {
    w.(rows := Put(w.rows, key, context, remote, body, "inbound", if state == "" then "unread" else state, task, "", received, metadata))
  }

  function Effect(app: App, s: State, a: Action): State
    requires Enabled(s, a)
  {
    match a
    case Receive(p) => s.(receiving := Some(Receiving(p, Look)))
    case Proceed(e) => DoProceed(app, s, e)
    case SendBind(id, agent, context, thread, lastTurn, now) =>
      s.(world := s.world.(bindings := Bind(s.world.bindings, agent, context, thread, lastTurn, now)), sending := s.sending[id := Sending(agent, context)])
    case SendPut(id, message, target, body, task, state, metadata, now) => DoSendPut(s, id, message, target, body, task, state, metadata, now)
    case SendFails(id) => s.(sending := s.sending - {id})
    case AttachBind(agent, context, thread, lastTurn, now) =>
      s.(world := s.world.(bindings := Bind(s.world.bindings, agent, context, thread, lastTurn, now)))
    case MarkAttached(agent, messages, thread, now) => s.(world := s.world.(rows := MarkAll(s.world.rows, agent, messages, thread, now)))
    case Sync(agent, message, context, remote, body, task, state, metadata, received) =>
      s.(world := Listing(s.world, Key(agent, message), context, remote, body, task, state, metadata, received))
    case Crash => s.(receiving := None, sending := map[])
  }

  function Step(app: App, s: State, a: Action): State { if Enabled(s, a) then Effect(app, s, a) else s }

  function Run(app: App, actions: seq<Action>): State {
    if actions == [] then INITIAL else Step(app, Run(app, actions[..|actions| - 1]), actions[|actions| - 1])
  }

  // ---- invariant ----

  predicate HasInjected(w: World, key: Key) { exists i :: 0 <= i < |w.injected| && Key(w.injected[i].agent, w.injected[i].message) == key }

  predicate HasStarted(w: World, agent: string, context: string) {
    exists i :: 0 <= i < |w.selfStarted| && w.selfStarted[i].agent == agent && w.selfStarted[i].context == context
  }

  /** An injected message has its row, and the row's context is bound. */
  predicate Settled(w: World, key: Key) { key in w.rows && Bound(w.bindings, key.agent, w.rows[key].context) }

  /** At most once, and nothing forgotten. */
  predicate Once(w: World) {
    && (forall i, j :: 0 <= i < j < |w.injected| ==> Key(w.injected[i].agent, w.injected[i].message) != Key(w.injected[j].agent, w.injected[j].message))
    && (forall i, j :: 0 <= i < j < |w.selfStarted| && w.selfStarted[i].agent == w.selfStarted[j].agent ==> w.selfStarted[i].context != w.selfStarted[j].context)
  }

  predicate Anchored(w: World) {
    && (forall i :: 0 <= i < |w.injected| ==> Settled(w, Key(w.injected[i].agent, w.injected[i].message)))
    && (forall i :: 0 <= i < |w.injected| ==> Listed(w.bindings, w.injected[i].agent, w.injected[i].context, w.injected[i].thread))
    && (forall i :: 0 <= i < |w.selfStarted| ==> Bound(w.bindings, w.selfStarted[i].agent, w.selfStarted[i].context))
    && (forall i :: 0 <= i < |w.selfStarted| ==> Listed(w.bindings, w.selfStarted[i].agent, w.selfStarted[i].context, w.selfStarted[i].thread))
  }

  predicate Good(w: World) { WellBound(w.bindings) && Once(w) && Anchored(w) }

  /** The context is bound, and to this thread at some time. */
  predicate OnThread(w: World, p: Params, thread: string) {
    Bound(w.bindings, p.agent, p.context) && Listed(w.bindings, p.agent, p.context, thread)
  }

  /** The receive's row is there, and its context is the receive's or a bound one. */
  predicate RowFits(w: World, p: Params) {
    KeyOf(p) in w.rows && (w.rows[KeyOf(p)].context == p.context || Bound(w.bindings, p.agent, w.rows[KeyOf(p)].context))
  }

  /** What the running receive may rely on, whatever interleaves. */
  predicate Relies(w: World, p: Params, phase: Phase) {
    match phase
    case Look | Finish(_, _) | Done(_) => true
    case Recheck(_) | Record(_, _) => HasInjected(w, KeyOf(p)) ==> Bound(w.bindings, p.agent, p.context)
    case CheckTask | Save => !HasInjected(w, KeyOf(p))
    case ReadBinding => !HasInjected(w, KeyOf(p)) && RowFits(w, p)
    case Start => !HasInjected(w, KeyOf(p)) && RowFits(w, p) && !HasStarted(w, p.agent, p.context)
    case BindThread(thread) => !HasInjected(w, KeyOf(p)) && RowFits(w, p) && !HasStarted(w, p.agent, p.context) && thread != ""
    case Attach(thread) => !HasInjected(w, KeyOf(p)) && RowFits(w, p) && OnThread(w, p, thread)
  }

  /** A row's new context is its old one or a bound one. */
  predicate Moves(w: World, w': World, k: Key)
    requires k in w.rows
  {
    k in w'.rows && (w'.rows[k].context == w.rows[k].context || Bound(w'.bindings, k.agent, w'.rows[k].context))
  }

  /** What sends and attaches leave in place. */
  ghost predicate Quiet(w: World, w': World) {
    && Keeps(w.bindings, w'.bindings) && (forall k <- w.rows :: Moves(w, w', k))
    && w'.injected == w.injected && w'.selfStarted == w.selfStarted
  }

  lemma Stable(w: World, w': World, p: Params, phase: Phase)
    requires Quiet(w, w') && Relies(w, p, phase)
    ensures Relies(w', p, phase)
  {
    if KeyOf(p) in w.rows {
      assert Moves(w, w', KeyOf(p));
    }
    assert HasInjected(w', KeyOf(p)) == HasInjected(w, KeyOf(p));
    assert HasStarted(w', p.agent, p.context) == HasStarted(w, p.agent, p.context);
  }

  /** Binding a context to a thread keeps the world good. */
  lemma BindGood(w: World, agent: string, context: string, thread: string, lastTurn: string, now: int)
    requires Good(w) && thread != ""
    ensures var w' := w.(bindings := Bind(w.bindings, agent, context, thread, lastTurn, now));
            Good(w') && Quiet(w, w') && Bound(w'.bindings, agent, context) && Listed(w'.bindings, agent, context, thread)
  {
    BindKeeps(w.bindings, agent, context, thread, lastTurn, now);
    BindKeepsWellBound(w.bindings, agent, context, thread, lastTurn, now);
  }

  /** Writing a row keeps the world good, if the message is not injected or the new context is bound. */
  lemma RowsGood(w: World, rows: map<Key, Item>, key: Key)
    requires Good(w) && key in rows && (forall k <- w.rows :: k in rows && (k != key ==> rows[k].context == w.rows[k].context))
    requires HasInjected(w, key) ==> Bound(w.bindings, key.agent, rows[key].context)
    ensures Good(w.(rows := rows))
  {
    var w' := w.(rows := rows);
    forall i | 0 <= i < |w.injected| ensures Settled(w', Key(w.injected[i].agent, w.injected[i].message)) {
      assert Settled(w, Key(w.injected[i].agent, w.injected[i].message));
    }
  }

  lemma PutRows(rows: map<Key, Item>, key: Key, context: string, remote: string, body: string, direction: string, state: string, task: string, taskState: string, received: int, metadata: Metadata)
    ensures var rows' := Put(rows, key, context, remote, body, direction, state, task, taskState, received, metadata);
            && key in rows' && rows'[key].context == context
            && forall k <- rows :: k in rows' && (k != key ==> rows'[k] == rows[k])
  {
  }

  lemma StoredGood(w: World, p: Params, metadata: Metadata, now: int)
    requires Good(w) && (HasInjected(w, KeyOf(p)) ==> Bound(w.bindings, p.agent, p.context))
    ensures Good(Stored(w, p, metadata, now)) && RowFits(Stored(w, p, metadata, now), p)
  {
    PutRows(w.rows, KeyOf(p), p.context, p.remote, p.body, "inbound", "", p.Task(), "received", now, metadata);
    RowsGood(w, Stored(w, p, metadata, now).rows, KeyOf(p));
  }

  lemma InjectedGood(w: World, p: Params, thread: string)
    requires Good(w) && Relies(w, p, Attach(thread))
    ensures Good(Injected(w, p, thread))
  {
    assert Settled(w, KeyOf(p));
  }

  lemma StartedGood(w: World, p: Params, thread: string)
    requires Good(w) && !HasStarted(w, p.agent, p.context) && OnThread(w, p, thread)
    ensures Good(w.(selfStarted := w.selfStarted + [Self(p.agent, p.context, thread)]))
  {
  }

  lemma SelfBoundGood(w: World, p: Params, thread: string, now: int)
    requires Good(w) && Relies(w, p, BindThread(thread))
    ensures Good(SelfBound(w, p, thread, now))
    ensures Relies(SelfBound(w, p, thread, now), p, Attach(thread))
  {
    BindGood(w, p.agent, p.context, thread, "", now);
    var w' := w.(bindings := Bind(w.bindings, p.agent, p.context, thread, "", now));
    assert Moves(w, w', KeyOf(p));
    StartedGood(w', p, thread);
  }

  /** An active row's thread is listed. */
  lemma ActiveListed(w: World, p: Params)
    requires Bound(w.bindings, p.agent, p.context)
    ensures OnThread(w, p, ActiveThread(w.bindings, p.agent, p.context))
  {
  }

  /** A message that was injected is found again, so a second receive never gets past its look-up. */
  lemma LookRelies(w: World, p: Params)
    requires Good(w)
    ensures Relies(w, p, Found(w, p))
  {
    if HasInjected(w, KeyOf(p)) {
      assert Settled(w, KeyOf(p));
    }
  }

  lemma ReadBindingRelies(app: App, w: World, p: Params, e: Answers)
    requires Good(w) && Relies(w, p, ReadBinding)
    ensures Relies(w, p, Act(app, w, p, ReadBinding, e).1)
  {
    if Bound(w.bindings, p.agent, p.context) {
      ActiveListed(w, p);
    }
  }

  /** Every step of a receive keeps the world good and what the receive relies on. */
  lemma ActKeeps(app: App, w: World, p: Params, phase: Phase, e: Answers)
    requires Good(w) && Relies(w, p, phase) && !phase.Done?
    ensures var (w', phase') := Act(app, w, p, phase, e); Good(w') && Relies(w', p, phase')
  {
    match phase
    case Look => LookRelies(w, p);
    case Save => StoredGood(w, p, Metadata(p.metadata, "", ""), e.now);
    case ReadBinding => ReadBindingRelies(app, w, p, e);
    case BindThread(thread) => SelfBoundGood(w, p, thread, e.now);
    case Attach(thread) => InjectedGood(w, p, thread);
    case Record(thread, error) => StoredGood(w, p, Metadata(p.metadata, thread, error), e.now);
    case _ =>
  }

  ghost predicate Inv(s: State) {
    && Good(s.world)
    && (s.receiving.Some? ==> Relies(s.world, s.receiving.value.params, s.receiving.value.phase))
    && (forall id <- s.sending :: Bound(s.world.bindings, s.sending[id].agent, s.sending[id].context))
  }

  lemma ActBinds(app: App, w: World, p: Params, phase: Phase, e: Answers)
    requires !phase.Done?
    ensures Keeps(w.bindings, Act(app, w, p, phase, e).0.bindings)
  {
    if phase.BindThread? {
      BindKeeps(w.bindings, p.agent, p.context, phase.thread, "", e.now);
    }
  }

  lemma ProceedKeeps(app: App, s: State, e: Answers)
    requires Inv(s) && s.receiving.Some?
    ensures Inv(DoProceed(app, s, e)) && Keeps(s.world.bindings, DoProceed(app, s, e).world.bindings)
  {
    var r := s.receiving.value;
    if !r.phase.Done? {
      ActKeeps(app, s.world, r.params, r.phase, e);
      ActBinds(app, s.world, r.params, r.phase, e);
    }
  }

  /** A quiet change of the world that keeps it good keeps the whole invariant. */
  lemma QuietKeeps(s: State, w': World)
    requires Inv(s) && Good(w') && Quiet(s.world, w')
    ensures Inv(s.(world := w'))
  {
    if s.receiving.Some? {
      Stable(s.world, w', s.receiving.value.params, s.receiving.value.phase);
    }
  }

  lemma BindStep(s: State, agent: string, context: string, thread: string, lastTurn: string, now: int)
    requires Inv(s) && thread != ""
    ensures var b := Bind(s.world.bindings, agent, context, thread, lastTurn, now);
            Inv(s.(world := s.world.(bindings := b))) && Bound(b, agent, context) && Keeps(s.world.bindings, b)
  {
    BindGood(s.world, agent, context, thread, lastTurn, now);
    QuietKeeps(s, s.world.(bindings := Bind(s.world.bindings, agent, context, thread, lastTurn, now)));
  }

  lemma SendPutKeeps(s: State, id: nat, message: string, target: string, body: string, task: string, state: string, metadata: Metadata, now: int)
    requires Inv(s) && id in s.sending
    ensures Inv(DoSendPut(s, id, message, target, body, task, state, metadata, now))
  {
    var sending := s.sending[id];
    var key := Key(sending.agent, message);
    PutRows(s.world.rows, key, sending.context, target, body, "outbound", state, task, "", now, metadata);
    var rows := Put(s.world.rows, key, sending.context, target, body, "outbound", state, task, "", now, metadata);
    RowsGood(s.world, rows, key);
    var w' := s.world.(rows := rows);
    assert forall k <- s.world.rows :: Moves(s.world, w', k);
    QuietKeeps(s, w');
  }

  /** A known message is listed under its recorded context, or under one that has its thread. */
  predicate InPlace(s: State, a: Action) {
    a.Sync? && Key(a.agent, a.message) in s.world.rows ==> a.context == s.world.rows[Key(a.agent, a.message)].context || Bound(s.world.bindings, a.agent, a.context)
  }

  predicate AllInPlace(app: App, actions: seq<Action>) { forall k :: 0 <= k < |actions| ==> InPlace(Run(app, actions[..k]), actions[k]) }

  lemma FrontInPlace(app: App, actions: seq<Action>)
    requires actions != [] && AllInPlace(app, actions)
    ensures AllInPlace(app, actions[..|actions| - 1]) && InPlace(Run(app, actions[..|actions| - 1]), actions[|actions| - 1])
  {
    var front := actions[..|actions| - 1];
    assert forall k :: 0 <= k < |front| ==> front[..k] == actions[..k];
  }

  lemma SyncKeeps(s: State, key: Key, context: string, remote: string, body: string, task: string, state: string, metadata: Metadata, received: int)
    requires Inv(s) && (key in s.world.rows ==> context == s.world.rows[key].context || Bound(s.world.bindings, key.agent, context))
    ensures Inv(s.(world := Listing(s.world, key, context, remote, body, task, state, metadata, received)))
  {
    var w' := Listing(s.world, key, context, remote, body, task, state, metadata, received);
    PutRows(s.world.rows, key, context, remote, body, "inbound", if state == "" then "unread" else state, task, "", received, metadata);
    if HasInjected(s.world, key) { assert Settled(s.world, key); }
    RowsGood(s.world, w'.rows, key);
    assert forall k <- s.world.rows :: Moves(s.world, w', k);
    QuietKeeps(s, w');
  }

  lemma MarkKeeps(s: State, agent: string, messages: seq<string>, thread: string, now: int)
    requires Inv(s)
    ensures Inv(s.(world := s.world.(rows := MarkAll(s.world.rows, agent, messages, thread, now))))
  {
    var w := s.world;
    var w' := w.(rows := MarkAll(w.rows, agent, messages, thread, now));
    assert forall k <- w.rows :: Moves(w, w', k);
    forall i | 0 <= i < |w.injected| ensures Settled(w', Key(w.injected[i].agent, w.injected[i].message)) {
      assert Settled(w, Key(w.injected[i].agent, w.injected[i].message));
    }
    QuietKeeps(s, w');
  }

  lemma SendBindKeeps(s: State, id: nat, agent: string, context: string, thread: string, lastTurn: string, now: int)
    requires Inv(s) && thread != ""
    ensures Inv(s.(world := s.world.(bindings := Bind(s.world.bindings, agent, context, thread, lastTurn, now)), sending := s.sending[id := Sending(agent, context)]))
  {
    BindStep(s, agent, context, thread, lastTurn, now);
  }

  lemma StepKeeps(app: App, s: State, a: Action)
    requires Inv(s) && InPlace(s, a)
    ensures Inv(Step(app, s, a))
  {
    if Enabled(s, a) {
      match a
      case Proceed(e) => ProceedKeeps(app, s, e);
      case SendBind(id, agent, context, thread, lastTurn, now) => SendBindKeeps(s, id, agent, context, thread, lastTurn, now);
      case SendPut(id, message, target, body, task, state, metadata, now) => SendPutKeeps(s, id, message, target, body, task, state, metadata, now);
      case AttachBind(agent, context, thread, lastTurn, now) => BindStep(s, agent, context, thread, lastTurn, now);
      case MarkAttached(agent, messages, thread, now) => MarkKeeps(s, agent, messages, thread, now);
      case Sync(agent, message, context, remote, body, task, state, metadata, received) =>
        SyncKeeps(s, Key(agent, message), context, remote, body, task, state, metadata, received);
      case _ =>
    }
  }

  /** A receive that is about to bind has a thread to bind. */
  predicate HasThread(s: State) { s.receiving.Some? && s.receiving.value.phase.BindThread? ==> s.receiving.value.phase.thread != "" }

  lemma ProceedWellBound(app: App, s: State, e: Answers)
    requires WellBound(s.world.bindings) && HasThread(s) && s.receiving.Some?
    ensures WellBound(DoProceed(app, s, e).world.bindings) && HasThread(DoProceed(app, s, e))
  {
    var r := s.receiving.value;
    if r.phase.BindThread? { BindKeepsWellBound(s.world.bindings, r.params.agent, r.params.context, r.phase.thread, "", e.now); }
  }

  lemma StepWellBound(app: App, s: State, a: Action)
    requires WellBound(s.world.bindings) && HasThread(s)
    ensures WellBound(Step(app, s, a).world.bindings) && HasThread(Step(app, s, a))
  {
    if Enabled(s, a) {
      match a
      case Proceed(e) => ProceedWellBound(app, s, e);
      case SendBind(id, agent, context, thread, lastTurn, now) => BindKeepsWellBound(s.world.bindings, agent, context, thread, lastTurn, now);
      case AttachBind(agent, context, thread, lastTurn, now) => BindKeepsWellBound(s.world.bindings, agent, context, thread, lastTurn, now);
      case _ =>
    }
  }

  lemma StepBinds(app: App, s: State, a: Action)
    ensures Remembers(s.world.bindings, Step(app, s, a).world.bindings)
  {
    if Enabled(s, a) {
      match a
      case Proceed(e) =>
        var r := s.receiving.value;
        if !r.phase.Done? { ActBinds(app, s.world, r.params, r.phase, e); }
      case SendBind(id, agent, context, thread, lastTurn, now) => BindRows(s.world.bindings, agent, context, thread, lastTurn, now);
      case AttachBind(agent, context, thread, lastTurn, now) => BindRows(s.world.bindings, agent, context, thread, lastTurn, now);
      case _ =>
    }
  }

  lemma {:induction false} RunKeeps(app: App, actions: seq<Action>)
    requires AllInPlace(app, actions)
    ensures Inv(Run(app, actions))
    decreases actions
  {
    if actions != [] {
      FrontInPlace(app, actions);
      RunKeeps(app, actions[..|actions| - 1]);
      StepKeeps(app, Run(app, actions[..|actions| - 1]), actions[|actions| - 1]);
    }
  }

  // ---- main results ----

  lemma RemembersThrough(b: seq<Binding>, b': seq<Binding>, b'': seq<Binding>)
    requires Remembers(b, b') && Remembers(b', b'')
    ensures Remembers(b, b'')
  {
  }

  /** In every run each (agent, context) has at most one active binding, and no row of an earlier
      state is ever lost, moved or given another thread. */
  lemma {:induction false} OneActiveBinding(app: App, actions: seq<Action>, k: nat)
    requires k <= |actions|
    ensures WellBound(Run(app, actions).world.bindings) && HasThread(Run(app, actions))
    ensures Remembers(Run(app, actions[..k]).world.bindings, Run(app, actions).world.bindings)
    decreases actions
  {
    if actions != [] && k == |actions| {
      OneActiveBinding(app, actions[..k - 1], k - 1);
      StepWellBound(app, Run(app, actions[..k - 1]), actions[k - 1]);
      assert actions[..k] == actions;
    } else if actions != [] {
      var front := actions[..|actions| - 1];
      assert front[..k] == actions[..k];
      OneActiveBinding(app, front, k);
      StepWellBound(app, Run(app, front), actions[|actions| - 1]);
      StepBinds(app, Run(app, front), actions[|actions| - 1]);
      RemembersThrough(Run(app, actions[..k]).world.bindings, Run(app, front).world.bindings, Run(app, actions).world.bindings);
    }
  }

  /** In every run, crashes included, in which the daemon lists known messages in place, the receive
      path hands each (agent, message) to the app-server at most once, always after its row is stored
      and on a thread recorded for its context; and it starts and binds at most one thread per
      (agent, context). */
  lemma AtMostOnce(app: App, actions: seq<Action>)
    requires AllInPlace(app, actions)
    ensures Once(Run(app, actions).world) && Anchored(Run(app, actions).world)
  {
    RunKeeps(app, actions);
  }

  // ---- a receive that nothing interrupts ----

  function Drive(app: App, w: World, p: Params, phase: Phase, e: Answers): (World, Reply)
    decreases phase.Left()
  {
    if phase.Done? then (w, phase.reply)
    else
      var (w', phase') := Act(app, w, p, phase, e);
      Drive(app, w', p, phase', e)
  }

  predicate ActiveIs(w: World, p: Params, thread: string) {
    Bound(w.bindings, p.agent, p.context) && ActiveThread(w.bindings, p.agent, p.context) == thread
  }

  predicate RowIs(w: World, p: Params) {
    KeyOf(p) in w.rows && var row := w.rows[KeyOf(p)]; row.context == p.context && row.remote == p.remote && row.body == p.body && row.task == p.Task()
  }

  /** A thread the receive works with is the active one of its context. */
  predicate Ready(w: World, p: Params, phase: Phase) {
    match phase
    case Attach(thread) => ActiveIs(w, p, thread)
    case Record(thread, _) => thread != "" ==> ActiveIs(w, p, thread)
    case Finish(thread, _) => thread != "" ==> ActiveIs(w, p, thread) && RowIs(w, p)
    case BindThread(thread) => thread != ""
    case Done(Received(_, thread, duplicate, _)) => !duplicate && thread != "" ==> ActiveIs(w, p, thread) && RowIs(w, p)
    case _ => true
  }

  lemma ActReady(app: App, w: World, p: Params, phase: Phase, e: Answers)
    requires WellBound(w.bindings) && p.Complete() && !phase.Done? && Ready(w, p, phase)
    ensures var (w', phase') := Act(app, w, p, phase, e); WellBound(w'.bindings) && Ready(w', p, phase')
  {
    match phase
    case BindThread(thread) =>
      BindActivates(w.bindings, p.agent, p.context, thread, "", e.now);
      BindKeepsWellBound(w.bindings, p.agent, p.context, thread, "", e.now);
    case Record(thread, error) =>
      PutRows(w.rows, KeyOf(p), p.context, p.remote, p.body, "inbound", "", p.Task(), "received", e.now, Metadata(p.metadata, thread, error));
    case _ =>
  }

  lemma {:induction false} DriveReady(app: App, w: World, p: Params, phase: Phase, e: Answers)
    requires WellBound(w.bindings) && p.Complete() && Ready(w, p, phase)
    ensures var (w', reply) := Drive(app, w, p, phase, e); Ready(w', p, Done(reply))
    decreases phase.Left()
  {
    if !phase.Done? {
      ActReady(app, w, p, phase, e);
      var (w', phase') := Act(app, w, p, phase, e);
      DriveReady(app, w', p, phase', e);
    }
  }

  lemma KnownMessage(app: App, w: World, p: Params, thread: string, e: Answers)
    requires ActiveIs(w, p, thread) && RowIs(w, p)
    ensures Drive(app, w, p, Look, e) == (w, Received(w.rows[KeyOf(p)], thread, true, ""))
  {
    var item := w.rows[KeyOf(p)];
    assert Found(w, p) == Recheck(item);
    assert Drive(app, w, p, Look, e) == Drive(app, w, p, Recheck(item), e);
    assert Act(app, w, p, Recheck(item), e).1 == Done(Received(item, thread, true, ""));
  }

  /** Once a receive has reported a thread, a retry of the same message changes nothing and reports
      the same thread as a duplicate. */
  lemma RetryIsDuplicate(app: App, w: World, p: Params, e: Answers, e': Answers)
    requires WellBound(w.bindings) && p.Complete()
    requires var reply := Drive(app, w, p, Look, e).1; reply.Received? && !reply.duplicate && reply.thread != ""
    ensures var (w', reply) := Drive(app, w, p, Look, e);
            KeyOf(p) in w'.rows && Drive(app, w', p, Look, e') == (w', Received(w'.rows[KeyOf(p)], reply.thread, true, ""))
  {
    DriveReady(app, w, p, Look, e);
    var (w', reply) := Drive(app, w, p, Look, e);
    KnownMessage(app, w', p, reply.thread, e');
  }
}
