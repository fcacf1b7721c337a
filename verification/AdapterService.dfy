/** The Codex adapter's objects as they run: MailboxStore of storage.py and AdapterService of
    service.py in adapters/snw-agent-link-codex/snw_agent_link_codex. */
module AdapterService {
  import opened Text
  import opened Adapter

  class MailboxStore {
    var bindings: seq<Binding>
    var rows: map<Key, Item>

    constructor ()
      ensures bindings == [] && rows == map[]
    {
      bindings := [];
      rows := map[];
    }

    method BindContext(agent: string, context: string, thread: string, lastTurn: string, now: int) returns (ok: bool)
      modifies this`bindings
      ensures ok <==> agent != "" && context != "" && thread != ""
      ensures bindings == if ok then Bind(old(bindings), agent, context, thread, lastTurn, now) else old(bindings)
      ensures old(WellBound(bindings)) && ok ==> WellBound(bindings) && Bound(bindings, agent, context) && ActiveThread(bindings, agent, context) == thread
    {
      if agent == "" || context == "" || thread == "" {
        return false;
      }
      ghost var was := bindings;
      bindings := RetireAll(bindings, agent, context, now);
      var i := RowOf(bindings, agent, context, thread);
      if i < |bindings| {
        bindings := bindings[i := bindings[i].(lastTurn := lastTurn, active := true, updatedAt := now)];
      } else {
        bindings := bindings + [Binding(agent, context, thread, lastTurn, true, now, now)];
      }
      if WellBound(was) {
        BindKeepsWellBound(was, agent, context, thread, lastTurn, now);
        BindActivates(was, agent, context, thread, lastTurn, now);
      }
      return true;
    }

    /** With the table's constraints in force the answer is the only active row. */
    method ActiveBinding(agent: string, context: string) returns (r: Option<Binding>)
      ensures r.None? <==> forall i :: 0 <= i < |bindings| ==> !(bindings[i].For(agent, context) && bindings[i].active)
      ensures r.Some? ==> r.value in bindings && r.value.For(agent, context) && r.value.active
      ensures r.Some? && WellBound(bindings) ==> forall i :: 0 <= i < |bindings| && bindings[i].For(agent, context) && bindings[i].active ==> bindings[i] == r.value
    {
      var i := ActiveRow(bindings, agent, context);
      return if i < |bindings| then Some(bindings[i]) else None;
    }

    /** The rows of a context, in id order. */
    method BindingHistory(agent: string, context: string) returns (history: seq<Binding>)
      ensures history == History(bindings, agent, context)
    {
      history := [];
      assert bindings[..0] == [];
      for i := 0 to |bindings|
        invariant history == History(bindings[..i], agent, context)
      {
        assert bindings[..i + 1][..i] == bindings[..i];
        if bindings[i].For(agent, context) {
          history := history + [bindings[i]];
        }
      }
      assert bindings[..|bindings|] == bindings;
    }

    method PutMailboxItem(key: Key, context: string, remote: string, body: string, direction: string, state: string, task: string, taskState: string,
                          received: int, metadata: Metadata) returns (ok: bool)
      modifies this`rows
      ensures ok <==> key.agent != "" && key.message != "" && context != ""
      ensures rows == if ok then Put(old(rows), key, context, remote, body, direction, state, task, taskState, received, metadata) else old(rows)
    {
      if key.agent == "" || key.message == "" || context == "" {
        return false;
      }
      var itemState := state;
      if itemState == "" {
        itemState := if direction == "inbound" then "unread" else "sent";
      }
      var itemTaskState := taskState;
      if itemTaskState == "" {
        itemTaskState := if direction == "inbound" then "received" else itemState;
      }
      if key in rows {
        var row := rows[key];
        rows := rows[key := row.(context := context, remote := remote, body := body, metadata := metadata,
                                 task := if task == "" then row.task else task, taskState := itemTaskState)];
      } else {
        rows := rows[key := Item(context, remote, direction, body, metadata, itemState, task, itemTaskState, received, None, "", None)];
      }
      return true;
    }

    /** The transaction rolls back when a message is missing. */
    method MarkAttached(agent: string, messages: seq<string>, thread: string, now: int) returns (ok: bool)
      modifies this`rows
      ensures ok <==> messages != [] && forall m <- messages :: Key(agent, m) in old(rows)
      ensures rows == if messages == [] then old(rows) else MarkAll(old(rows), agent, messages, thread, now)
    {
      if messages == [] {
        return false;
      }
      var before := rows;
      for i := 0 to |messages|
        invariant before == old(rows) && rows == MarkAll(before, agent, messages[..i], thread, now)
        invariant forall m <- messages[..i] :: Key(agent, m) in before
      {
        var key := Key(agent, messages[i]);
        if key !in rows {
          rows := before;
          return false;
        }
        MarkOneMore(before, agent, messages[..i], messages[i], thread, now);
        rows := rows[key := Marked(rows[key], thread, now)];
        assert messages[..i + 1] == messages[..i] + [messages[i]];
      }
      assert messages[..|messages|] == messages;
      return true;
    }
  }

  lemma MarkOneMore(rows: map<Key, Item>, agent: string, messages: seq<string>, message: string, thread: string, now: int)
    requires Key(agent, message) in rows && forall m <- messages :: Key(agent, m) in rows
    ensures var marked := MarkAll(rows, agent, messages, thread, now);
            MarkAll(rows, agent, messages + [message], thread, now) == marked[Key(agent, message) := Marked(marked[Key(agent, message)], thread, now)]
  {
  }

  function History(b: seq<Binding>, agent: string, context: string): seq<Binding> {
    if b == [] then []
    else
      var last := b[|b| - 1];
      History(b[..|b| - 1], agent, context) + if last.For(agent, context) then [last] else []
  }

  /** A history is the rows of its context, in order: row by row, and joined as the tables are. */
  lemma {:induction false} HistoryExactly(b: seq<Binding>, b': seq<Binding>, row: Binding, agent: string, context: string)
    ensures History([], agent, context) == []
    ensures History([row], agent, context) == if row.agent == agent && row.context == context then [row] else []
    ensures History(b + b', agent, context) == History(b, agent, context) + History(b', agent, context)
    decreases b'
  {
    assert [row][..0] == [];
    if b' == [] {
      assert b + b' == b;
    } else {
      var n := |b'| - 1;
      HistoryExactly(b, b'[..n], row, agent, context);
      assert (b + b')[..|b + b'| - 1] == b + b'[..n];
    }
  }

  /** A context's history never shrinks: its threads, in order, are kept and only followed by others. */
  lemma {:induction false} HistoryGrows(b: seq<Binding>, b': seq<Binding>, agent: string, context: string)
    requires Remembers(b, b')
    ensures Threads(History(b, agent, context)) <= Threads(History(b', agent, context))
    decreases b'
  {
    if |b| == |b'| {
      SameHistory(b, b', agent, context);
    } else {
      HistoryGrows(b, b'[..|b'| - 1], agent, context);
      ThreadsAppend(History(b'[..|b'| - 1], agent, context), b'[|b'| - 1]);
    }
  }

  function Threads(b: seq<Binding>): seq<string> { seq(|b|, i requires 0 <= i < |b| => b[i].thread) }

  lemma ThreadsAppend(b: seq<Binding>, row: Binding)
    ensures Threads(b + [row]) == Threads(b) + [row.thread] && Threads(b + []) == Threads(b)
  {
    assert b + [] == b;
  }

  lemma {:induction false} SameHistory(b: seq<Binding>, b': seq<Binding>, agent: string, context: string)
    requires Remembers(b, b') && |b| == |b'|
    ensures Threads(History(b, agent, context)) == Threads(History(b', agent, context))
    decreases b
  {
    if b != [] {
      SameHistory(b[..|b| - 1], b'[..|b'| - 1], agent, context);
      ThreadsAppend(History(b[..|b| - 1], agent, context), b[|b| - 1]);
      ThreadsAppend(History(b'[..|b'| - 1], agent, context), b'[|b'| - 1]);
    }
  }

  /** In every run a context's list of threads only grows at its end. */
  lemma HistoryKept(app: App, actions: seq<Action>, k: nat, agent: string, context: string)
    requires k <= |actions|
    ensures Threads(History(Run(app, actions[..k]).world.bindings, agent, context)) <= Threads(History(Run(app, actions).world.bindings, agent, context))
  {
    OneActiveBinding(app, actions, k);
    HistoryGrows(Run(app, actions[..k]).world.bindings, Run(app, actions).world.bindings, agent, context);
  }

  /** The bindings attach_inbox makes, item by item. */
  function BindItems(b: seq<Binding>, items: seq<Injection>, lastTurn: string, now: int): seq<Binding> {
    if items == [] then b
    else
      var last := items[|items| - 1];
      Bind(BindItems(b, items[..|items| - 1], lastTurn, now), last.agent, last.context, last.thread, lastTurn, now)
  }

  /** What a receive does once it knows whether it has a thread. */
  function Conclusion(app: App, thread: string, error: string): Phase {
    if thread != "" then AfterThread(app, thread) else if error != "" then Record("", error) else Finish("", "")
  }

  /** Rows have names: what put_mailbox_item and bind_context ask for. */
  predicate Named(rows: map<Key, Item>) { forall k <- rows :: k.agent != "" && k.message != "" && rows[k].context != "" }

  lemma {:induction false} BindItemsWellBound(b: seq<Binding>, items: seq<Injection>, lastTurn: string, now: int)
    requires WellBound(b) && forall i :: 0 <= i < |items| ==> items[i].thread != ""
    ensures WellBound(BindItems(b, items, lastTurn, now))
    decreases items
  {
    if items != [] {
      var front, last := items[..|items| - 1], items[|items| - 1];
      BindItemsWellBound(b, front, lastTurn, now);
      BindKeepsWellBound(BindItems(b, front, lastTurn, now), last.agent, last.context, last.thread, lastTurn, now);
    }
  }

  lemma BindOneMore(b: seq<Binding>, items: seq<Injection>, i: nat, lastTurn: string, now: int)
    requires i < |items|
    ensures BindItems(b, items[..i + 1], lastTurn, now) ==
            Bind(BindItems(b, items[..i], lastTurn, now), items[i].agent, items[i].context, items[i].thread, lastTurn, now)
  {
    assert items[..i + 1][..i] == items[..i];
  }

  /** What attach_inbox hands to the app-server. */
  function Handed(rows: map<Key, Item>, agent: string, messages: seq<string>, thread: string): seq<Injection>
    requires forall m <- messages :: Key(agent, m) in rows
  {
    seq(|messages|, i requires 0 <= i < |messages| =>
      var item := rows[Key(agent, messages[i])];
      Injection(agent, messages[i], item.context, thread, item.remote, item.body))
  }

  /** AdapterService over its store. `injected` and `selfStarted` are what the receive path has handed
      to the app-server and the threads it has started; `handed` is what attach_inbox has handed over. */
  class Service {
    const app: App
    const store: MailboxStore
    var injected: seq<Injection>
    var selfStarted: seq<Self>
    var handed: seq<Injection>

    ghost function Whole(): World
      reads this, store
    {
      World(store.bindings, store.rows, injected, selfStarted)
    }

    ghost predicate Valid()
      reads store
    {
      WellBound(store.bindings) && Named(store.rows)
    }

    constructor (app: App)
      ensures Valid() && Whole() == INITIAL.world && handed == [] && this.app == app && fresh(store)
    {
      this.app := app;
      store := new MailboxStore();
      injected, selfStarted, handed := [], [], [];
    }

    method StoreRow(p: Params, metadata: Metadata, now: int)
      requires Valid() && p.Complete()
      modifies store`rows
      ensures Valid() && Whole() == Stored(old(Whole()), p, metadata, now)
    {
      var ok := store.PutMailboxItem(KeyOf(p), p.context, p.remote, p.body, "inbound", "", p.Task(), "received", now, metadata);
    }

    /** receive_message with nothing interleaved. */
    method ReceiveMessage(p: Params, e: Answers) returns (reply: Reply)
      requires Valid() && MayFind(store.rows, p.agent, p.Task(), e.pick)
      modifies this`injected, this`selfStarted, store
      ensures Valid()
      ensures (Whole(), reply) == if p.Complete() then Drive(app, old(Whole()), p, Look, e) else (old(Whole()), Refused)
    {
      if p.context == "" || p.message == "" || p.agent == "" || p.remote == "" {
        return Refused;
      }
      ghost var end := Drive(app, Whole(), p, Look, e);
      if KeyOf(p) in store.rows {
        var existing := store.rows[KeyOf(p)];
        if existing.context != p.context || existing.remote != p.remote || existing.body != p.body {
          return Refused;
        }
        if existing.task != "" && existing.task != p.Task() {
          return Refused;
        }
        assert end == Drive(app, Whole(), p, Recheck(existing), e);
        var binding := store.ActiveBinding(p.agent, p.context);
        if binding.Some? {
          reply := Received(existing, binding.value.thread, true, "");
          assert end == Drive(app, Whole(), p, Done(reply), e);
          return;
        }
      }
      assert end == Drive(app, Whole(), p, CheckTask, e);
      if HasTask(store.rows, p.agent, p.Task()) && e.pick != p.message {
        return Refused;
      }
      assert end == Drive(app, Whole(), p, Save, e);
      reply := FinishReceive(p, e);
    }

    /** From the first put to a thread. */
    method FinishReceive(p: Params, e: Answers) returns (reply: Reply)
      requires Valid() && p.Complete()
      modifies this`injected, this`selfStarted, store
      ensures (Whole(), reply) == Drive(app, old(Whole()), p, Save, e) && Valid()
    {
      ghost var end := Drive(app, Whole(), p, Save, e);
      StoreRow(p, Metadata(p.metadata, "", ""), e.now);
      assert end == Drive(app, Whole(), p, ReadBinding, e);
      var thread, attachError := "", "";
      var binding := store.ActiveBinding(p.agent, p.context);
      if binding.Some? {
        thread := binding.value.thread;
      }
      if thread == "" && app != NoApp {
        assert end == Drive(app, Whole(), p, Start, e);
        if e.started == Raised {
          return Failed;
        }
        thread, attachError := StartThread(p, e);
      }
      assert end == Drive(app, Whole(), p, Conclusion(app, thread, attachError), e);
      reply := Conclude(p, thread, attachError, e);
    }

    /** The app-server has answered with a thread id, which may be empty. */
    method StartThread(p: Params, e: Answers) returns (thread: string, attachError: string)
      requires Valid() && p.Complete() && e.started.Returned?
      modifies this`selfStarted, store`bindings
      ensures Drive(app, old(Whole()), p, Start, e) == Drive(app, Whole(), p, Conclusion(app, thread, attachError), e)
      ensures Valid() && (thread == "" <==> attachError != "")
    {
      ghost var end := Drive(app, Whole(), p, Start, e);
      thread, attachError := e.started.thread, "";
      if thread == "" {
        attachError := NO_THREAD;
      } else {
        assert end == Drive(app, Whole(), p, BindThread(thread), e);
        var ok := store.BindContext(p.agent, p.context, thread, "", e.now);
        selfStarted := selfStarted + [Self(p.agent, p.context, thread)];
      }
    }

    /** From the thread, if there is one, to the reply. */
    method Conclude(p: Params, thread: string, startError: string, e: Answers) returns (reply: Reply)
      requires Valid() && p.Complete() && (thread != "" ==> startError == "")
      modifies this`injected, store`rows
      ensures Valid()
      ensures (Whole(), reply) == Drive(app, old(Whole()), p, Conclusion(app, thread, startError), e)
    {
      ghost var end := Drive(app, Whole(), p, Conclusion(app, thread, startError), e);
      var attachError := startError;
      if thread != "" && app == WithMessages {
        injected := injected + [Injection(p.agent, p.message, p.context, thread, p.remote, p.body)];
        attachError := e.attachError;
      }
      if thread != "" || attachError != "" {
        assert end == Drive(app, Whole(), p, Record(thread, attachError), e);
        StoreRow(p, Metadata(p.metadata, thread, attachError), e.now);
      }
      assert end == Drive(app, Whole(), p, Finish(thread, attachError), e);
      if KeyOf(p) !in store.rows {
        return Failed;
      }
      reply := Received(store.rows[KeyOf(p)], thread, false, attachError);
      assert end == Drive(app, Whole(), p, Done(reply), e);
    }

    /** attach_inbox, once the caller's session handle has given a thread. The app-server raises at
        the item number `raises`, if there is one: items before it have been handed over and bound,
        and no message is marked. */
    method AttachInbox(agent: string, messages: seq<string>, thread: string, lastTurn: string, now: int, raises: nat) returns (ok: bool)
      requires Valid() && thread != ""
      modifies this`handed, store
      ensures Valid() && injected == old(injected) && selfStarted == old(selfStarted)
      ensures ok <==> messages != [] && raises >= |messages| && forall m <- messages :: Key(agent, m) in old(store.rows)
      ensures if messages == [] || exists m <- messages :: Key(agent, m) !in old(store.rows)
              then Whole() == old(Whole()) && handed == old(handed)
              else
                var done := messages[..if raises < |messages| then raises else |messages|];
                && (forall m <- done :: Key(agent, m) in old(store.rows))
                && handed == old(handed) + Handed(old(store.rows), agent, done, thread)
                && store.bindings == BindItems(old(store.bindings), Handed(old(store.rows), agent, done, thread), lastTurn, now)
                && store.rows == if ok then MarkAll(old(store.rows), agent, messages, thread, now) else old(store.rows)
    {
      if messages == [] || exists m <- messages :: Key(agent, m) !in store.rows {
        return false;
      }
      var n := if raises < |messages| then raises else |messages|;
      var items := Handed(store.rows, agent, messages[..n], thread);
      BindItemsWellBound(store.bindings, items, lastTurn, now);
      AttachItems(items, lastTurn, now);
      if raises < |messages| {
        return false;
      }
      ok := store.MarkAttached(agent, messages, thread, now);
      assert messages[..n] == messages;
    }

    /** One round of attach_inbox: hand over, then bind. */
    method AttachOne(item: Injection, lastTurn: string, now: int)
      requires item.agent != "" && item.context != "" && item.thread != ""
      modifies this`handed, store`bindings
      ensures handed == old(handed) + [item]
      ensures store.bindings == Bind(old(store.bindings), item.agent, item.context, item.thread, lastTurn, now)
    {
      handed := handed + [item];
      var ok := store.BindContext(item.agent, item.context, item.thread, lastTurn, now);
    }

    /** The loop of attach_inbox. */
    method AttachItems(items: seq<Injection>, lastTurn: string, now: int)
      requires forall item <- items :: item.agent != "" && item.context != "" && item.thread != ""
      modifies this`handed, store`bindings
      ensures handed == old(handed) + items
      ensures store.bindings == BindItems(old(store.bindings), items, lastTurn, now)
    {
      for i := 0 to |items|
        invariant handed == old(handed) + items[..i]
        invariant store.bindings == BindItems(old(store.bindings), items[..i], lastTurn, now)
      {
        BindOneMore(old(store.bindings), items, i, lastTurn, now);
        assert items[..i + 1] == items[..i] + [items[i]];
        AttachOne(items[i], lastTurn, now);
      }
      assert items[..|items|] == items;
    }
  }
}
