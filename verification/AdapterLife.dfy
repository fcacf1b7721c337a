/** What one receive_message of adapters/snw-agent-link-codex/snw_agent_link_codex/service.py does from
    start to end when nothing interrupts it, and what the store calls of storage.py leave. */
module AdapterLife {
  import opened Text
  import opened Adapter

  // ---- store calls ----

  /** After bind_context the row bound is active and carries the given turn and time; the row of the same
      context that was active before is retired at that time; every other row is as it was. */
  lemma BindExactly(b: seq<Binding>, agent: string, context: string, thread: string, lastTurn: string, now: int)
    requires WellBound(b)
    ensures var b' := Bind(b, agent, context, thread, lastTurn, now);
            && |b| <= |b'| <= |b| + 1
            && (forall i :: 0 <= i < |b| ==>
                  b'[i] == if b[i].agent != agent || b[i].context != context then b[i]
                           else if b[i].thread == thread then Binding(agent, context, thread, lastTurn, true, b[i].createdAt, now)
                           else if b[i].active then b[i].(active := false, updatedAt := now) else b[i])
            && (|b'| == |b| <==> exists i :: 0 <= i < |b| && b[i].agent == agent && b[i].context == context && b[i].thread == thread)
            && (|b'| == |b| + 1 ==> b'[|b|] == Binding(agent, context, thread, lastTurn, true, now, now))
  {
    SameRow(b, RetireAll(b, agent, context, now), agent, context, thread);
  }

  /** put_mailbox_item writes a new row in full; on a known one it replaces content, metadata and task
      state, and its task id if one is given, and keeps direction, state and times. */
  lemma PutExactly(
    rows: map<Key, Item>, key: Key, context: string, remote: string, body: string, direction: string, state: string, task: string, taskState: string,
    received: int, metadata: Metadata)
    ensures var rows' := Put(rows, key, context, remote, body, direction, state, task, taskState, received, metadata);
            var s := if state == "" then (if direction == "inbound" then "unread" else "sent") else state;
            var t := if taskState == "" then (if direction == "inbound" then "received" else s) else taskState;
            && rows'.Keys == rows.Keys + {key}
            && (forall k <- rows | k != key :: rows'[k] == rows[k])
            && rows'[key] == if key !in rows then Item(context, remote, direction, body, metadata, s, task, t, received, None, "", None)
                             else Item(context, remote, rows[key].direction, body, metadata, rows[key].state, if task == "" then rows[key].task else task, t,
                                       rows[key].received, rows[key].readAt, rows[key].attachedThread, rows[key].attachedAt)
  {
  }

  /** mark_attached marks all the messages named, or none if one is missing; a message read before keeps
      the time it was read. */
  lemma MarkExactly(rows: map<Key, Item>, agent: string, messages: seq<string>, thread: string, now: int)
    ensures var rows' := MarkAll(rows, agent, messages, thread, now);
            && rows'.Keys == rows.Keys
            && forall k <- rows ::
                 rows'[k] == if k.agent == agent && k.message in messages && forall m <- messages :: Key(agent, m) in rows
                             then rows[k].(state := "attached", readAt := Some(if rows[k].readAt.Some? then rows[k].readAt.value else now),
                                           attachedThread := thread, attachedAt := Some(now))
                             else rows[k]
  {
  }

  // ---- a receive from start to end ----

  predicate Known(w: World, p: Params) { Key(p.agent, p.message) in w.rows }

  /** The message id is taken by other content or another task. */
  predicate Clashes(w: World, p: Params) {
    Known(w, p) && var row := w.rows[Key(p.agent, p.message)];
    || row.context != p.context || row.remote != p.remote || row.body != p.body
    || (row.task != "" && row.task != if p.taskId == "" then p.message else p.taskId)
  }

  /** A message received before whose context has its thread. */
  predicate Answered(w: World, p: Params) { Known(w, p) && Bound(w.bindings, p.agent, p.context) }

  /** Another message has this task id, as far as find_task tells. */
  predicate TaskTaken(w: World, p: Params, e: Answers) {
    e.pick != p.message && exists k <- w.rows :: k.agent == p.agent && w.rows[k].task == if p.taskId == "" then p.message else p.taskId
  }

  /** The three ways a receive ends before it writes anything. */
  lemma EndsEarly(app: App, w: World, p: Params, e: Answers)
    ensures Clashes(w, p) ==> Drive(app, w, p, Look, e) == (w, Refused)
    ensures !Clashes(w, p) && Answered(w, p) ==>
              Drive(app, w, p, Look, e) == (w, Received(w.rows[Key(p.agent, p.message)], ActiveThread(w.bindings, p.agent, p.context), true, ""))
    ensures !Clashes(w, p) && !Answered(w, p) && TaskTaken(w, p, e) ==> Drive(app, w, p, Look, e) == (w, Refused)
    ensures !Clashes(w, p) && !Answered(w, p) && !TaskTaken(w, p, e) ==> Drive(app, w, p, Look, e) == Drive(app, w, p, Save, e)
  {
    var phase := Found(w, p);
    assert Drive(app, w, p, Look, e) == Drive(app, w, p, phase, e);
    if phase.Recheck? {
      var next := Act(app, w, p, phase, e).1;
      assert Drive(app, w, p, phase, e) == Drive(app, w, p, next, e);
    }
    if !Clashes(w, p) && !Answered(w, p) {
      assert Drive(app, w, p, CheckTask, e) == Drive(app, w, p, Act(app, w, p, CheckTask, e).1, e);
    }
  }

  /** The message's row after a receive that worked with `thread` ("" if there is none). */
  predicate RowWritten(w: World, w': World, p: Params, thread: string, error: string, now: int) {
    var key := Key(p.agent, p.message);
    && w'.rows.Keys == w.rows.Keys + {key}
    && (forall k <- w.rows | k != key :: w'.rows[k] == w.rows[k])
    && w'.rows[key].context == p.context && w'.rows[key].remote == p.remote && w'.rows[key].body == p.body
    && w'.rows[key].metadata == Metadata(p.metadata, thread, error) && w'.rows[key].taskState == "received"
    && (p.message != "" ==> w'.rows[key].task == if p.taskId == "" then p.message else p.taskId)
    && if key in w.rows then w'.rows[key].direction == w.rows[key].direction && w'.rows[key].state == w.rows[key].state && w'.rows[key].received == w.rows[key].received
       else w'.rows[key].direction == "inbound" && w'.rows[key].state == "unread" && w'.rows[key].received == now
  }

  /** From the binding on: the message is handed to the app-server if it takes messages, recorded with
      the thread, and reported. */
  lemma HandsOver(app: App, w0: World, w: World, p: Params, thread: string, e: Answers)
    requires RowWritten(w0, w, p, "", "", e.now)
    ensures var error := if app == WithMessages then e.attachError else "";
            var (w', reply) := Drive(app, w, p, AfterThread(app, thread), e);
            && RowWritten(w0, w', p, thread, error, e.now) && w'.bindings == w.bindings && w'.selfStarted == w.selfStarted
            && w'.injected == w.injected + (if app == WithMessages then [Injection(p.agent, p.message, p.context, thread, p.remote, p.body)] else [])
            && reply == Received(w'.rows[Key(p.agent, p.message)], thread, false, error)
  {
    var phase := AfterThread(app, thread);
    if app == WithMessages {
      assert Drive(app, w, p, phase, e) == Drive(app, Injected(w, p, thread), p, Record(thread, e.attachError), e);
      Records(app, w0, Injected(w, p, thread), p, thread, e.attachError, e);
    } else {
      Records(app, w0, w, p, thread, "", e);
    }
  }

  lemma Records(app: App, w0: World, w: World, p: Params, thread: string, error: string, e: Answers)
    requires RowWritten(w0, w, p, "", "", e.now)
    ensures var (w', reply) := Drive(app, w, p, Record(thread, error), e);
            && RowWritten(w0, w', p, thread, error, e.now) && w' == w.(rows := w'.rows)
            && reply == Received(w'.rows[Key(p.agent, p.message)], thread, false, error)
  {
    var w' := Stored(w, p, Metadata(p.metadata, thread, error), e.now);
    assert Drive(app, w, p, Record(thread, error), e) == Drive(app, w', p, Finish(thread, error), e);
    assert Drive(app, w', p, Finish(thread, error), e) == (w', Received(w'.rows[KeyOf(p)], thread, false, error));
  }

  lemma Saves(app: App, w: World, p: Params, e: Answers) returns (saved: World)
    requires !Clashes(w, p)
    ensures RowWritten(w, saved, p, "", "", e.now) && saved == w.(rows := saved.rows)
    ensures Drive(app, w, p, Save, e) == Drive(app, saved, p, ReadBinding, e)
  {
    saved := Stored(w, p, Metadata(p.metadata, "", ""), e.now);
  }

  /** A receive of a message not answered before, with a free task, when a thread can be had: on the
      context's active thread if there is one, else on a new thread that it starts and binds. The row
      is stored with that thread, the message is handed over exactly once if the app-server takes
      messages, and nothing else changes. A message whose first receive broke off counts as not
      answered until its context is bound. */
  lemma ReceivesExactly(app: App, w: World, p: Params, e: Answers)
    requires WellBound(w.bindings) && !Clashes(w, p) && !Answered(w, p) && !TaskTaken(w, p, e)
    requires Bound(w.bindings, p.agent, p.context) || (app != NoApp && e.started.Returned? && e.started.thread != "")
    ensures var bound := Bound(w.bindings, p.agent, p.context);
            var thread := if bound then ActiveThread(w.bindings, p.agent, p.context) else e.started.thread;
            var error := if app == WithMessages then e.attachError else "";
            var (w', reply) := Drive(app, w, p, Look, e);
            && RowWritten(w, w', p, thread, error, e.now)
            && Bound(w'.bindings, p.agent, p.context) && ActiveThread(w'.bindings, p.agent, p.context) == thread
            && w'.bindings == (if bound then w.bindings else Bind(w.bindings, p.agent, p.context, thread, "", e.now))
            && w'.selfStarted == w.selfStarted + (if bound then [] else [Self(p.agent, p.context, thread)])
            && w'.injected == w.injected + (if app == WithMessages then [Injection(p.agent, p.message, p.context, thread, p.remote, p.body)] else [])
            && reply == Received(w'.rows[Key(p.agent, p.message)], thread, false, error)
  {
    EndsEarly(app, w, p, e);
    var saved := Saves(app, w, p, e);
    if Bound(w.bindings, p.agent, p.context) {
      assert Drive(app, saved, p, ReadBinding, e) == Drive(app, saved, p, AfterThread(app, ActiveThread(w.bindings, p.agent, p.context)), e);
      HandsOver(app, w, saved, p, ActiveThread(w.bindings, p.agent, p.context), e);
    } else {
      var thread := e.started.thread;
      StartsThread(app, saved, p, thread, e);
      BindActivates(w.bindings, p.agent, p.context, thread, "", e.now);
      HandsOver(app, w, SelfBound(saved, p, thread, e.now), p, thread, e);
    }
  }

  lemma StartsThread(app: App, w: World, p: Params, thread: string, e: Answers)
    requires app != NoApp && !Bound(w.bindings, p.agent, p.context) && e.started == Returned(thread) && thread != ""
    ensures Drive(app, w, p, ReadBinding, e) == Drive(app, SelfBound(w, p, thread, e.now), p, AfterThread(app, thread), e)
  {
    assert Drive(app, w, p, ReadBinding, e) == Drive(app, w, p, Start, e);
    assert Drive(app, w, p, Start, e) == Drive(app, w, p, BindThread(thread), e);
  }

  /** The same receive when no thread can be had: the message is stored all the same, and nothing is
      bound or handed over, so that a later receive can finish the work. */
  lemma StoresAnyway(app: App, w: World, p: Params, e: Answers)
    requires !Clashes(w, p) && !Answered(w, p) && !TaskTaken(w, p, e) && !Bound(w.bindings, p.agent, p.context)
    requires app == NoApp || e.started == Raised || e.started == Returned("")
    ensures var (w', reply) := Drive(app, w, p, Look, e);
            var error := if app != NoApp && e.started.Returned? then NO_THREAD else "";
            && RowWritten(w, w', p, "", error, e.now) && w' == w.(rows := w'.rows)
            && !Clashes(w', p) && !Answered(w', p)
            && reply == if app != NoApp && e.started.Raised? then Failed else Received(w'.rows[Key(p.agent, p.message)], "", false, error)
  {
    EndsEarly(app, w, p, e);
    var saved := Saves(app, w, p, e);
    if app == NoApp {
      assert Drive(app, saved, p, ReadBinding, e) == Drive(app, saved, p, Finish("", ""), e);
      assert Drive(app, saved, p, Finish("", ""), e) == (saved, Received(saved.rows[KeyOf(p)], "", false, ""));
    } else {
      assert Drive(app, saved, p, ReadBinding, e) == Drive(app, saved, p, Start, e);
      if e.started.Returned? {
        assert Drive(app, saved, p, Start, e) == Drive(app, saved, p, Record("", NO_THREAD), e);
        Records(app, w, saved, p, "", NO_THREAD, e);
      }
    }
  }

  // ---- when a message is handed over again ----

  /** Which receives hand a message over. */
  lemma InjectsExactly(app: App, w: World, p: Params, e: Answers)
    requires WellBound(w.bindings)
    ensures var w' := Drive(app, w, p, Look, e).0;
            if app == WithMessages && !Clashes(w, p) && !Answered(w, p) && !TaskTaken(w, p, e)
               && (Bound(w.bindings, p.agent, p.context) || (e.started.Returned? && e.started.thread != ""))
            then |w'.injected| == |w.injected| + 1 && w'.injected[..|w.injected|] == w.injected
                 && w'.injected[|w.injected|].agent == p.agent && w'.injected[|w.injected|].message == p.message && w'.injected[|w.injected|].body == p.body
            else w'.injected == w.injected
  {
    EndsEarly(app, w, p, e);
    if !Clashes(w, p) && !Answered(w, p) && !TaskTaken(w, p, e) {
      if Bound(w.bindings, p.agent, p.context) || (app != NoApp && e.started.Returned? && e.started.thread != "") {
        ReceivesExactly(app, w, p, e);
      } else {
        StoresAnyway(app, w, p, e);
      }
    }
  }

  /** Why known messages have to be listed in place. A message that has been handed over and is then
      listed by the daemon under another context is handed over again by a receive in that context
      exactly if the context has no thread yet. */
  lemma MovedIsRepeated(w: World, p: Params, state: string, metadata: Metadata, received: int, e: Answers)
    requires WellBound(w.bindings) && HasInjected(w, Key(p.agent, p.message)) && p.Complete()
    requires e.pick == p.message && e.started.Returned? && e.started.thread != ""
    ensures var listed := Listing(w, Key(p.agent, p.message), p.context, p.remote, p.body, p.Task(), state, metadata, received);
            var w' := Drive(WithMessages, listed, p, Look, e).0;
            (exists i, j :: 0 <= i < j < |w'.injected| && j >= |w.injected|
               && Key(w'.injected[i].agent, w'.injected[i].message) == Key(w'.injected[j].agent, w'.injected[j].message) == Key(p.agent, p.message))
            <==> !Bound(w.bindings, p.agent, p.context)
  {
    var listed := Listing(w, Key(p.agent, p.message), p.context, p.remote, p.body, p.Task(), state, metadata, received);
    InjectsExactly(WithMessages, listed, p, e);
    var w' := Drive(WithMessages, listed, p, Look, e).0;
    var i :| 0 <= i < |w.injected| && Key(w.injected[i].agent, w.injected[i].message) == Key(p.agent, p.message);
    if !Bound(w.bindings, p.agent, p.context) {
      var n := |w.injected|;
      assert !Clashes(listed, p) && !Answered(listed, p) && !TaskTaken(listed, p, e);
      assert w'.injected[i] == w'.injected[..n][i];
      assert i < n && Key(w'.injected[i].agent, w'.injected[i].message) == Key(w'.injected[n].agent, w'.injected[n].message);
    }
  }

  // ---- in runs ----

  /** The app-server's answers, n times over. */
  function Steps(e: Answers, n: nat): seq<Action> { seq(n, _ => Proceed(e)) }

  lemma RunMore(app: App, actions: seq<Action>, a: Action)
    ensures Run(app, actions + [a]) == Step(app, Run(app, actions), a)
  {
    assert (actions + [a])[..|actions|] == actions;
  }

  /** What find_task may answer, as long as the receive has not written yet. */
  predicate PickFits(w: World, p: Params, phase: Phase, e: Answers) {
    phase.Look? || phase.Recheck? || phase.CheckTask? ==> MayFind(w.rows, p.agent, p.Task(), e.pick)
  }

  lemma {:induction false} ReceiveGoesOn(app: App, actions: seq<Action>, p: Params, phase: Phase, e: Answers) returns (n: nat)
    requires Run(app, actions).receiving == Some(Receiving(p, phase)) && PickFits(Run(app, actions).world, p, phase, e)
    ensures Run(app, actions + Steps(e, n)) == Run(app, actions).(world := Drive(app, Run(app, actions).world, p, phase, e).0, receiving := None)
    decreases phase.Left()
  {
    RunMore(app, actions, Proceed(e));
    if phase.Done? {
      n := 1;
      assert Steps(e, 1) == [Proceed(e)];
    } else {
      var next := Act(app, Run(app, actions).world, p, phase, e).1;
      var more := ReceiveGoesOn(app, actions + [Proceed(e)], p, next, e);
      n := more + 1;
      assert actions + [Proceed(e)] + Steps(e, more) == actions + Steps(e, n);
    }
  }

  /** At any point of any run at which no receive is under way, a receive that nothing interrupts leaves
      the world as described above, and the lock free. */
  lemma ReceiveRuns(app: App, actions: seq<Action>, p: Params, e: Answers) returns (n: nat)
    requires Run(app, actions).receiving == None && p.Complete() && MayFind(Run(app, actions).world.rows, p.agent, p.Task(), e.pick)
    ensures Run(app, actions + [Receive(p)] + Steps(e, n)) == Run(app, actions).(world := Drive(app, Run(app, actions).world, p, Look, e).0)
  {
    RunMore(app, actions, Receive(p));
    n := ReceiveGoesOn(app, actions + [Receive(p)], p, Look, e);
  }

  /** A send that goes through: its context is bound to the thread, its message is on record as sent, and
      nothing else has changed; one that fails leaves the binding alone. */
  lemma SendRuns(
    app: App, actions: seq<Action>, id: nat, agent: string, context: string, thread: string, lastTurn: string, bound: int,
    message: string, target: string, body: string, task: string, state: string, metadata: Metadata, now: int)
    requires id !in Run(app, actions).sending && agent != "" && context != "" && thread != "" && message != ""
    requires Key(agent, message) !in Run(app, actions).world.rows
    ensures var s := Run(app, actions);
            var front := actions + [SendBind(id, agent, context, thread, lastTurn, bound)];
            var b := Bind(s.world.bindings, agent, context, thread, lastTurn, bound);
            var sent := if state == "" then "sent" else state;
            && Run(app, front + [SendFails(id)]) == s.(world := s.world.(bindings := b))
            && Run(app, front + [SendPut(id, message, target, body, task, state, metadata, now)]) ==
               s.(world := s.world.(bindings := b, rows := s.world.rows[Key(agent, message) := Item(context, target, "outbound", body, metadata, sent, task, sent, now, None, "", None)]))
  {
    var s := Run(app, actions);
    var front := actions + [SendBind(id, agent, context, thread, lastTurn, bound)];
    RunMore(app, actions, SendBind(id, agent, context, thread, lastTurn, bound));
    RunMore(app, front, SendFails(id));
    RunMore(app, front, SendPut(id, message, target, body, task, state, metadata, now));
    assert s.sending[id := Sending(agent, context)] - {id} == s.sending;
  }

  /** The other single calls: an attach binds, marking marks, a sync lists, and a crash loses nothing
      that is stored. */
  lemma CallsTakeEffect(app: App, s: State, agent: string, context: string, thread: string, turn: string, messages: seq<string>, message: string,
                 remote: string, body: string, task: string, state: string, metadata: Metadata, now: int)
    requires agent != "" && context != "" && thread != "" && messages != [] && message != "" && remote != ""
    ensures Step(app, s, AttachBind(agent, context, thread, turn, now)) == s.(world := s.world.(bindings := Bind(s.world.bindings, agent, context, thread, turn, now)))
    ensures Step(app, s, MarkAttached(agent, messages, thread, now)) == s.(world := s.world.(rows := MarkAll(s.world.rows, agent, messages, thread, now)))
    ensures Step(app, s, Crash) == State(s.world, None, map[])
    ensures Key(agent, message) !in s.world.rows ==>
              Step(app, s, Sync(agent, message, context, remote, body, task, state, metadata, now)) ==
              s.(world := s.world.(rows := s.world.rows[Key(agent, message) :=
                Item(context, remote, "inbound", body, metadata, if state == "" then "unread" else state, task, "received", now, None, "", None)]))
  {
  }
}
