/** Inbound deduplication: serveA2AWithDedup of internal/gateway/router.go over the scoped dedup and
    inbox tables. Any number of requests run at once; every store call, and the forward to the local
    agent, is one step, each of them may fail, and the daemon may crash between any two. */
module Dedup {
  import opened Text

  /** (source agent, target agent, message id); the key epoch is constantly 0. */
  datatype Key = Key(source: string, target: string, message: string)

  datatype Response = Response(status: nat, kind: string, body: string)

  datatype Record = Record(task: string, response: Response)

  const NO_RESPONSE := Response(0, "", "")

  /** A stored response is replayed only if it has a status and a body. */
  predicate Replayable(r: Response) { r.status > 0 && r.body != "" }

  datatype Letter = Letter(context: string, body: string)

  datatype Phase =
    | Looking                        // about to look the key up
    | Reserving                      // found nothing, about to insert the reservation
    | Delivering                     // holds the reservation, about to write the inbox row
    | Forwarding                     // inbox row written, about to forward
    | Completing(response: Response) // forwarded, about to store the response
    | Replying(response: Response)   // about to copy the response out

  /** One request. `depth` counts the activations of the function, `failures` its failed look-ups. */
  datatype Thread = Thread(key: Key, letter: Letter, phase: Phase, depth: nat, failures: nat)

  datatype Forward = Forward(key: Key, body: string, response: Response)

  datatype Reply = Working(key: Key, task: string) | Answer(key: Key, response: Response) | Failed(key: Key)

  datatype State = State(records: map<Key, Record>, inbox: map<Key, Letter>, threads: map<nat, Thread>,
                         forwards: seq<Forward>, replies: seq<Reply>)

  const INITIAL := State(map[], map[], map[], [], [])

  datatype Action =
    | Arrive(id: nat, key: Key, letter: Letter)
    | LookUp(id: nat, ok: bool)
    | Reserve(id: nat, ok: bool, task: string)
    | WriteInbox(id: nat, ok: bool)
    | ForwardTo(id: nat, response: Response)
    | Complete(id: nat, ok: bool, task: string)
    | Finish(id: nat)
    | Crash

  function Leave(s: State, id: nat, reply: Reply): State {
    s.(threads := s.threads - {id}, replies := s.replies + [reply])
  }

  function Advance(s: State, id: nat, phase: Phase): State
    requires id in s.threads
  {
    s.(threads := s.threads[id := s.threads[id].(phase := phase)])
  }

  function DoLookUp(s: State, id: nat, ok: bool): State
    requires id in s.threads
  {
    var t := s.threads[id];
    if !ok then s.(threads := s.threads[id := t.(phase := Reserving, failures := t.failures + 1)])
    else if t.key !in s.records then Advance(s, id, Reserving)
    else if Replayable(s.records[t.key].response) then Leave(s, id, Answer(t.key, s.records[t.key].response))
    else Leave(s, id, Working(t.key, s.records[t.key].task))
  }

  /** INSERT OR IGNORE; when the row is already there the function calls itself. */
  function DoReserve(s: State, id: nat, ok: bool, task: string): State
    requires id in s.threads
  {
    var t := s.threads[id];
    if !ok then Leave(s, id, Failed(t.key))
    else if t.key in s.records then s.(threads := s.threads[id := t.(phase := Looking, depth := t.depth + 1)])
    else Advance(s.(records := s.records[t.key := Record(task, NO_RESPONSE)]), id, Delivering)
  }

  function DoWriteInbox(s: State, id: nat, ok: bool): State
    requires id in s.threads
  {
    var t := s.threads[id];
    if !ok then Leave(s, id, Failed(t.key))
    else Advance(s.(inbox := if t.key in s.inbox then s.inbox else s.inbox[t.key := t.letter]), id, Forwarding)
  }

  function DoForward(s: State, id: nat, response: Response): State
    requires id in s.threads
  {
    var t := s.threads[id];
    Advance(s.(forwards := s.forwards + [Forward(t.key, t.letter.body, response)]), id, Completing(response))
  }

  /** The error of this store call is dropped. */
  function DoComplete(s: State, id: nat, ok: bool, task: string): State
    requires id in s.threads && s.threads[id].phase.Completing?
  {
    var t := s.threads[id];
    var records := if ok && t.key in s.records then s.records[t.key := Record(task, t.phase.response)] else s.records;
    Advance(s.(records := records), id, Replying(t.phase.response))
  }

  function Step(s: State, a: Action): State {
    match a
    case Arrive(id, key, letter) =>
      if id in s.threads || key.message == "" then s
      else s.(threads := s.threads[id := Thread(key, letter, Looking, 1, 0)])
    case Crash => s.(threads := map[])
    case LookUp(id, ok) => if id in s.threads && s.threads[id].phase.Looking? then DoLookUp(s, id, ok) else s
    case Reserve(id, ok, task) => if id in s.threads && s.threads[id].phase.Reserving? then DoReserve(s, id, ok, task) else s
    case WriteInbox(id, ok) => if id in s.threads && s.threads[id].phase.Delivering? then DoWriteInbox(s, id, ok) else s
    case ForwardTo(id, response) => if id in s.threads && s.threads[id].phase.Forwarding? then DoForward(s, id, response) else s
    case Complete(id, ok, task) => if id in s.threads && s.threads[id].phase.Completing? then DoComplete(s, id, ok, task) else s
    case Finish(id) =>
      if id in s.threads && s.threads[id].phase.Replying? then Leave(s, id, Answer(s.threads[id].key, s.threads[id].phase.response)) else s
  }

  function Run(actions: seq<Action>): State {
    if actions == [] then INITIAL else Step(Run(actions[..|actions| - 1]), actions[|actions| - 1])
  }

  // ---- what every step keeps ----

  /** The request won the reservation of its key. */
  predicate Owner(t: Thread) { !t.phase.Looking? && !t.phase.Reserving? }

  predicate WasForwarded(s: State, key: Key) { exists i :: 0 <= i < |s.forwards| && s.forwards[i].key == key }

  predicate ForwardedWith(s: State, key: Key, response: Response) {
    exists i :: 0 <= i < |s.forwards| && s.forwards[i].key == key && s.forwards[i].response == response
  }

  predicate OwnersDiffer(s: State) {
    forall a, b :: a in s.threads && b in s.threads && a != b && Owner(s.threads[a]) && Owner(s.threads[b])
      ==> s.threads[a].key != s.threads[b].key
  }

  /** What the phase of a request says about the tables. */
  predicate ThreadFits(s: State, t: Thread) {
    && (Owner(t) ==> t.key in s.records)
    && (t.phase.Delivering? ==> t.key !in s.inbox)
    && (t.phase.Forwarding? ==> t.key in s.inbox && s.inbox[t.key].body == t.letter.body)
    && (t.phase.Delivering? || t.phase.Forwarding? ==> !WasForwarded(s, t.key))
    && (t.phase.Delivering? || t.phase.Forwarding? || t.phase.Completing? ==> s.records[t.key].response == NO_RESPONSE)
    && (t.phase.Completing? || t.phase.Replying? ==> ForwardedWith(s, t.key, t.phase.response))
    && t.depth <= 2 + t.failures
    && (t.phase.Looking? && t.depth > 1 ==> t.key in s.records)
    && (t.phase.Reserving? && t.depth > 1 ==> t.depth <= 1 + t.failures)
  }

  predicate ThreadsFit(s: State) { forall id :: id in s.threads ==> ThreadFits(s, s.threads[id]) }

  predicate TablesFit(s: State) {
    && s.inbox.Keys <= s.records.Keys
    && (forall key :: key in s.records && s.records[key].response != NO_RESPONSE ==> ForwardedWith(s, key, s.records[key].response))
    && (forall i :: 0 <= i < |s.replies| && s.replies[i].Answer? ==> ForwardedWith(s, s.replies[i].key, s.replies[i].response))
  }

  /** No key is forwarded twice, and each forward repeats the body of its inbox row. */
  predicate ForwardsFit(s: State) {
    && (forall i, j :: 0 <= i < j < |s.forwards| ==> s.forwards[i].key != s.forwards[j].key)
    && (forall i :: 0 <= i < |s.forwards| ==>
          s.forwards[i].key in s.records && s.forwards[i].key in s.inbox && s.inbox[s.forwards[i].key].body == s.forwards[i].body)
  }

  predicate Inv(s: State) { OwnersDiffer(s) && ThreadsFit(s) && TablesFit(s) && ForwardsFit(s) }

  /** A step that leaves the tables alone and ends one request with a justified reply. */
  lemma LeaveKeeps(s: State, id: nat, reply: Reply)
    requires Inv(s) && (reply.Answer? ==> ForwardedWith(s, reply.key, reply.response))
    ensures Inv(Leave(s, id, reply))
  {
    var s' := Leave(s, id, reply);
    SameForwards(s, s');
    assert ThreadsFit(s') by {
      forall other | other in s'.threads ensures ThreadFits(s', s'.threads[other]) { assert ThreadFits(s, s.threads[other]); }
    }
  }

  /** A step that leaves the tables alone and moves one request that holds no reservation. */
  lemma RedirectKeeps(s: State, id: nat, t: Thread)
    requires Inv(s) && !Owner(t) && ThreadFits(s, t)
    ensures Inv(s.(threads := s.threads[id := t]))
  {
    var s' := s.(threads := s.threads[id := t]);
    SameForwards(s, s');
    assert ThreadsFit(s') by {
      forall other | other in s'.threads ensures ThreadFits(s', s'.threads[other]) {
        if other != id { assert ThreadFits(s, s.threads[other]); }
      }
    }
  }

  lemma LookUpKeeps(s: State, id: nat, ok: bool)
    requires Inv(s) && id in s.threads && s.threads[id].phase.Looking?
    ensures Inv(DoLookUp(s, id, ok))
  {
    var t := s.threads[id];
    assert ThreadFits(s, t);
    if !ok {
      RedirectKeeps(s, id, t.(phase := Reserving, failures := t.failures + 1));
    } else if t.key !in s.records {
      RedirectKeeps(s, id, t.(phase := Reserving));
    } else if Replayable(s.records[t.key].response) {
      LeaveKeeps(s, id, Answer(t.key, s.records[t.key].response));
    } else {
      LeaveKeeps(s, id, Working(t.key, s.records[t.key].task));
    }
  }

  /** Facts about forwards carry over when the log of forwards is the same. */
  lemma SameForwards(s: State, s': State)
    requires s'.forwards == s.forwards
    ensures forall key :: WasForwarded(s', key) == WasForwarded(s, key)
    ensures forall key, r :: ForwardedWith(s', key, r) == ForwardedWith(s, key, r)
  {
  }

  lemma ReserveKeeps(s: State, id: nat, ok: bool, task: string)
    requires Inv(s) && id in s.threads && s.threads[id].phase.Reserving?
    ensures Inv(DoReserve(s, id, ok, task))
  {
    var t := s.threads[id];
    assert ThreadFits(s, t);
    if !ok {
      LeaveKeeps(s, id, Failed(t.key));
    } else if t.key in s.records {
      RedirectKeeps(s, id, t.(phase := Looking, depth := t.depth + 1));
    } else {
      FirstReservation(s, id, task);
    }
  }

  lemma FirstReservation(s: State, id: nat, task: string)
    requires Inv(s) && id in s.threads && s.threads[id].phase.Reserving? && s.threads[id].key !in s.records
    ensures Inv(DoReserve(s, id, true, task))
  {
    var s' := DoReserve(s, id, true, task);
    SameForwards(s, s');
    forall other | other in s'.threads && other != id
      ensures ThreadFits(s', s'.threads[other])
    {
      assert ThreadFits(s, s.threads[other]);
    }
  }

  lemma WriteInboxKeeps(s: State, id: nat, ok: bool)
    requires Inv(s) && id in s.threads && s.threads[id].phase.Delivering?
    ensures Inv(DoWriteInbox(s, id, ok))
  {
    var s' := DoWriteInbox(s, id, ok);
    SameForwards(s, s');
    assert ThreadFits(s, s.threads[id]);
    forall other | other in s'.threads && other != id
      ensures ThreadFits(s', s'.threads[other])
    {
      assert ThreadFits(s, s.threads[other]);
    }
  }

  lemma ForwardKeeps(s: State, id: nat, response: Response)
    requires Inv(s) && id in s.threads && s.threads[id].phase.Forwarding?
    ensures Inv(DoForward(s, id, response))
  {
    var s' := DoForward(s, id, response);
    var t := s.threads[id];
    assert ThreadFits(s, t);
    MoreForwards(s, s', Forward(t.key, t.letter.body, response));
    forall other | other in s'.threads && other != id
      ensures ThreadFits(s', s'.threads[other])
    {
      assert ThreadFits(s, s.threads[other]);
    }
  }

  lemma MoreForwards(s: State, s': State, f: Forward)
    requires s'.forwards == s.forwards + [f]
    ensures ForwardedWith(s', f.key, f.response)
    ensures forall key :: key != f.key ==> WasForwarded(s', key) == WasForwarded(s, key)
    ensures forall key, r :: ForwardedWith(s, key, r) ==> ForwardedWith(s', key, r)
  {
    assert s'.forwards[|s.forwards|] == f;
    forall key, r | ForwardedWith(s, key, r)
      ensures ForwardedWith(s', key, r)
    {
      var i :| 0 <= i < |s.forwards| && s.forwards[i].key == key && s.forwards[i].response == r;
      assert s'.forwards[i] == s.forwards[i];
    }
    forall key | key != f.key
      ensures WasForwarded(s', key) == WasForwarded(s, key)
    {
      if WasForwarded(s, key) {
        var i :| 0 <= i < |s.forwards| && s.forwards[i].key == key;
        assert s'.forwards[i] == s.forwards[i];
      }
    }
  }

  lemma CompleteKeeps(s: State, id: nat, ok: bool, task: string)
    requires Inv(s) && id in s.threads && s.threads[id].phase.Completing?
    ensures Inv(DoComplete(s, id, ok, task))
  {
    var s' := DoComplete(s, id, ok, task);
    SameForwards(s, s');
    assert ThreadFits(s, s.threads[id]);
    forall other | other in s'.threads && other != id
      ensures ThreadFits(s', s'.threads[other])
    {
      assert ThreadFits(s, s.threads[other]);
    }
  }

  lemma ComeAndGoKeeps(s: State, a: Action)
    requires Inv(s) && (a.Arrive? || a.Crash? || a.Finish?)
    ensures Inv(Step(s, a))
  {
    match a
    case Arrive(id, key, letter) => RedirectKeeps(s, id, Thread(key, letter, Looking, 1, 0));
    case Finish(id) =>
      if id in s.threads && s.threads[id].phase.Replying? {
        assert ThreadFits(s, s.threads[id]);
        LeaveKeeps(s, id, Answer(s.threads[id].key, s.threads[id].phase.response));
      }
    case _ => SameForwards(s, Step(s, a));
  }

  lemma StepKeeps(s: State, a: Action)
    requires Inv(s)
    ensures Inv(Step(s, a))
  {
    match a
    case LookUp(id, ok) => if id in s.threads && s.threads[id].phase.Looking? { LookUpKeeps(s, id, ok); }
    case Reserve(id, ok, task) => if id in s.threads && s.threads[id].phase.Reserving? { ReserveKeeps(s, id, ok, task); }
    case WriteInbox(id, ok) => if id in s.threads && s.threads[id].phase.Delivering? { WriteInboxKeeps(s, id, ok); }
    case ForwardTo(id, response) => if id in s.threads && s.threads[id].phase.Forwarding? { ForwardKeeps(s, id, response); }
    case Complete(id, ok, task) => if id in s.threads && s.threads[id].phase.Completing? { CompleteKeeps(s, id, ok, task); }
    case _ => ComeAndGoKeeps(s, a);
  }

  lemma {:induction false} RunKeeps(actions: seq<Action>)
    ensures Inv(Run(actions))
    decreases |actions|
  {
    if actions != [] {
      RunKeeps(actions[..|actions| - 1]);
      StepKeeps(Run(actions[..|actions| - 1]), actions[|actions| - 1]);
    }
  }

  // ---- the memo table ----

  /** What deduplication is meant to be: per key, nothing, an execution under way, or its result. */
  datatype Entry = Started | Done(response: Response)

  function Memo(s: State): map<Key, Entry> {
    map key | key in s.records :: if Replayable(s.records[key].response) then Done(s.records[key].response) else Started
  }

  /** A memo table may start an absent key or finish a started one; it never forgets and never changes a result. */
  ghost predicate MemoStep(m: map<Key, Entry>, m': map<Key, Entry>) {
    || m' == m
    || (exists key :: key !in m && m' == m[key := Started])
    || (exists key, r :: key in m && m[key] == Started && m' == m[key := Done(r)])
  }

  /** Forwarding happens only for a started key that was not forwarded before; an answer is the result
      of its key's forward; and "working" is said only of a started key. */
  ghost predicate OutputsFit(s: State, s': State) {
    && (s'.forwards == s.forwards ||
          exists f :: s'.forwards == s.forwards + [f] && f.key in Memo(s) && Memo(s)[f.key] == Started && !WasForwarded(s, f.key)
                      && f.key in s.inbox && s.inbox[f.key].body == f.body)
    && (s'.replies == s.replies ||
          exists r :: s'.replies == s.replies + [r] && match r
            case Working(key, _) => key in Memo(s) && Memo(s)[key] == Started
            case Answer(key, response) => ForwardedWith(s, key, response) && (key in Memo(s) && Memo(s)[key].Done? ==> Memo(s)[key] == Done(response))
            case Failed(_) => true)
  }

  lemma OneAnswer(s: State, key: Key, r1: Response, r2: Response)
    requires ForwardsFit(s) && ForwardedWith(s, key, r1) && ForwardedWith(s, key, r2)
    ensures r1 == r2
  {
    var i :| 0 <= i < |s.forwards| && s.forwards[i].key == key && s.forwards[i].response == r1;
    var j :| 0 <= j < |s.forwards| && s.forwards[j].key == key && s.forwards[j].response == r2;
    assert i == j;
  }

  lemma MemoOf(s: State, s': State, key: Key, record: Record)
    requires s'.records == s.records[key := record]
    ensures Memo(s') == Memo(s)[key := if Replayable(record.response) then Done(record.response) else Started]
  {
  }

  lemma RecordsStep(s: State, a: Action)
    requires Inv(s)
    ensures MemoStep(Memo(s), Memo(Step(s, a)))
  {
    var s' := Step(s, a);
    if s'.records != s.records {
      var t := s.threads[a.id];
      assert ThreadFits(s, t);
      var record := s'.records[t.key];
      assert s'.records == s.records[t.key := record];
      MemoOf(s, s', t.key, record);
      MemoMoves(Memo(s), Memo(s'), t.key, record.response, t.key !in s.records);
    }
  }

  lemma MemoMoves(m: map<Key, Entry>, m': map<Key, Entry>, key: Key, r: Response, first: bool)
    requires if first then key !in m && !Replayable(r) else key in m && m[key] == Started
    requires m' == m[key := if Replayable(r) then Done(r) else Started]
    ensures MemoStep(m, m')
  {
    if !first && !Replayable(r) {
      assert m' == m;
    }
  }

  lemma OutputsStep(s: State, a: Action)
    requires Inv(s)
    ensures OutputsFit(s, Step(s, a))
  {
    var s' := Step(s, a);
    if s'.forwards != s.forwards {
      var t := s.threads[a.id];
      assert ThreadFits(s, t);
      assert s'.forwards == s.forwards + [Forward(t.key, t.letter.body, a.response)];
    }
    if s'.replies != s.replies {
      var t := s.threads[a.id];
      assert ThreadFits(s, t);
      var r := s'.replies[|s.replies|];
      assert s'.replies == s.replies + [r];
      if r.Answer? {
        AnswerJustified(s, t, r.response);
      }
    }
  }

  lemma AnswerJustified(s: State, t: Thread, response: Response)
    requires Inv(s) && ForwardedWith(s, t.key, response)
    ensures t.key in Memo(s) && Memo(s)[t.key].Done? ==> Memo(s)[t.key] == Done(response)
  {
    if t.key in s.records && Replayable(s.records[t.key].response) {
      OneAnswer(s, t.key, s.records[t.key].response, response);
    }
  }

  /** Deduplication refines a memo table: every step of every run is a step of the table or leaves it
      alone, and every forward and reply is one the table allows. */
  lemma DedupRefinesMemo(actions: seq<Action>, a: Action)
    ensures MemoStep(Memo(Run(actions)), Memo(Step(Run(actions), a)))
    ensures OutputsFit(Run(actions), Step(Run(actions), a))
  {
    RunKeeps(actions);
    RecordsStep(Run(actions), a);
    OutputsStep(Run(actions), a);
  }

  /** In every interleaving with any crashes: each key is forwarded at most once, always with the body
      of its inbox row, and all answers ever given for a key are the same response. */
  lemma ForwardedAtMostOnce(actions: seq<Action>)
    ensures var s := Run(actions);
            && (forall i, j :: 0 <= i < j < |s.forwards| ==> s.forwards[i].key != s.forwards[j].key)
            && (forall i :: 0 <= i < |s.forwards| ==> s.forwards[i].key in s.inbox && s.inbox[s.forwards[i].key].body == s.forwards[i].body)
            && (forall i, j :: (0 <= i < |s.replies| && 0 <= j < |s.replies| && s.replies[i].Answer? && s.replies[j].Answer?
                                && s.replies[i].key == s.replies[j].key)
                  ==> s.replies[i].response == s.replies[j].response)
  {
    RunKeeps(actions);
    var s := Run(actions);
    forall i, j | 0 <= i < |s.replies| && 0 <= j < |s.replies| && s.replies[i].Answer? && s.replies[j].Answer?
                  && s.replies[i].key == s.replies[j].key
      ensures s.replies[i].response == s.replies[j].response
    {
      OneAnswer(s, s.replies[i].key, s.replies[i].response, s.replies[j].response);
    }
  }

  predicate HasResult(s: State, key: Key, r: Response) {
    key in s.records && Replayable(r) && s.records[key].response == r
  }

  predicate LaterReplies(s: State, s': State, key: Key, r: Response) {
    && s.replies <= s'.replies
    && forall i :: |s.replies| <= i < |s'.replies| && s'.replies[i].key == key ==>
         s'.replies[i] == Answer(key, r) || s'.replies[i] == Failed(key)
  }

  lemma ResultStays(s: State, a: Action, key: Key, r: Response)
    requires Inv(s) && HasResult(s, key, r)
    ensures HasResult(Step(s, a), key, r)
  {
    if a.Complete? && a.id in s.threads {
      assert ThreadFits(s, s.threads[a.id]);
    }
  }

  lemma ResultStep(s: State, a: Action, key: Key, r: Response)
    requires Inv(s) && HasResult(s, key, r)
    ensures HasResult(Step(s, a), key, r) && LaterReplies(s, Step(s, a), key, r)
  {
    ResultStays(s, a, key, r);
    if !a.Complete? {
      RepliesAfter(s, a, key, r);
    }
  }

  lemma RepliesAfter(s: State, a: Action, key: Key, r: Response)
    requires Inv(s) && HasResult(s, key, r) && !a.Complete?
    ensures LaterReplies(s, Step(s, a), key, r)
  {
    if a.Finish? {
      FinishReplies(s, a.id, key, r);
    } else if !a.Arrive? && !a.Crash? && a.id in s.threads && s.threads[a.id].key == key {
      assert ThreadFits(s, s.threads[a.id]);
    }
  }

  lemma FinishReplies(s: State, id: nat, key: Key, r: Response)
    requires Inv(s) && HasResult(s, key, r)
    ensures LaterReplies(s, Step(s, Finish(id)), key, r)
  {
    if id in s.threads && s.threads[id].key == key && s.threads[id].phase.Replying? {
      assert ThreadFits(s, s.threads[id]);
      OneAnswer(s, key, r, s.threads[id].phase.response);
    }
  }

  /** A result, once stored, stays, and every later reply for its key is that result or a 500. */
  lemma {:induction false} ResultIsFinal(actions: seq<Action>, m: nat, n: nat, key: Key, r: Response)
    requires m <= n <= |actions| && HasResult(Run(actions[..m]), key, r)
    ensures HasResult(Run(actions[..n]), key, r)
    ensures LaterReplies(Run(actions[..m]), Run(actions[..n]), key, r)
    decreases n - m
  {
    if m < n {
      ResultIsFinal(actions, m, n - 1, key, r);
      assert actions[..n][..n - 1] == actions[..n - 1];
      RunKeeps(actions[..n - 1]);
      ResultStep(Run(actions[..n - 1]), actions[n - 1], key, r);
    }
  }

  // ---- what single calls do ----

  /** A look-up that finds its key replies at once: with the stored response if that has a status and a
      body, else that work on it is under way. */
  lemma FoundExactly(s: State, id: nat)
    requires id in s.threads && s.threads[id].phase.Looking? && s.threads[id].key in s.records
    ensures var key := s.threads[id].key;
            var record := s.records[key];
            Step(s, LookUp(id, true)) == s.(threads := s.threads - {id},
              replies := s.replies + [if record.response.status > 0 && record.response.body != "" then Answer(key, record.response) else Working(key, record.task)])
  {
  }

  /** Failures: a look-up that fails is taken for nothing found; a reservation or inbox write that fails
      ends the request; a completion that fails is not noticed; an inbox row that is there stays; a crash ends every request and loses no
      row. */
  lemma FailuresExactly(s: State, id: nat, task: string)
    ensures id in s.threads && s.threads[id].phase.Looking? ==>
              Step(s, LookUp(id, false)) == s.(threads := s.threads[id := s.threads[id].(phase := Reserving, failures := s.threads[id].failures + 1)])
    ensures id in s.threads && s.threads[id].phase.Reserving? ==>
              Step(s, Reserve(id, false, task)) == s.(threads := s.threads - {id}, replies := s.replies + [Failed(s.threads[id].key)])
    ensures id in s.threads && s.threads[id].phase.Delivering? ==>
              Step(s, WriteInbox(id, false)) == s.(threads := s.threads - {id}, replies := s.replies + [Failed(s.threads[id].key)])
    ensures id in s.threads && s.threads[id].phase.Completing? ==>
              Step(s, Complete(id, false, task)) == s.(threads := s.threads[id := s.threads[id].(phase := Replying(s.threads[id].phase.response))])
    ensures Step(s, Crash) == State(s.records, s.inbox, map[], s.forwards, s.replies)
    ensures id in s.threads && s.threads[id].phase.Delivering? && s.threads[id].key in s.inbox ==> Step(s, WriteInbox(id, true)).inbox == s.inbox
  {
  }

  // ---- reservations that nobody holds ----

  /** The key is reserved, no request holds the reservation, and there is nothing to replay: what a crash,
      a failed inbox write, a failed completion or a response without a body leaves. */
  predicate Orphan(s: State, key: Key) {
    && key in s.records && !(s.records[key].response.status > 0 && s.records[key].response.body != "")
    && forall id <- s.threads :: Owner(s.threads[id]) ==> s.threads[id].key != key
  }

  /** Whatever is new between two states is no forward of the key and no answer to it. */
  predicate NothingFor(s: State, s': State, key: Key) {
    && |s.forwards| <= |s'.forwards| && |s.replies| <= |s'.replies|
    && (forall i :: |s.forwards| <= i < |s'.forwards| ==> s'.forwards[i].key != key)
    && (forall i :: |s.replies| <= i < |s'.replies| ==> s'.replies[i].Answer? ==> s'.replies[i].key != key)
  }

  lemma OrphanStep(s: State, a: Action, key: Key)
    requires Orphan(s, key)
    ensures Orphan(Step(s, a), key) && NothingFor(s, Step(s, a), key)
  {
  }

  lemma NothingThrough(s: State, s1: State, s2: State, key: Key)
    requires NothingFor(s, s1, key) && NothingFor(s1, s2, key) && s1.forwards <= s2.forwards && s1.replies <= s2.replies
    ensures NothingFor(s, s2, key)
  {
    assert forall i :: 0 <= i < |s1.forwards| ==> s2.forwards[i] == s1.forwards[i];
    assert forall i :: 0 <= i < |s1.replies| ==> s2.replies[i] == s1.replies[i];
  }

  lemma LogsGrow(s: State, a: Action)
    ensures s.forwards <= Step(s, a).forwards && s.replies <= Step(s, a).replies
  {
  }

  /** Such a key is lost: whatever comes after, no retry of it is ever forwarded, and none is answered but
      by "working" or a failure. */
  lemma {:induction false} OrphanForGood(actions: seq<Action>, n: nat, key: Key)
    requires n <= |actions| && Orphan(Run(actions[..n]), key)
    ensures Orphan(Run(actions), key) && NothingFor(Run(actions[..n]), Run(actions), key)
    decreases actions
  {
    if n == |actions| {
      assert actions[..n] == actions;
    } else {
      var front, a := actions[..|actions| - 1], actions[|actions| - 1];
      assert front[..n] == actions[..n];
      OrphanForGood(front, n, key);
      OrphanStep(Run(front), a, key);
      LogsGrow(Run(front), a);
      NothingThrough(Run(actions[..n]), Run(front), Run(actions), key);
    }
  }

  /** A crash loses exactly the keys that are reserved and have nothing to replay. */
  lemma CrashOrphans(s: State, key: Key)
    ensures Orphan(Step(s, Crash), key) <==> key in s.records && !(s.records[key].response.status > 0 && s.records[key].response.body != "")
  {
  }

  // ---- results are stored and replayed ----

  /** A completion that succeeds stores the result, if there is one to replay. */
  lemma CompletionStores(actions: seq<Action>, id: nat, task: string)
    requires var s := Run(actions); id in s.threads && s.threads[id].phase.Completing? && Replayable(s.threads[id].phase.response)
    ensures var t := Run(actions).threads[id];
            var s' := Run(actions + [Complete(id, true, task)]);
            && t.key in s'.records && s'.records[t.key] == Record(task, t.phase.response) && HasResult(s', t.key, t.phase.response)
            && t.key in Memo(s') && Memo(s')[t.key] == Done(t.phase.response)
  {
    RunKeeps(actions);
    assert ThreadFits(Run(actions), Run(actions).threads[id]);
    RunOne(actions, Complete(id, true, task));
  }

  /** What a look-up that succeeds makes of a key: nothing yet, an execution under way, or the result. */
  lemma LookUpExactly(actions: seq<Action>, id: nat)
    requires id in Run(actions).threads && Run(actions).threads[id].phase.Looking?
    ensures var s, t, s' := Run(actions), Run(actions).threads[id], Run(actions + [LookUp(id, true)]);
            && (t.key !in Memo(s) ==> s'.replies == s.replies && id in s'.threads && s'.threads[id] == t.(phase := Reserving))
            && (t.key in Memo(s) && Memo(s)[t.key] == Started ==> id !in s'.threads && s'.replies == s.replies + [Working(t.key, s.records[t.key].task)])
            && (t.key in Memo(s) && Memo(s)[t.key].Done? ==> id !in s'.threads && s'.replies == s.replies + [Answer(t.key, Memo(s)[t.key].response)])
  {
    RunOne(actions, LookUp(id, true));
  }

  /** A retry after the result is stored is answered with it, whatever happened in between. */
  lemma RetryGetsResult(actions: seq<Action>, m: nat, id: nat, key: Key, letter: Letter, r: Response)
    requires m <= |actions| && HasResult(Run(actions[..m]), key, r) && id !in Run(actions).threads && key.message != ""
    ensures var s, s' := Run(actions), Run(actions + [Arrive(id, key, letter), LookUp(id, true)]);
            s'.replies == s.replies + [Answer(key, r)] && s'.forwards == s.forwards
  {
    assert actions[..|actions|] == actions;
    ResultIsFinal(actions, m, |actions|, key, r);
    RunTwo(actions, Arrive(id, key, letter), LookUp(id, true));
  }

  /** A request for a new key that nothing fails is stored in the inbox, forwarded with its own body,
      completed, and answered with the response of that forward. */
  function Served(id: nat, key: Key, letter: Letter, reserved: string, response: Response, task: string): seq<Action> {
    [Arrive(id, key, letter), LookUp(id, true), Reserve(id, true, reserved), WriteInbox(id, true)]
    + [ForwardTo(id, response), Complete(id, true, task), Finish(id)]
  }

  lemma NewRequestServed(actions: seq<Action>, id: nat, key: Key, letter: Letter, reserved: string, response: Response, task: string)
    requires id !in Run(actions).threads && key !in Run(actions).records && key.message != ""
    ensures var s, s' := Run(actions), Run(actions + Served(id, key, letter, reserved, response, task));
            && s'.inbox == s.inbox[key := letter] && s'.forwards == s.forwards + [Forward(key, letter.body, response)]
            && s'.replies == s.replies + [Answer(key, response)] && s'.records == s.records[key := Record(task, response)]
            && id !in s'.threads
  {
    RunKeeps(actions);
    InboxUnreserved(Run(actions), key);
    ServedInbox(Run(actions), id, key, letter, reserved);
    RunFour(actions, Arrive(id, key, letter), LookUp(id, true), Reserve(id, true, reserved), WriteInbox(id, true));
    var four := actions + [Arrive(id, key, letter), LookUp(id, true), Reserve(id, true, reserved), WriteInbox(id, true)];
    ServedReply(Run(four), id, key, letter, reserved, response, task);
    RunThree(four, ForwardTo(id, response), Complete(id, true, task), Finish(id));
    assert four + [ForwardTo(id, response), Complete(id, true, task), Finish(id)] == actions + Served(id, key, letter, reserved, response, task);
  }

  lemma InboxUnreserved(s: State, key: Key)
    requires Inv(s) && key !in s.records
    ensures key !in s.inbox
  {
  }

  lemma RunThree(front: seq<Action>, a: Action, b: Action, c: Action)
    ensures Run(front + [a, b, c]) == Step(Step(Step(Run(front), a), b), c)
  {
    RunTwo(front, a, b);
    RunOne(front + [a, b], c);
    assert front + [a, b] + [c] == front + [a, b, c];
  }

  lemma RunFour(front: seq<Action>, a: Action, b: Action, c: Action, d: Action)
    ensures Run(front + [a, b, c, d]) == Step(Step(Step(Step(Run(front), a), b), c), d)
  {
    RunThree(front, a, b, c);
    RunOne(front + [a, b, c], d);
    assert front + [a, b, c] + [d] == front + [a, b, c, d];
  }

  lemma ServedInbox(s: State, id: nat, key: Key, letter: Letter, reserved: string)
    requires id !in s.threads && key !in s.records && key !in s.inbox && key.message != ""
    ensures var s4 := Step(Step(Step(Step(s, Arrive(id, key, letter)), LookUp(id, true)), Reserve(id, true, reserved)), WriteInbox(id, true));
            && id in s4.threads && s4.threads[id] == Thread(key, letter, Forwarding, 1, 0)
            && s4.inbox == s.inbox[key := letter] && s4.records == s.records[key := Record(reserved, NO_RESPONSE)]
            && s4.forwards == s.forwards && s4.replies == s.replies
  {
  }

  lemma ServedReply(s: State, id: nat, key: Key, letter: Letter, reserved: string, response: Response, task: string)
    requires id in s.threads && s.threads[id] == Thread(key, letter, Forwarding, 1, 0) && key in s.records
    ensures var s' := Step(Step(Step(s, ForwardTo(id, response)), Complete(id, true, task)), Finish(id));
            && s'.inbox == s.inbox && s'.forwards == s.forwards + [Forward(key, letter.body, response)]
            && s'.replies == s.replies + [Answer(key, response)] && s'.records == s.records[key := Record(task, response)] && id !in s'.threads
  {
  }

  /** A request runs at most two activations of the function, plus one per failed look-up. */
  lemma RecursionDepth(actions: seq<Action>, id: nat)
    requires id in Run(actions).threads
    ensures Run(actions).threads[id].depth <= 2 + Run(actions).threads[id].failures
  {
    RunKeeps(actions);
    assert ThreadFits(Run(actions), Run(actions).threads[id]);
  }

  /** Two requests for one key: both look up, the first reserves, the second finds the row taken and
      starts over; from then on its look-ups fail n times. */
  function Unlucky(key: Key, letter: Letter, n: nat): seq<Action> {
    if n == 0 then [Arrive(0, key, letter), Arrive(1, key, letter), LookUp(0, true), LookUp(1, true), Reserve(0, true, "t"), Reserve(1, true, "t")]
    else Unlucky(key, letter, n - 1) + [LookUp(1, false), Reserve(1, true, "t")]
  }

  lemma RunOne(front: seq<Action>, a: Action)
    ensures Run(front + [a]) == Step(Run(front), a)
  {
    assert (front + [a])[..|front|] == front;
  }

  lemma RunTwo(front: seq<Action>, a: Action, b: Action)
    ensures Run(front + [a, b]) == Step(Step(Run(front), a), b)
  {
    RunOne(front + [a], b);
    RunOne(front, a);
    assert front + [a] + [b] == front + [a, b];
  }

  lemma UnluckyStart(key: Key, letter: Letter)
    requires key.message != ""
    ensures var s := Run(Unlucky(key, letter, 0)); key in s.records && 1 in s.threads && s.threads[1] == Thread(key, letter, Looking, 2, 0)
  {
    var a, b, c, d, e, f := Arrive(0, key, letter), Arrive(1, key, letter), LookUp(0, true), LookUp(1, true), Reserve(0, true, "t"), Reserve(1, true, "t");
    RunTwo([], a, b);
    RunTwo([a, b], c, d);
    RunTwo([a, b, c, d], e, f);
    assert [] + [a, b] == [a, b] && [a, b] + [c, d] == [a, b, c, d] && [a, b, c, d] + [e, f] == [a, b, c, d, e, f];
    var s2 := Run([a, b]);
    assert s2.threads[0] == Thread(key, letter, Looking, 1, 0) && s2.threads[1] == Thread(key, letter, Looking, 1, 0) && key !in s2.records;
    var s4 := Run([a, b, c, d]);
    assert s4.threads[0].phase == Reserving && s4.threads[1] == Thread(key, letter, Reserving, 1, 0) && key !in s4.records;
  }

  lemma UnluckyRound(s: State, key: Key, letter: Letter, n: nat)
    requires key in s.records && 1 in s.threads && s.threads[1] == Thread(key, letter, Looking, 2 + n, n)
    ensures var s' := Step(Step(s, LookUp(1, false)), Reserve(1, true, "t"));
            key in s'.records && 1 in s'.threads && s'.threads[1] == Thread(key, letter, Looking, 3 + n, n + 1)
  {
  }

  /** The bound on the recursion is reached: every failed look-up can add one activation. */
  lemma {:induction false} RecursionReached(key: Key, letter: Letter, n: nat)
    requires key.message != ""
    ensures var s := Run(Unlucky(key, letter, n)); key in s.records && 1 in s.threads && s.threads[1] == Thread(key, letter, Looking, 2 + n, n)
    decreases n
  {
    if n == 0 {
      UnluckyStart(key, letter);
    } else {
      RecursionReached(key, letter, n - 1);
      UnluckyRound(Run(Unlucky(key, letter, n - 1)), key, letter, n - 1);
      RunTwo(Unlucky(key, letter, n - 1), LookUp(1, false), Reserve(1, true, "t"));
    }
  }
}
