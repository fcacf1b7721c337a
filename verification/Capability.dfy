/** Capability sessions: Session.Validate of internal/capability/capability.go and the challenge,
    exchange, rotation and authentication handlers of internal/management/handler.go. An exchange is
    three steps (read the registration, take the challenge, store the session), and so is a rotation
    (read the registration, update it, drop the sessions); any number of them interleave with each
    other and with daemon restarts. */
module Capability {
  import opened Text

  /** An agent's row; the registration token stands for its hash, the empty key for no key. */
  datatype Registration = Registration(token: string, endpoint: string, key: string, generation: nat)

  datatype Challenge = Challenge(boot: string, nonce: string, agent: string, endpoint: string, methods: seq<string>, expiresAt: int)

  datatype Session = Session(token: string, agent: string, generation: nat, methods: seq<string>, expiresAt: int)

  datatype Verdict = Valid | WrongAgent | WrongGeneration | Expired | WrongMethod

  const MINUTE: int := 60_000_000_000
  const GENERATION_LIMIT: nat := 0x8000_0000_0000_0000

  const DEFAULT_METHODS: seq<string> := [
    "message.cancel", "message.send", "message.status", "mailbox.list", "mailbox.read", "attachment.init",
    "attachment.chunk", "attachment.complete", "attachment.status", "attachment.cancel", "attachment.grant"]

  function Validate(s: Session, agent: string, generation: nat, name: string, now: int): Verdict {
    if s.agent != agent then WrongAgent
    else if s.generation != generation then WrongGeneration
    else if now >= s.expiresAt then Expired
    else if name in s.methods then Valid
    else WrongMethod
  }

  /** Validate as it runs, with its scan of the method list. */
  method ValidateSession(s: Session, agent: string, generation: nat, name: string, now: int) returns (v: Verdict)
    ensures v == Validate(s, agent, generation, name, now)
  {
    if s.agent != agent {
      return WrongAgent;
    }
    if s.generation != generation {
      return WrongGeneration;
    }
    if !(now < s.expiresAt) {
      return Expired;
    }
    for i := 0 to |s.methods|
      invariant name !in s.methods[..i]
    {
      if s.methods[i] == name {
        return Valid;
      }
    }
    assert s.methods[..|s.methods|] == s.methods;
    return WrongMethod;
  }

  // ---- the handler's tables ----

  /** The registrations table, and the two maps behind capabilityMu. */
  datatype Book = Book(registrations: map<string, Registration>, challenges: map<string, Challenge>, sessions: map<string, Session>)

  function Key(agent: string, nonce: string): string { agent + "\0" + nonce }

  predicate Authentic(b: Book, agent: string, token: string) { agent in b.registrations && b.registrations[agent].token == token }

  /** The challenge a request gets, if its agent has a capability. */
  function NewChallenge(b: Book, boot: string, agent: string, token: string, endpoint: string, methods: seq<string>, nonce: string, now: int): Option<Challenge> {
    if !Authentic(b, agent, token) || b.registrations[agent].key == "" || b.registrations[agent].generation == 0 then None
    else Some(Challenge(boot, nonce, agent, if endpoint == "" then b.registrations[agent].endpoint else endpoint,
                        if methods == [] then DEFAULT_METHODS else methods, now + 2 * MINUTE))
  }

  function PutChallenge(b: Book, c: Challenge): Book { b.(challenges := b.challenges[Key(c.agent, c.nonce) := c]) }

  /** What a caller of capabilityExchange sends. */
  datatype Params = Params(agent: string, boot: string, nonce: string, expiresAt: int, signature: string)

  /** The taken challenge is deleted whether or not it passes. */
  function TakeFrom(b: Book, p: Params): Book { b.(challenges := b.challenges - {Key(p.agent, p.nonce)}) }

  function Found(b: Book, p: Params): Option<Challenge> {
    var key := Key(p.agent, p.nonce);
    if key in b.challenges then Some(b.challenges[key]) else None
  }

  /** The checks between the take and the mint. */
  predicate Passes(verify: (string, Challenge, string) -> bool, c: Challenge, p: Params, row: Registration, now: int) {
    && c.boot == p.boot && c.agent == p.agent && c.expiresAt == p.expiresAt && now < c.expiresAt
    && row.key != "" && verify(row.key, c, p.signature)
  }

  function Mint(p: Params, row: Registration, c: Challenge, token: string, now: int): Session {
    Session(token, p.agent, row.generation, c.methods, now + 15 * MINUTE)
  }

  function NextGeneration(row: Registration): nat {
    if row.generation + 1 == 1 && row.key != "" then 2 else row.generation + 1
  }

  /** The registration update of a rotation; the database driver refuses integers from 2^63 on. */
  predicate CanRotate(b: Book, agent: string, token: string) {
    Authentic(b, agent, token) && NextGeneration(b.registrations[agent]) < GENERATION_LIMIT
  }

  function WithoutAgent(sessions: map<string, Session>, agent: string): map<string, Session> {
    map token | token in sessions && sessions[token].agent != agent :: sessions[token]
  }

  /** The registration update of a rotation that read `row`; it does not look at the generation that
      stands there by then. */
  function Update(b: Book, agent: string, row: Registration, key: string): Book
    requires agent in b.registrations
  {
    if NextGeneration(row) >= GENERATION_LIMIT then b
    else b.(registrations := b.registrations[agent := b.registrations[agent].(key := key, generation := NextGeneration(row))])
  }

  function Drop(b: Book, agent: string): Book { b.(sessions := WithoutAgent(b.sessions, agent)) }

  /** rotateCapability when nothing interrupts it; when the new key cannot be persisted, the sessions
      stay. */
  function Rotate(b: Book, agent: string, token: string, key: string, persisted: bool): Book {
    if !CanRotate(b, agent, token) then b
    else
      var b' := Update(b, agent, b.registrations[agent], key);
      if persisted then Drop(b', agent) else b'
  }

  /** authenticateMethod on a session token. */
  function Authenticate(b: Book, agent: string, sessionToken: string, name: string, now: int): Verdict {
    if sessionToken !in b.sessions then Expired
    else if agent !in b.registrations then WrongAgent
    else Validate(b.sessions[sessionToken], agent, b.registrations[agent].generation, name, now)
  }

  // ---- runs ----

  /** A registration as one exchange read it, and the number of steps before the read. */
  datatype Reading = Reading(agent: string, at: nat, row: Registration)

  /** An exchange in progress; `taken` once it holds a challenge that passed, at `takenAt`. */
  datatype Call = Call(params: Params, reading: Reading, taken: Option<Challenge>, takenAt: int)

  datatype Minted = Minted(session: Session, challenge: Challenge, params: Params, reading: Reading, takenAt: int, storedAt: int)

  /** What became of a nonce. */
  datatype Place = Waiting(key: string) | Held(call: nat) | Spent(index: nat) | Dropped

  /** A rotation in progress, with the registration it read. */
  datatype Rotation = Rotation(agent: string, row: Registration, updated: bool)

  /** `issued` is when each nonce was handed out. */
  datatype State = State(book: Book, boot: string, time: nat, calls: map<nat, Call>, rotations: map<nat, Rotation>, minted: seq<Minted>,
                         places: map<string, Place>, issued: map<string, int>, tokens: set<string>)

  datatype Action =
    | Register(agent: string, token: string, endpoint: string, key: string)
    | AskChallenge(agent: string, token: string, endpoint: string, methods: seq<string>, nonce: string, now: int)
    | ReadRow(id: nat, params: Params)
    | TakeChallenge(id: nat, now: int)
    | StoreSession(id: nat, token: string, now: int)
    | BeginRotation(rotation: nat, agent: string, token: string)
    | UpdateRow(rotation: nat, key: string)
    | DropSessions(rotation: nat)
    | Restart(boot: string)

  function Initial(registrations: map<string, Registration>): State {
    State(Book(registrations, map[], map[]), "", 0, map[], map[], [], map[], map[], {})
  }

  function DoAsk(s: State, agent: string, token: string, endpoint: string, methods: seq<string>, nonce: string, now: int): State {
    match NewChallenge(s.book, s.boot, agent, token, endpoint, methods, nonce, now)
    case None => s
    case Some(c) => s.(book := PutChallenge(s.book, c), places := s.places[nonce := Waiting(Key(agent, nonce))], issued := s.issued[nonce := now])
  }

  function DoRead(s: State, id: nat, p: Params): State {
    if p.agent !in s.book.registrations then s
    else s.(calls := s.calls[id := Call(p, Reading(p.agent, s.time, s.book.registrations[p.agent]), None, 0)])
  }

  function DoTake(verify: (string, Challenge, string) -> bool, s: State, id: nat, now: int): State
    requires id in s.calls
  {
    var call := s.calls[id];
    match Found(s.book, call.params)
    case None => s.(calls := s.calls - {id})
    case Some(c) =>
      var s' := s.(book := TakeFrom(s.book, call.params));
      if Passes(verify, c, call.params, call.reading.row, now) then
        s'.(calls := s.calls[id := call.(taken := Some(c), takenAt := now)], places := s.places[c.nonce := Held(id)])
      else s'.(calls := s.calls - {id}, places := s.places[c.nonce := Dropped])
  }

  function DoStore(s: State, id: nat, token: string, now: int): State
    requires id in s.calls && s.calls[id].taken.Some?
  {
    var call := s.calls[id];
    var c := call.taken.value;
    var session := Mint(call.params, call.reading.row, c, token, now);
    s.(book := s.book.(sessions := s.book.sessions[token := session]), calls := s.calls - {id},
       minted := s.minted + [Minted(session, c, call.params, call.reading, call.takenAt, now)],
       places := s.places[c.nonce := Spent(|s.minted|)], tokens := s.tokens + {token})
  }

  function DoBegin(s: State, rotation: nat, agent: string, token: string): State {
    if !Authentic(s.book, agent, token) then s
    else s.(rotations := s.rotations[rotation := Rotation(agent, s.book.registrations[agent], false)])
  }

  /** Can this update be made? */
  predicate MayUpdate(s: State, rotation: nat) {
    rotation in s.rotations && !s.rotations[rotation].updated && s.rotations[rotation].agent in s.book.registrations
  }

  function DoUpdate(s: State, rotation: nat, key: string): State
    requires MayUpdate(s, rotation)
  {
    var r := s.rotations[rotation];
    if NextGeneration(r.row) >= GENERATION_LIMIT then s.(rotations := s.rotations - {rotation})
    else s.(book := Update(s.book, r.agent, r.row, key), rotations := s.rotations[rotation := r.(updated := true)])
  }

  /** A rotation whose key cannot be persisted never gets here. */
  function DoDrop(s: State, rotation: nat): State
    requires rotation in s.rotations
  {
    s.(book := Drop(s.book, s.rotations[rotation].agent), rotations := s.rotations - {rotation})
  }

  /** Nonces and session tokens are drawn fresh. */
  predicate Enabled(s: State, a: Action) {
    match a
    case Register(agent, _, _, _) => agent !in s.book.registrations
    case AskChallenge(_, _, _, _, nonce, _) => nonce !in s.places
    case ReadRow(id, _) => id !in s.calls
    case TakeChallenge(id, _) => id in s.calls && s.calls[id].taken.None?
    case StoreSession(id, token, _) => id in s.calls && s.calls[id].taken.Some? && token !in s.tokens
    case BeginRotation(rotation, _, _) => rotation !in s.rotations
    case UpdateRow(rotation, _) => MayUpdate(s, rotation)
    case DropSessions(rotation) => rotation in s.rotations && s.rotations[rotation].updated
    case Restart(_) => true
  }

  function Effect(verify: (string, Challenge, string) -> bool, s: State, a: Action): State
    requires Enabled(s, a)
  {
    match a
    case Register(agent, token, endpoint, key) =>
      s.(book := s.book.(registrations := s.book.registrations[agent := Registration(token, endpoint, key, 1)]))
    case AskChallenge(agent, token, endpoint, methods, nonce, now) => DoAsk(s, agent, token, endpoint, methods, nonce, now)
    case ReadRow(id, params) => DoRead(s, id, params)
    case TakeChallenge(id, now) => DoTake(verify, s, id, now)
    case StoreSession(id, token, now) => DoStore(s, id, token, now)
    case BeginRotation(rotation, agent, token) => DoBegin(s, rotation, agent, token)
    case UpdateRow(rotation, key) => DoUpdate(s, rotation, key)
    case DropSessions(rotation) => DoDrop(s, rotation)
    case Restart(boot) => s.(book := s.book.(challenges := map[], sessions := map[]), boot := boot, calls := map[], rotations := map[])
  }

  function Step(verify: (string, Challenge, string) -> bool, s: State, a: Action): State {
    (if Enabled(s, a) then Effect(verify, s, a) else s).(time := s.time + 1)
  }

  function Run(verify: (string, Challenge, string) -> bool, start: map<string, Registration>, actions: seq<Action>): State {
    if actions == [] then Initial(start)
    else Step(verify, Run(verify, start, actions[..|actions| - 1]), actions[|actions| - 1])
  }

  // ---- each challenge yields at most one session ----

  /** Every nonce is where `places` says. */
  predicate Placed(s: State) {
    && (forall k <- s.book.challenges :: s.book.challenges[k].nonce in s.places && s.places[s.book.challenges[k].nonce] == Waiting(k))
    && (forall id <- s.calls | s.calls[id].taken.Some? ::
          s.calls[id].taken.value.nonce in s.places && s.places[s.calls[id].taken.value.nonce] == Held(id))
    && (forall i :: 0 <= i < |s.minted| ==>
          s.minted[i].challenge.nonce in s.places && s.places[s.minted[i].challenge.nonce] == Spent(i))
  }

  /** A challenge that passed for a call is the one the caller named and signed. */
  predicate Earned(verify: (string, Challenge, string) -> bool, c: Challenge, p: Params, r: Reading) {
    && c.agent == p.agent == r.agent && c.nonce == p.nonce && c.boot == p.boot && c.expiresAt == p.expiresAt
    && r.row.key != "" && verify(r.row.key, c, p.signature)
  }

  predicate Backed(verify: (string, Challenge, string) -> bool, m: Minted) {
    && Earned(verify, m.challenge, m.params, m.reading)
    && m.session.agent == m.reading.agent && m.session.generation == m.reading.row.generation
    && m.session.methods == m.challenge.methods
  }

  predicate Sound(verify: (string, Challenge, string) -> bool, s: State) {
    && (forall k <- s.book.challenges :: k == Key(s.book.challenges[k].agent, s.book.challenges[k].nonce))
    && (forall id <- s.calls :: s.calls[id].reading.agent == s.calls[id].params.agent)
    && (forall id <- s.calls | s.calls[id].taken.Some? :: Earned(verify, s.calls[id].taken.value, s.calls[id].params, s.calls[id].reading))
    && (forall i :: 0 <= i < |s.minted| ==> Backed(verify, s.minted[i]))
  }

  lemma KeyTellsNonce(agent: string, nonce: string, nonce': string)
    requires Key(agent, nonce) == Key(agent, nonce')
    ensures nonce == nonce'
  {
    assert Key(agent, nonce)[|agent| + 1..] == nonce && Key(agent, nonce')[|agent| + 1..] == nonce';
  }

  lemma TakePlaces(verify: (string, Challenge, string) -> bool, s: State, id: nat, now: int)
    requires Placed(s) && id in s.calls && s.calls[id].taken.None?
    ensures Placed(DoTake(verify, s, id, now))
  {
    if Found(s.book, s.calls[id].params).Some? {
      var k := Key(s.calls[id].params.agent, s.calls[id].params.nonce);
      var nonce := s.book.challenges[k].nonce;
      assert s.places[nonce] == Waiting(k);
      assert forall k' <- s.book.challenges | k' != k :: s.book.challenges[k'].nonce != nonce;
      assert forall id' <- s.calls | s.calls[id'].taken.Some? :: s.calls[id'].taken.value.nonce != nonce;
    }
  }

  lemma TakeKeepsSound(verify: (string, Challenge, string) -> bool, s: State, id: nat, now: int)
    requires Sound(verify, s) && id in s.calls && s.calls[id].taken.None?
    ensures Sound(verify, DoTake(verify, s, id, now))
  {
    var p := s.calls[id].params;
    if Found(s.book, p).Some? {
      var c := Found(s.book, p).value;
      if c.agent == p.agent { KeyTellsNonce(p.agent, c.nonce, p.nonce); }
    }
  }

  lemma StoreKeeps(verify: (string, Challenge, string) -> bool, s: State, id: nat, token: string, now: int)
    requires Placed(s) && Sound(verify, s) && id in s.calls && s.calls[id].taken.Some?
    ensures Placed(DoStore(s, id, token, now)) && Sound(verify, DoStore(s, id, token, now))
  {
  }

  lemma AskKeeps(verify: (string, Challenge, string) -> bool, s: State, agent: string, token: string, endpoint: string, methods: seq<string>, nonce: string, now: int)
    requires Placed(s) && Sound(verify, s) && nonce !in s.places
    ensures var s' := DoAsk(s, agent, token, endpoint, methods, nonce, now); Placed(s') && Sound(verify, s')
  {
  }

  lemma ReadKeeps(verify: (string, Challenge, string) -> bool, s: State, id: nat, p: Params)
    requires Placed(s) && Sound(verify, s) && id !in s.calls
    ensures Placed(DoRead(s, id, p)) && Sound(verify, DoRead(s, id, p))
  {
  }

  predicate Within<V(==)>(m': map<string, V>, m: map<string, V>) { forall k <- m' :: k in m && m'[k] == m[k] }

  /** Nothing but registrations and rotations is new; challenges, calls and sessions may be lost. */
  predicate Quiet(s: State, s': State) {
    && Within(s'.book.challenges, s.book.challenges) && Within(s'.book.sessions, s.book.sessions)
    && (forall id <- s'.calls :: id in s.calls && s'.calls[id] == s.calls[id])
    && s'.minted == s.minted && s'.places == s.places && s'.issued == s.issued && s'.tokens == s.tokens
  }

  predicate IsQuiet(s: State, a: Action) {
    !Enabled(s, a) || a.Register? || a.BeginRotation? || a.UpdateRow? || a.DropSessions? || a.Restart?
  }

  lemma QuietStep(verify: (string, Challenge, string) -> bool, s: State, a: Action)
    requires IsQuiet(s, a)
    ensures Quiet(s, Step(verify, s, a))
  {
  }

  lemma QuietKeeps(verify: (string, Challenge, string) -> bool, s: State, s': State)
    requires Placed(s) && Sound(verify, s) && Quiet(s, s')
    ensures Placed(s') && Sound(verify, s')
  {
  }

  lemma EffectKeeps(verify: (string, Challenge, string) -> bool, s: State, a: Action)
    requires Placed(s) && Sound(verify, s) && !IsQuiet(s, a)
    ensures Placed(Effect(verify, s, a)) && Sound(verify, Effect(verify, s, a))
  {
    match a
    case AskChallenge(agent, token, endpoint, methods, nonce, now) => AskKeeps(verify, s, agent, token, endpoint, methods, nonce, now);
    case ReadRow(id, params) => ReadKeeps(verify, s, id, params);
    case TakeChallenge(id, now) =>
      TakePlaces(verify, s, id, now);
      TakeKeepsSound(verify, s, id, now);
    case StoreSession(id, token, now) => StoreKeeps(verify, s, id, token, now);
  }

  lemma StepKeeps(verify: (string, Challenge, string) -> bool, s: State, a: Action)
    requires Placed(s) && Sound(verify, s)
    ensures Placed(Step(verify, s, a)) && Sound(verify, Step(verify, s, a))
  {
    if IsQuiet(s, a) {
      QuietStep(verify, s, a);
      QuietKeeps(verify, s, Step(verify, s, a));
    } else {
      EffectKeeps(verify, s, a);
      QuietKeeps(verify, Effect(verify, s, a), Step(verify, s, a));
    }
  }

  lemma {:induction false} RunKeeps(verify: (string, Challenge, string) -> bool, start: map<string, Registration>, actions: seq<Action>)
    ensures Placed(Run(verify, start, actions)) && Sound(verify, Run(verify, start, actions))
    decreases actions
  {
    if actions != [] {
      RunKeeps(verify, start, actions[..|actions| - 1]);
      StepKeeps(verify, Run(verify, start, actions[..|actions| - 1]), actions[|actions| - 1]);
    }
  }

  /** Each challenge yields at most one session, and only to the agent it was issued to, for the
      methods it lists, on a signature under the key that exchange read. */
  lemma OneSessionPerChallenge(verify: (string, Challenge, string) -> bool, start: map<string, Registration>, actions: seq<Action>, i: nat, j: nat)
    requires i < |Run(verify, start, actions).minted| && j < |Run(verify, start, actions).minted|
    requires Run(verify, start, actions).minted[i].challenge.nonce == Run(verify, start, actions).minted[j].challenge.nonce
    ensures i == j && Backed(verify, Run(verify, start, actions).minted[i])
  {
    RunKeeps(verify, start, actions);
  }

  // ---- rotation ends what was read before it ----

  predicate Genuine(verify: (string, Challenge, string) -> bool, start: map<string, Registration>, actions: seq<Action>, r: Reading) {
    && r.at <= |actions|
    && r.agent in Run(verify, start, actions[..r.at]).book.registrations
    && Run(verify, start, actions[..r.at]).book.registrations[r.agent] == r.row
  }

  predicate AllGenuine(verify: (string, Challenge, string) -> bool, start: map<string, Registration>, actions: seq<Action>, s: State) {
    && s.time == |actions|
    && (forall id <- s.calls :: Genuine(verify, start, actions, s.calls[id].reading))
    && (forall i :: 0 <= i < |s.minted| ==> Genuine(verify, start, actions, s.minted[i].reading))
    && Sourced(s.book.sessions, s.minted)
  }

  lemma StillGenuine(verify: (string, Challenge, string) -> bool, start: map<string, Registration>, actions: seq<Action>, a: Action, r: Reading)
    requires Genuine(verify, start, actions, r)
    ensures Genuine(verify, start, actions + [a], r)
  {
    assert (actions + [a])[..r.at] == actions[..r.at];
  }

  lemma GenuineNow(verify: (string, Challenge, string) -> bool, start: map<string, Registration>, actions: seq<Action>, agent: string)
    requires agent in Run(verify, start, actions).book.registrations
    ensures Genuine(verify, start, actions, Reading(agent, |actions|, Run(verify, start, actions).book.registrations[agent]))
  {
    assert actions[..|actions|] == actions;
  }

  /** After a step every reading is an old one, or one made by this very step. */
  lemma ReadingsStep(verify: (string, Challenge, string) -> bool, s: State, a: Action)
    ensures var s' := Step(verify, s, a);
            && (forall id <- s'.calls :: (exists id' <- s.calls :: s'.calls[id].reading == s.calls[id'].reading)
                  || (var r := s'.calls[id].reading; r.at == s.time && r.agent in s.book.registrations && r.row == s.book.registrations[r.agent]))
            && (forall i :: 0 <= i < |s'.minted| ==> (i < |s.minted| && s'.minted[i] == s.minted[i]) || (exists id <- s.calls :: s'.minted[i].reading == s.calls[id].reading))
  {
  }

  /** Every session in the book was minted. */
  predicate Sourced(sessions: map<string, Session>, minted: seq<Minted>) {
    forall t <- sessions :: exists i :: 0 <= i < |minted| && minted[i].session == sessions[t]
  }

  lemma SessionsStep(verify: (string, Challenge, string) -> bool, s: State, a: Action)
    requires Sourced(s.book.sessions, s.minted)
    ensures Sourced(Step(verify, s, a).book.sessions, Step(verify, s, a).minted)
  {
    if IsQuiet(s, a) {
      QuietStep(verify, s, a);
      SourcedWithin(s.book.sessions, Step(verify, s, a).book.sessions, s.minted);
    } else if a.StoreSession? {
      var call := s.calls[a.id];
      var session := Mint(call.params, call.reading.row, call.taken.value, a.token, a.now);
      SourcedMore(s.book.sessions, s.minted, a.token, Minted(session, call.taken.value, call.params, call.reading, call.takenAt, a.now));
    } else {
      SessionsStay(verify, s, a);
    }
  }

  lemma SessionsStay(verify: (string, Challenge, string) -> bool, s: State, a: Action)
    requires a.AskChallenge? || a.ReadRow? || a.TakeChallenge?
    ensures Step(verify, s, a).book.sessions == s.book.sessions && Step(verify, s, a).minted == s.minted
  {
  }

  lemma SourcedWithin(sessions: map<string, Session>, sessions': map<string, Session>, minted: seq<Minted>)
    requires Sourced(sessions, minted) && Within(sessions', sessions)
    ensures Sourced(sessions', minted)
  {
  }

  lemma SourcedMore(sessions: map<string, Session>, minted: seq<Minted>, token: string, m: Minted)
    requires Sourced(sessions, minted)
    ensures Sourced(sessions[token := m.session], minted + [m])
  {
    var sessions', minted' := sessions[token := m.session], minted + [m];
    forall t | t in sessions' ensures exists i :: 0 <= i < |minted'| && minted'[i].session == sessions'[t] {
      if t == token {
        assert minted'[|minted|].session == sessions'[t];
      } else {
        var i :| 0 <= i < |minted| && minted[i].session == sessions[t];
        assert minted'[i] == minted[i];
      }
    }
  }

  lemma {:induction false} RunGenuine(verify: (string, Challenge, string) -> bool, start: map<string, Registration>, actions: seq<Action>)
    ensures AllGenuine(verify, start, actions, Run(verify, start, actions))
    decreases actions
  {
    if actions != [] {
      var front, a := actions[..|actions| - 1], actions[|actions| - 1];
      assert actions == front + [a];
      RunGenuine(verify, start, front);
      GenuineStep(verify, start, front, a, Run(verify, start, front));
    }
  }

  lemma GenuineStep(verify: (string, Challenge, string) -> bool, start: map<string, Registration>, front: seq<Action>, a: Action, s: State)
    requires s == Run(verify, start, front) && AllGenuine(verify, start, front, s)
    ensures AllGenuine(verify, start, front + [a], Step(verify, s, a))
  {
    var s' := Step(verify, s, a);
    ReadingsStep(verify, s, a);
    SessionsStep(verify, s, a);
    forall id | id in s'.calls ensures Genuine(verify, start, front + [a], s'.calls[id].reading) {
      var r := s'.calls[id].reading;
      if r.at == s.time && r.agent in s.book.registrations && r.row == s.book.registrations[r.agent] {
        GenuineNow(verify, start, front, r.agent);
      }
      StillGenuine(verify, start, front, a, r);
    }
    forall i | 0 <= i < |s'.minted| ensures Genuine(verify, start, front + [a], s'.minted[i].reading) {
      StillGenuine(verify, start, front, a, s'.minted[i].reading);
    }
  }

  /** No update of this agent's row comes after another one that it did not see: the generation it
      read is the one it replaces. Rotations of one agent that do not overlap are of this kind. */
  predicate Alone(s: State, a: Action, agent: string) {
    a.UpdateRow? && MayUpdate(s, a.rotation) && s.rotations[a.rotation].agent == agent ==> s.rotations[a.rotation].row.generation == s.book.registrations[agent].generation
  }

  predicate AllAlone(verify: (string, Challenge, string) -> bool, start: map<string, Registration>, actions: seq<Action>, agent: string) {
    actions == [] || (
      && AllAlone(verify, start, actions[..|actions| - 1], agent)
      && Alone(Run(verify, start, actions[..|actions| - 1]), actions[|actions| - 1], agent))
  }

  lemma {:induction false} PrefixAlone(verify: (string, Challenge, string) -> bool, start: map<string, Registration>, actions: seq<Action>, agent: string, n: nat)
    requires n <= |actions| && AllAlone(verify, start, actions, agent)
    ensures AllAlone(verify, start, actions[..n], agent)
    decreases actions
  {
    if n == |actions| {
      assert actions[..n] == actions;
    } else {
      assert actions[..|actions| - 1][..n] == actions[..n];
      PrefixAlone(verify, start, actions[..|actions| - 1], agent, n);
    }
  }

  lemma AloneAt(verify: (string, Challenge, string) -> bool, start: map<string, Registration>, actions: seq<Action>, agent: string, k: nat)
    requires k < |actions| && AllAlone(verify, start, actions, agent)
    ensures Alone(Run(verify, start, actions[..k]), actions[k], agent)
  {
    PrefixAlone(verify, start, actions, agent, k + 1);
    assert actions[..k + 1][..k] == actions[..k] && actions[..k + 1][k] == actions[k];
  }

  /** One step leaves a row alone or gives it a later generation. */
  lemma RowStep(verify: (string, Challenge, string) -> bool, s: State, a: Action, agent: string)
    requires agent in s.book.registrations && Alone(s, a, agent)
    ensures agent in Step(verify, s, a).book.registrations
    ensures var row, row' := s.book.registrations[agent], Step(verify, s, a).book.registrations[agent];
            row' == row || row'.generation > row.generation
  {
  }

  /** The agent's row is still there, the same or of a later generation. */
  predicate Aged(b: Book, b': Book, agent: string) {
    agent in b.registrations ==> agent in b'.registrations && (b'.registrations[agent] == b.registrations[agent] || b'.registrations[agent].generation > b.registrations[agent].generation)
  }

  lemma AgedThrough(b: Book, b1: Book, b2: Book, agent: string)
    requires Aged(b, b1, agent) && Aged(b1, b2, agent)
    ensures Aged(b, b2, agent)
  {
  }

  lemma {:induction false} RowsAge(verify: (string, Challenge, string) -> bool, start: map<string, Registration>, actions: seq<Action>, k: nat, agent: string)
    requires k <= |actions| && AllAlone(verify, start, actions, agent)
    ensures Aged(Run(verify, start, actions[..k]).book, Run(verify, start, actions).book, agent)
    decreases actions
  {
    if k == |actions| {
      assert actions[..k] == actions;
    } else {
      var front := actions[..|actions| - 1];
      assert front[..k] == actions[..k];
      RowsAge(verify, start, front, k, agent);
      LastAges(verify, start, actions, agent);
      AgedThrough(Run(verify, start, actions[..k]).book, Run(verify, start, front).book, Run(verify, start, actions).book, agent);
    }
  }

  lemma LastAges(verify: (string, Challenge, string) -> bool, start: map<string, Registration>, actions: seq<Action>, agent: string)
    requires actions != [] && AllAlone(verify, start, actions, agent)
    ensures Aged(Run(verify, start, actions[..|actions| - 1]).book, Run(verify, start, actions).book, agent)
  {
    var s := Run(verify, start, actions[..|actions| - 1]);
    assert Alone(s, actions[|actions| - 1], agent);
    if agent in s.book.registrations { RowStep(verify, s, actions[|actions| - 1], agent); }
  }

  predicate RotatesAt(verify: (string, Challenge, string) -> bool, start: map<string, Registration>, actions: seq<Action>, k: nat, agent: string)
    requires k < |actions|
  {
    var s := Run(verify, start, actions[..k]);
    && actions[k].UpdateRow? && MayUpdate(s, actions[k].rotation) && s.rotations[actions[k].rotation].agent == agent
    && NextGeneration(s.rotations[actions[k].rotation].row) < GENERATION_LIMIT
  }

  /** Across a rotation the generation strictly grows, and stays grown. */
  lemma RotationAges(verify: (string, Challenge, string) -> bool, start: map<string, Registration>, actions: seq<Action>, k: nat, agent: string)
    requires k < |actions| && RotatesAt(verify, start, actions, k, agent) && AllAlone(verify, start, actions, agent)
    ensures agent in Run(verify, start, actions[..k]).book.registrations && agent in Run(verify, start, actions).book.registrations
    ensures Run(verify, start, actions).book.registrations[agent].generation > Run(verify, start, actions[..k]).book.registrations[agent].generation
  {
    assert actions[..k + 1][..k] == actions[..k] && actions[..k + 1][k] == actions[k];
    assert Run(verify, start, actions[..k + 1]) == Step(verify, Run(verify, start, actions[..k]), actions[k]);
    AloneAt(verify, start, actions, agent, k);
    UpdateAges(verify, Run(verify, start, actions[..k]), actions[k], agent);
    RowsAge(verify, start, actions, k + 1, agent);
  }

  lemma UpdateAges(verify: (string, Challenge, string) -> bool, s: State, a: Action, agent: string)
    requires a.UpdateRow? && MayUpdate(s, a.rotation) && s.rotations[a.rotation].agent == agent && Alone(s, a, agent)
    requires NextGeneration(s.rotations[a.rotation].row) < GENERATION_LIMIT
    ensures agent in Step(verify, s, a).book.registrations
    ensures Step(verify, s, a).book.registrations[agent].generation > s.book.registrations[agent].generation
  {
  }

  /** No session minted from a registration read before a rotation validates against the
      registration as it stands at any time after it, whatever interleaved, if every rotation of the
      agent replaced the generation it had read. */
  lemma RotationEndsSessions(
    verify: (string, Challenge, string) -> bool, start: map<string, Registration>, actions: seq<Action>, k: nat, i: nat, name: string, now: int)
    requires k < |actions| && i < |Run(verify, start, actions).minted|
    requires var m := Run(verify, start, actions).minted[i]; m.reading.at <= k && RotatesAt(verify, start, actions, k, m.session.agent) && AllAlone(verify, start, actions, m.session.agent)
    ensures var s := Run(verify, start, actions);
            var m := s.minted[i];
            && m.session.agent in s.book.registrations
            && Validate(m.session, m.session.agent, s.book.registrations[m.session.agent].generation, name, now) == WrongGeneration
  {
    var s := Run(verify, start, actions);
    var r := s.minted[i].reading;
    RunKeeps(verify, start, actions);
    assert Backed(verify, s.minted[i]);
    RunGenuine(verify, start, actions);
    assert Genuine(verify, start, actions, r);
    assert actions[..k][..r.at] == actions[..r.at];
    PrefixAlone(verify, start, actions, r.agent, k);
    RowsAge(verify, start, actions[..k], r.at, r.agent);
    RotationAges(verify, start, actions, k, r.agent);
  }

  /** A session the handler accepts was minted for this agent, from a challenge that lists the
      method, on a signature under the key that is registered now, under the same condition. */
  lemma AcceptedSessionHasCurrentKey(
    verify: (string, Challenge, string) -> bool, start: map<string, Registration>, actions: seq<Action>,
    agent: string, sessionToken: string, name: string, now: int)
    requires Authenticate(Run(verify, start, actions).book, agent, sessionToken, name, now) == Verdict.Valid
    requires AllAlone(verify, start, actions, agent)
    ensures var s := Run(verify, start, actions);
            exists i :: 0 <= i < |s.minted| && s.minted[i].session == s.book.sessions[sessionToken]
              && s.minted[i].challenge.agent == agent && name in s.minted[i].challenge.methods
              && verify(s.book.registrations[agent].key, s.minted[i].challenge, s.minted[i].params.signature)
  {
    var s := Run(verify, start, actions);
    RunKeeps(verify, start, actions);
    RunGenuine(verify, start, actions);
    var i := Source(s.book, s.minted, sessionToken);
    AcceptedFits(verify, s.book, s.minted[i], agent, sessionToken, name, now);
    ReadingIsCurrent(verify, start, actions, s.minted[i].reading);
  }

  lemma AcceptedFits(verify: (string, Challenge, string) -> bool, b: Book, m: Minted, agent: string, sessionToken: string, name: string, now: int)
    requires Backed(verify, m) && Authenticate(b, agent, sessionToken, name, now) == Verdict.Valid && b.sessions[sessionToken] == m.session
    ensures m.challenge.agent == agent == m.reading.agent && name in m.challenge.methods
    ensures m.reading.row.generation == b.registrations[agent].generation && verify(m.reading.row.key, m.challenge, m.params.signature)
  {
  }

  lemma ReadingIsCurrent(verify: (string, Challenge, string) -> bool, start: map<string, Registration>, actions: seq<Action>, r: Reading)
    requires Genuine(verify, start, actions, r) && AllAlone(verify, start, actions, r.agent)
    requires var b := Run(verify, start, actions).book; r.agent in b.registrations && b.registrations[r.agent].generation == r.row.generation
    ensures Run(verify, start, actions).book.registrations[r.agent] == r.row
  {
    RowsAge(verify, start, actions, r.at, r.agent);
  }

  lemma Source(b: Book, minted: seq<Minted>, t: string) returns (i: nat)
    requires t in b.sessions && exists j :: 0 <= j < |minted| && minted[j].session == b.sessions[t]
    ensures i < |minted| && minted[i].session == b.sessions[t]
  {
    i :| 0 <= i < |minted| && minted[i].session == b.sessions[t];
  }

  // ---- overlapping rotations ----

  const Racing := [
    BeginRotation(0, "a", "t"), BeginRotation(1, "a", "t"), UpdateRow(0, "k1"),
    AskChallenge("a", "t", "e", ["m"], "n", 0), ReadRow(0, Params("a", "", "n", 2 * MINUTE, "k1")), TakeChallenge(0, 0),
    UpdateRow(1, "k2"), DropSessions(0), DropSessions(1), StoreSession(0, "s", 0)]

  /** Two rotations that read the same generation write the same generation: a session earned with
      the first new key, stored after both are over, is accepted although the second key is the
      registered one. */
  lemma OverlapKeepsOldKey(verify: (string, Challenge, string) -> bool)
    requires forall key, c, signature :: verify(key, c, signature) <==> signature == key
    ensures var s := Run(verify, map["a" := Registration("t", "e", "k0", 1)], Racing);
            && Authenticate(s.book, "a", "s", "m", 1) == Verdict.Valid && s.book.registrations["a"].key == "k2"
            && |s.minted| == 1 && s.book.sessions["s"] == s.minted[0].session
            && !verify("k2", s.minted[0].challenge, s.minted[0].params.signature)
  {
    var start := map["a" := Registration("t", "e", "k0", 1)];
    RacingIs();
    var s3 := RaceRotates(verify, start, Racing);
    var s6 := RaceReads(verify, s3, Racing);
    var s9 := RaceUpdates(verify, s6, Racing);
    RunTen(verify, start, Racing);
    RaceEnds(verify, s9);
    assert Run(verify, start, Racing) == Step(verify, s9, StoreSession(0, "s", 0));
  }

  predicate IsRace(a: seq<Action>) {
    && |a| == 10 && a[0] == BeginRotation(0, "a", "t") && a[1] == BeginRotation(1, "a", "t") && a[2] == UpdateRow(0, "k1")
    && a[3] == AskChallenge("a", "t", "e", ["m"], "n", 0) && a[4] == ReadRow(0, Params("a", "", "n", 2 * MINUTE, "k1"))
    && a[5] == TakeChallenge(0, 0) && a[6] == UpdateRow(1, "k2") && a[7] == DropSessions(0) && a[8] == DropSessions(1)
    && a[9] == StoreSession(0, "s", 0)
  }

  lemma RacingIs()
    ensures IsRace(Racing)
  {
  }

  lemma RunTen(verify: (string, Challenge, string) -> bool, start: map<string, Registration>, a: seq<Action>)
    requires |a| == 10
    ensures Run(verify, start, a) == Step(verify, Step(verify, Step(verify, Step(verify, Step(verify, Step(verify, Step(verify,
              Step(verify, Step(verify, Step(verify, Initial(start), a[0]), a[1]), a[2]), a[3]), a[4]), a[5]), a[6]), a[7]), a[8]), a[9])
  {
    assert a[..0] == [] && a[..10] == a;
    forall k | 0 <= k < 10 ensures Run(verify, start, a[..k + 1]) == Step(verify, Run(verify, start, a[..k]), a[k]) {
      assert a[..k + 1][..k] == a[..k];
    }
  }

  const RaceChallenge := Challenge("", "n", "a", "e", ["m"], 2 * MINUTE)

  /** The first rotation has written its key. */
  predicate RaceRotated(s: State) {
    && s.book == Book(map["a" := Registration("t", "e", "k1", 2)], map[], map[]) && s.time == 3
    && s.rotations == map[0 := Rotation("a", Registration("t", "e", "k0", 1), true), 1 := Rotation("a", Registration("t", "e", "k0", 1), false)]
    && s.boot == "" && s.calls == map[] && s.minted == [] && s.places == map[] && s.tokens == {}
  }

  /** An exchange has read it and passed. */
  predicate RaceOn(s: State) {
    && s.book.registrations == map["a" := Registration("t", "e", "k1", 2)] && s.book.sessions == map[]
    && s.rotations == map[0 := Rotation("a", Registration("t", "e", "k0", 1), true), 1 := Rotation("a", Registration("t", "e", "k0", 1), false)]
    && 0 in s.calls && s.calls[0] == Call(Params("a", "", "n", 2 * MINUTE, "k1"), Reading("a", 4, Registration("t", "e", "k1", 2)), Some(RaceChallenge), 0)
    && s.minted == [] && s.tokens == {}
  }

  lemma RaceRotates(verify: (string, Challenge, string) -> bool, start: map<string, Registration>, a: seq<Action>) returns (s3: State)
    requires IsRace(a) && start == map["a" := Registration("t", "e", "k0", 1)]
    ensures s3 == Step(verify, Step(verify, Step(verify, Initial(start), a[0]), a[1]), a[2]) && RaceRotated(s3)
  {
    s3 := Step(verify, Step(verify, Step(verify, Initial(start), a[0]), a[1]), a[2]);
    assert s3.book.registrations == map["a" := Registration("t", "e", "k1", 2)];
  }

  lemma RaceReads(verify: (string, Challenge, string) -> bool, s3: State, a: seq<Action>) returns (s6: State)
    requires IsRace(a) && RaceRotated(s3) && forall key, c, signature :: verify(key, c, signature) <==> signature == key
    ensures s6 == Step(verify, Step(verify, Step(verify, s3, a[3]), a[4]), a[5]) && RaceOn(s6)
  {
    var s4 := Step(verify, s3, a[3]);
    var p := Params("a", "", "n", 2 * MINUTE, "k1");
    assert s4.book.challenges == map[Key("a", "n") := RaceChallenge] && s4.book.registrations == s3.book.registrations;
    var s5 := Step(verify, s4, a[4]);
    assert s5.calls[0] == Call(p, Reading("a", 4, Registration("t", "e", "k1", 2)), None, 0) && Found(s5.book, p) == Some(RaceChallenge);
    s6 := Step(verify, s5, a[5]);
  }

  lemma RaceUpdates(verify: (string, Challenge, string) -> bool, s6: State, a: seq<Action>) returns (s9: State)
    requires IsRace(a) && RaceOn(s6)
    ensures s9 == Step(verify, Step(verify, Step(verify, s6, a[6]), a[7]), a[8]) && RaceOver(s9)
  {
    s9 := Step(verify, Step(verify, Step(verify, s6, a[6]), a[7]), a[8]);
  }

  /** The second rotation has written its key, and both have dropped the sessions there were. */
  predicate RaceOver(s: State) {
    && "a" in s.book.registrations && s.book.registrations["a"] == Registration("t", "e", "k2", 2)
    && 0 in s.calls && s.calls[0] == Call(Params("a", "", "n", 2 * MINUTE, "k1"), Reading("a", 4, Registration("t", "e", "k1", 2)), Some(RaceChallenge), 0)
    && s.minted == [] && s.tokens == {}
  }

  lemma RaceEnds(verify: (string, Challenge, string) -> bool, s9: State)
    requires RaceOver(s9) && forall key, c, signature :: verify(key, c, signature) <==> signature == key
    ensures var s := Step(verify, s9, StoreSession(0, "s", 0));
            && Authenticate(s.book, "a", "s", "m", 1) == Verdict.Valid && s.book.registrations["a"].key == "k2"
            && |s.minted| == 1 && s.book.sessions["s"] == s.minted[0].session
            && !verify("k2", s.minted[0].challenge, s.minted[0].params.signature)
  {
  }

  // ---- times: a challenge lives two minutes, a session fifteen ----

  /** The challenge was handed out, and runs out two minutes after that. */
  predicate TwoMinutes(issued: map<string, int>, c: Challenge) {
    c.nonce in issued && c.expiresAt == issued[c.nonce] + 120_000_000_000
  }

  predicate TakenInTime(issued: map<string, int>, c: Challenge, takenAt: int) {
    TwoMinutes(issued, c) && takenAt < issued[c.nonce] + 120_000_000_000
  }

  predicate MintedInTime(issued: map<string, int>, m: Minted) {
    TakenInTime(issued, m.challenge, m.takenAt) && m.session.expiresAt == m.storedAt + 900_000_000_000
  }

  predicate Timely(s: State) {
    && s.issued.Keys == s.places.Keys
    && (forall k <- s.book.challenges :: TwoMinutes(s.issued, s.book.challenges[k]))
    && (forall id <- s.calls | s.calls[id].taken.Some? :: TakenInTime(s.issued, s.calls[id].taken.value, s.calls[id].takenAt))
    && (forall i :: 0 <= i < |s.minted| ==> MintedInTime(s.issued, s.minted[i]))
    && (forall t <- s.book.sessions :: s.book.sessions[t].token == t)
  }

  lemma TakeTimely(verify: (string, Challenge, string) -> bool, s: State, id: nat, now: int)
    requires Placed(s) && Timely(s) && id in s.calls && s.calls[id].taken.None?
    ensures Timely(DoTake(verify, s, id, now))
  {
  }

  lemma StoreTimely(s: State, id: nat, token: string, now: int)
    requires Placed(s) && Timely(s) && id in s.calls && s.calls[id].taken.Some?
    ensures Timely(DoStore(s, id, token, now))
  {
  }

  lemma AskTimely(s: State, agent: string, token: string, endpoint: string, methods: seq<string>, nonce: string, now: int)
    requires Placed(s) && Timely(s) && nonce !in s.places
    ensures Timely(DoAsk(s, agent, token, endpoint, methods, nonce, now))
  {
  }

  lemma QuietTimely(s: State, s': State)
    requires Timely(s) && Quiet(s, s')
    ensures Timely(s')
  {
  }

  lemma EffectTimely(verify: (string, Challenge, string) -> bool, s: State, a: Action)
    requires Placed(s) && Timely(s) && !IsQuiet(s, a)
    ensures Timely(Effect(verify, s, a))
  {
    match a
    case AskChallenge(agent, token, endpoint, methods, nonce, now) => AskTimely(s, agent, token, endpoint, methods, nonce, now);
    case ReadRow(id, params) =>
    case TakeChallenge(id, now) => TakeTimely(verify, s, id, now);
    case StoreSession(id, token, now) => StoreTimely(s, id, token, now);
  }

  lemma StepTimely(verify: (string, Challenge, string) -> bool, s: State, a: Action)
    requires Placed(s) && Timely(s)
    ensures Timely(Step(verify, s, a))
  {
    if IsQuiet(s, a) {
      QuietStep(verify, s, a);
      QuietTimely(s, Step(verify, s, a));
    } else {
      EffectTimely(verify, s, a);
      QuietTimely(Effect(verify, s, a), Step(verify, s, a));
    }
  }

  lemma {:induction false} RunTimely(verify: (string, Challenge, string) -> bool, start: map<string, Registration>, actions: seq<Action>)
    ensures Timely(Run(verify, start, actions))
    decreases actions
  {
    if actions != [] {
      var front := actions[..|actions| - 1];
      RunTimely(verify, start, front);
      RunKeeps(verify, start, front);
      StepTimely(verify, Run(verify, start, front), actions[|actions| - 1]);
    }
  }

  /** What Authenticate says of a session, written out from how it was minted. */
  ghost predicate AcceptedLike(b: Book, sessionToken: string, m: Minted) {
    forall agent, name, now :: Authenticate(b, agent, sessionToken, name, now) == Verdict.Valid <==> (
      && m.params.agent == agent && agent in b.registrations
      && m.reading.row.generation == b.registrations[agent].generation
      && name in m.challenge.methods && now < m.storedAt + 900_000_000_000)
  }

  lemma AcceptedBy(verify: (string, Challenge, string) -> bool, issued: map<string, int>, b: Book, sessionToken: string, m: Minted)
    requires sessionToken in b.sessions && b.sessions[sessionToken] == m.session
    requires Backed(verify, m) && MintedInTime(issued, m)
    ensures AcceptedLike(b, sessionToken, m)
  {
  }

  /** A session in the book was minted in this run, on a challenge taken within two minutes of being
      handed out, and it is accepted exactly by the agent it was minted for, for a method its
      challenge lists, while the registration is of the generation that was read, and for fifteen
      minutes after it was stored. */
  lemma AcceptedExactly(verify: (string, Challenge, string) -> bool, start: map<string, Registration>, actions: seq<Action>, sessionToken: string)
    returns (i: nat)
    requires sessionToken in Run(verify, start, actions).book.sessions
    ensures var s := Run(verify, start, actions);
            && i < |s.minted| && s.minted[i].session == s.book.sessions[sessionToken] && s.minted[i].session.token == sessionToken
            && TakenInTime(s.issued, s.minted[i].challenge, s.minted[i].takenAt)
            && AcceptedLike(s.book, sessionToken, s.minted[i])
  {
    var s := Run(verify, start, actions);
    RunKeeps(verify, start, actions);
    RunTimely(verify, start, actions);
    RunGenuine(verify, start, actions);
    i := Source(s.book, s.minted, sessionToken);
    AcceptedBy(verify, s.issued, s.book, sessionToken, s.minted[i]);
  }

  /** The four steps of an exchange from any state: a challenge asked for with the agent's token,
      signed under the registered key and taken within two minutes, makes a session for the methods
      asked for. */
  lemma ExchangeCompletes(
    verify: (string, Challenge, string) -> bool, s: State, agent: string, token: string, endpoint: string, methods: seq<string>,
    nonce: string, signature: string, id: nat, session: string, asked: int, taken: int, stored: int, name: string, now: int)
    requires agent in s.book.registrations && s.book.registrations[agent].token == token
    requires s.book.registrations[agent].key != "" && s.book.registrations[agent].generation != 0
    requires nonce !in s.places && id !in s.calls && session !in s.tokens
    requires verify(s.book.registrations[agent].key, Asked(s, agent, endpoint, methods, nonce, asked), signature)
    requires taken < asked + 120_000_000_000 && now < stored + 900_000_000_000
    requires name in if methods == [] then DEFAULT_METHODS else methods
    ensures var p := Params(agent, s.boot, nonce, asked + 120_000_000_000, signature);
            var s1 := Step(verify, s, AskChallenge(agent, token, endpoint, methods, nonce, asked));
            var s2 := Step(verify, s1, ReadRow(id, p));
            var s3 := Step(verify, s2, TakeChallenge(id, taken));
            var s4 := Step(verify, s3, StoreSession(id, session, stored));
            Authenticate(s4.book, agent, session, name, now) == Verdict.Valid
  {
    var p := Params(agent, s.boot, nonce, asked + 120_000_000_000, signature);
    var c := Asked(s, agent, endpoint, methods, nonce, asked);
    var s1 := Step(verify, s, AskChallenge(agent, token, endpoint, methods, nonce, asked));
    Asks(verify, s, agent, token, endpoint, methods, nonce, asked, p);
    Reads(verify, s1, id, p);
    var s2 := Step(verify, s1, ReadRow(id, p));
    Takes(verify, s2, id, c, taken);
    Stores(verify, Step(verify, s2, TakeChallenge(id, taken)), id, c, session, stored, name, now);
  }

  lemma Asks(verify: (string, Challenge, string) -> bool, s: State, agent: string, token: string, endpoint: string, methods: seq<string>, nonce: string, asked: int, p: Params)
    requires agent in s.book.registrations && s.book.registrations[agent].token == token && nonce !in s.places
    requires s.book.registrations[agent].key != "" && s.book.registrations[agent].generation != 0 && p.agent == agent && p.nonce == nonce
    ensures var s1 := Step(verify, s, AskChallenge(agent, token, endpoint, methods, nonce, asked));
            && Found(s1.book, p) == Some(Asked(s, agent, endpoint, methods, nonce, asked))
            && s1.book.registrations == s.book.registrations && s1.calls == s.calls && s1.tokens == s.tokens
  {
  }

  lemma Reads(verify: (string, Challenge, string) -> bool, s: State, id: nat, p: Params)
    requires p.agent in s.book.registrations && id !in s.calls
    ensures var s' := Step(verify, s, ReadRow(id, p));
            && s'.book == s.book && s'.tokens == s.tokens && id in s'.calls
            && s'.calls[id] == Call(p, Reading(p.agent, s.time, s.book.registrations[p.agent]), None, 0)
  {
  }

  lemma Takes(verify: (string, Challenge, string) -> bool, s: State, id: nat, c: Challenge, taken: int)
    requires id in s.calls && s.calls[id].taken == None && Found(s.book, s.calls[id].params) == Some(c)
    requires c.boot == s.calls[id].params.boot && c.agent == s.calls[id].params.agent && c.expiresAt == s.calls[id].params.expiresAt && taken < c.expiresAt
    requires s.calls[id].reading.row.key != "" && verify(s.calls[id].reading.row.key, c, s.calls[id].params.signature)
    ensures var s' := Step(verify, s, TakeChallenge(id, taken));
            && s'.book.registrations == s.book.registrations && s'.tokens == s.tokens && id in s'.calls
            && s'.calls[id] == s.calls[id].(taken := Some(c), takenAt := taken)
  {
  }

  lemma Stores(verify: (string, Challenge, string) -> bool, s: State, id: nat, c: Challenge, session: string, stored: int, name: string, now: int)
    requires id in s.calls && s.calls[id].taken == Some(c) && session !in s.tokens
    requires s.calls[id].params.agent in s.book.registrations && s.book.registrations[s.calls[id].params.agent].generation == s.calls[id].reading.row.generation
    requires name in c.methods && now < stored + 900_000_000_000
    ensures Authenticate(Step(verify, s, StoreSession(id, session, stored)).book, s.calls[id].params.agent, session, name, now) == Verdict.Valid
  {
  }

  /** An exchange whose challenge is unknown, foreign, out of time or wrongly signed ends there, and the
      challenge, if there was one, is gone. */
  lemma ExchangeFails(verify: (string, Challenge, string) -> bool, s: State, id: nat, now: int)
    requires id in s.calls && s.calls[id].taken == None
    requires var call := s.calls[id];
             forall c :: Found(s.book, call.params) == Some(c) ==>
               !(&& c.boot == call.params.boot && c.agent == call.params.agent && c.expiresAt == call.params.expiresAt && now < c.expiresAt
                 && call.reading.row.key != "" && verify(call.reading.row.key, c, call.params.signature))
    ensures var s' := Step(verify, s, TakeChallenge(id, now));
            && id !in s'.calls && s'.book.sessions == s.book.sessions && s'.book.registrations == s.book.registrations && s'.minted == s.minted
            && Key(s.calls[id].params.agent, s.calls[id].params.nonce) !in s'.book.challenges
  {
  }

  /** The challenge as the protocol documents it. */
  function Asked(s: State, agent: string, endpoint: string, methods: seq<string>, nonce: string, now: int): Challenge
    requires agent in s.book.registrations
  {
    Challenge(s.boot, nonce, agent, if endpoint == "" then s.book.registrations[agent].endpoint else endpoint,
              if methods == [] then DEFAULT_METHODS else methods, now + 120_000_000_000)
  }

  /** A rotation with the agent's token replaces the key and raises the generation by one, ends the
      agent's sessions if the key was persisted, and leaves everything else alone. */
  lemma RotateExactly(b: Book, agent: string, token: string, key: string, persisted: bool)
    requires agent in b.registrations && b.registrations[agent].token == token && 1 <= b.registrations[agent].generation
    ensures var b' := Rotate(b, agent, token, key, persisted);
            && b'.challenges == b.challenges
            && if b.registrations[agent].generation + 1 < 0x8000_0000_0000_0000 then
                 && b'.registrations == b.registrations[agent := Registration(token, b.registrations[agent].endpoint, key, b.registrations[agent].generation + 1)]
                 && (forall t :: t in b'.sessions <==> t in b.sessions && (persisted ==> b.sessions[t].agent != agent))
                 && (forall t <- b'.sessions :: b'.sessions[t] == b.sessions[t])
               else b' == b
  {
  }

  /** A challenge is handed out exactly to an agent that shows its registration token and has a capability. */
  lemma ChallengeExactly(b: Book, boot: string, agent: string, token: string, endpoint: string, methods: seq<string>, nonce: string, now: int)
    ensures NewChallenge(b, boot, agent, token, endpoint, methods, nonce, now).Some? <==>
            agent in b.registrations && b.registrations[agent].token == token && b.registrations[agent].key != "" && b.registrations[agent].generation >= 1
  {
  }

  /** Without that token a rotation changes nothing; the first rotation of an agent without a generation
      starts at one, or at two if there was a key. */
  lemma RotateOtherwise(b: Book, agent: string, token: string, key: string, persisted: bool)
    ensures !(agent in b.registrations && b.registrations[agent].token == token) ==> Rotate(b, agent, token, key, persisted) == b
    ensures agent in b.registrations && b.registrations[agent].token == token && b.registrations[agent].generation == 0 ==>
              agent in Rotate(b, agent, token, key, persisted).registrations
              && Rotate(b, agent, token, key, persisted).registrations[agent] ==
                 Registration(token, b.registrations[agent].endpoint, key, if b.registrations[agent].key != "" then 2 else 1)
  {
  }

  /** In a run, the three steps of a rotation with nothing in between are the rotation; an unauthentic
      one does not begin, and one whose generation would not fit ends at the update. */
  lemma RotationSteps(verify: (string, Challenge, string) -> bool, s: State, id: nat, agent: string, token: string, key: string)
    requires id !in s.rotations
    ensures var s1 := Step(verify, s, BeginRotation(id, agent, token));
            var s2 := Step(verify, s1, UpdateRow(id, key));
            var s3 := Step(verify, s2, DropSessions(id));
            && s2.book == Rotate(s.book, agent, token, key, false) && s3.book == Rotate(s.book, agent, token, key, true)
            && s3 == s.(book := s3.book, time := s.time + 3)
  {
    var s1 := Step(verify, s, BeginRotation(id, agent, token));
    if Authentic(s.book, agent, token) {
      RotationMoves(verify, s, id, agent, token, key);
    }
  }

  lemma RotationMoves(verify: (string, Challenge, string) -> bool, s: State, id: nat, agent: string, token: string, key: string)
    requires id !in s.rotations && Authentic(s.book, agent, token)
    ensures var s1 := Step(verify, s, BeginRotation(id, agent, token));
            var s2 := Step(verify, s1, UpdateRow(id, key));
            var s3 := Step(verify, s2, DropSessions(id));
            && s2.book == Rotate(s.book, agent, token, key, false) && s3.book == Rotate(s.book, agent, token, key, true)
            && s3 == s.(book := s3.book, time := s.time + 3)
  {
    var s1 := Step(verify, s, BeginRotation(id, agent, token));
    assert s1 == s.(rotations := s.rotations[id := Rotation(agent, s.book.registrations[agent], false)], time := s.time + 1);
    RotationEnds(verify, s1, id, agent, token, key);
    assert s1.rotations - {id} == s.rotations;
  }

  lemma RotationEnds(verify: (string, Challenge, string) -> bool, s: State, id: nat, agent: string, token: string, key: string)
    requires Authentic(s.book, agent, token) && id in s.rotations && s.rotations[id] == Rotation(agent, s.book.registrations[agent], false)
    ensures var s2 := Step(verify, s, UpdateRow(id, key));
            var s3 := Step(verify, s2, DropSessions(id));
            && s2.book == Rotate(s.book, agent, token, key, false) && s3.book == Rotate(s.book, agent, token, key, true)
            && s3 == s.(book := s3.book, rotations := s.rotations - {id}, time := s.time + 2)
  {
    UpdateStep(verify, s, id, agent, token, key);
    if NextGeneration(s.rotations[id].row) < GENERATION_LIMIT {
      DropStep(verify, Step(verify, s, UpdateRow(id, key)), id);
    }
  }

  lemma UpdateStep(verify: (string, Challenge, string) -> bool, s: State, id: nat, agent: string, token: string, key: string)
    requires Authentic(s.book, agent, token) && id in s.rotations && s.rotations[id] == Rotation(agent, s.book.registrations[agent], false)
    ensures var s' := Step(verify, s, UpdateRow(id, key));
            if NextGeneration(s.book.registrations[agent]) < GENERATION_LIMIT
            then s' == s.(book := Rotate(s.book, agent, token, key, false), rotations := s.rotations[id := Rotation(agent, s.book.registrations[agent], true)], time := s.time + 1)
            else s' == s.(rotations := s.rotations - {id}, time := s.time + 1)
  {
  }

  lemma DropStep(verify: (string, Challenge, string) -> bool, s: State, id: nat)
    requires id in s.rotations && s.rotations[id].updated
    ensures Step(verify, s, DropSessions(id)) == s.(book := s.book.(sessions := WithoutAgent(s.book.sessions, s.rotations[id].agent)), rotations := s.rotations - {id}, time := s.time + 1)
  {
  }

  /** A registration starts at generation one; a restart, under a new boot id, forgets challenges,
      sessions and whatever was in progress, and keeps the registrations. */
  lemma RegisterAndRestart(verify: (string, Challenge, string) -> bool, s: State, agent: string, token: string, endpoint: string, key: string, boot: string)
    ensures agent !in s.book.registrations ==>
              Step(verify, s, Register(agent, token, endpoint, key)) ==
              s.(book := s.book.(registrations := s.book.registrations[agent := Registration(token, endpoint, key, 1)]), time := s.time + 1)
    ensures Step(verify, s, Restart(boot)) ==
            State(Book(s.book.registrations, map[], map[]), boot, s.time + 1, map[], map[], s.minted, s.places, s.issued, s.tokens)
  {
  }

  // ---- the handler ----

  /** Challenges lie under their own key; sessions lie under their own token, belong to a registered
      agent and are of no later generation than its registration. */
  predicate Orderly(b: Book) {
    && (forall k <- b.challenges :: k == Key(b.challenges[k].agent, b.challenges[k].nonce))
    && (forall t <- b.sessions :: SessionFits(b, t))
  }

  predicate SessionFits(b: Book, t: string)
    requires t in b.sessions
  {
    var s := b.sessions[t];
    s.token == t && s.agent in b.registrations && s.generation <= b.registrations[s.agent].generation
  }

  lemma RotateOrderly(b: Book, agent: string, token: string, key: string, persisted: bool)
    requires Orderly(b)
    ensures Orderly(Rotate(b, agent, token, key, persisted))
  {
    var b' := Rotate(b, agent, token, key, persisted);
    forall t | t in b'.sessions ensures SessionFits(b', t) { assert SessionFits(b, t); }
  }

  class Handler {
    var registrations: map<string, Registration>
    var challenges: map<string, Challenge>
    var sessions: map<string, Session>
    const bootId: string

    ghost function Tables(): Book reads this { Book(registrations, challenges, sessions) }

    ghost predicate Valid()
      reads this
    {
      Orderly(Tables())
    }

    constructor (bootId: string, registrations: map<string, Registration>)
      ensures Valid() && Tables() == Book(registrations, map[], map[]) && this.bootId == bootId
    {
      this.bootId := bootId;
      this.registrations := registrations;
      challenges := map[];
      sessions := map[];
    }

    method CapabilityChallenge(agent: string, token: string, endpoint: string, methods: seq<string>, nonce: string, now: int) returns (r: Option<Challenge>)
      requires Valid()
      modifies this`challenges
      ensures Valid()
      ensures r == NewChallenge(old(Tables()), bootId, agent, token, endpoint, methods, nonce, now)
      ensures Tables() == if r.Some? then PutChallenge(old(Tables()), r.value) else old(Tables())
    {
      if agent !in registrations || registrations[agent].token != token {
        return None;
      }
      var row := registrations[agent];
      if row.key == "" || row.generation == 0 {
        return None;
      }
      var allowed := methods;
      if |allowed| == 0 {
        allowed := DEFAULT_METHODS;
      }
      var endpointDigest := endpoint;
      if endpointDigest == "" {
        endpointDigest := row.endpoint;
      }
      var challenge := Challenge(bootId, nonce, agent, endpointDigest, allowed, now + 2 * MINUTE);
      challenges := challenges[Key(agent, challenge.nonce) := challenge];
      return Some(challenge);
    }

    /** An exchange that nothing interrupts. */
    method CapabilityExchange(verify: (string, Challenge, string) -> bool, p: Params, token: string, now: int) returns (r: Option<Session>)
      requires Valid()
      modifies this`challenges, this`sessions
      ensures Valid()
      ensures r.Some? ==> p.agent in registrations && r.value.agent == p.agent && r.value.generation == registrations[p.agent].generation && Key(p.agent, p.nonce) !in challenges
      ensures var b := old(Tables());
              if p.agent !in b.registrations then r == None && Tables() == b
              else
                var c := Found(b, p);
                var row := b.registrations[p.agent];
                if c.Some? && Passes(verify, c.value, p, row, now)
                then r == Some(Mint(p, row, c.value, token, now)) && Tables() == TakeFrom(b, p).(sessions := b.sessions[token := r.value])
                else r == None && Tables() == TakeFrom(b, p)
    {
      if p.agent !in registrations {
        return None;
      }
      var row := registrations[p.agent];
      var key := Key(p.agent, p.nonce);
      if key !in challenges {
        assert challenges - {key} == challenges;
        return None;
      }
      var challenge := challenges[key];
      challenges := challenges - {key};
      if challenge.boot != p.boot || challenge.agent != p.agent || challenge.expiresAt != p.expiresAt || !(now < challenge.expiresAt) {
        return None;
      }
      if row.key == "" || !verify(row.key, challenge, p.signature) {
        return None;
      }
      var session := Session(token, p.agent, row.generation, challenge.methods, now + 15 * MINUTE);
      sessions := sessions[session.token := session];
      return Some(session);
    }

    method RotateCapability(agent: string, token: string, key: string, persisted: bool) returns (ok: bool)
      requires Valid()
      modifies this
      ensures Valid() && challenges == old(challenges)
      ensures registrations.Keys == old(registrations).Keys
      ensures ok ==> agent in registrations && registrations[agent].generation > old(registrations)[agent].generation
      ensures ok ==> forall t <- sessions :: sessions[t].agent != agent
      ensures forall a <- old(registrations) :: a != agent ==> registrations[a] == old(registrations)[a]
      ensures forall t <- old(sessions) :: old(sessions)[t].agent != agent ==> t in sessions && sessions[t] == old(sessions)[t]
      ensures Tables() == Rotate(old(Tables()), agent, token, key, persisted)
      ensures ok <==> CanRotate(old(Tables()), agent, token) && persisted
    {
      RotateOrderly(Tables(), agent, token, key, persisted);
      if agent !in registrations || registrations[agent].token != token {
        return false;
      }
      var row := registrations[agent];
      var generation := row.generation + 1;
      if generation == 1 && row.key != "" {
        generation := 2;
      }
      if generation >= GENERATION_LIMIT {
        return false;
      }
      registrations := registrations[agent := row.(key := key, generation := generation)];
      if !persisted {
        return false;
      }
      DropSessions(agent);
      return true;
    }

    /** The loop over the session map. */
    method DropSessions(agent: string)
      modifies this
      ensures registrations == old(registrations) && challenges == old(challenges)
      ensures sessions == WithoutAgent(old(sessions), agent)
    {
      var left := sessions.Keys;
      while left != {}
        invariant left <= old(sessions).Keys
        invariant registrations == old(registrations) && challenges == old(challenges)
        invariant forall t :: t in sessions <==> t in old(sessions) && (t in left || old(sessions)[t].agent != agent)
        invariant forall t <- sessions :: sessions[t] == old(sessions)[t]
        decreases |left|
      {
        var t :| t in left;
        if t in sessions && sessions[t].agent == agent {
          sessions := sessions - {t};
        }
        left := left - {t};
      }
    }

    method AuthenticateMethod(agent: string, registrationToken: string, sessionToken: string, name: string, now: int) returns (accepted: bool)
      ensures accepted && sessionToken != "" ==> sessionToken in sessions && sessions[sessionToken].agent == agent && name in sessions[sessionToken].methods
      ensures accepted <==> if sessionToken == "" then Authentic(Tables(), agent, registrationToken)
                            else Authenticate(Tables(), agent, sessionToken, name, now) == Verdict.Valid
    {
      if sessionToken == "" {
        return agent in registrations && registrations[agent].token == registrationToken;
      }
      if sessionToken !in sessions || agent !in registrations {
        return false;
      }
      var v := ValidateSession(sessions[sessionToken], agent, registrations[agent].generation, name, now);
      return v == Verdict.Valid;
    }
  }
}
