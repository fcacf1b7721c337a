/** Ingress capabilities of the Codex relay: IngressCapability of
    adapters/snw-agent-link-codex/snw_agent_link_codex/relay.py, whose nonce table is bounded, against
    the same object with an unbounded history. A token stands for its hash. */
module NonceWindow {
  import opened Text
  import opened Decimal

  datatype Claims = Claims(message: string, fingerprint: string)

  datatype Entry = Entry(nonce: string, claims: Claims)

  /** A capability; its nonce dictionary is listed in insertion order. */
  datatype Capability = Capability(agent: string, expiresAt: int, nonces: seq<Entry>)

  type Table = map<string, Capability>

  const WINDOW := 4096

  function Lookup(entries: seq<Entry>, nonce: string): Option<Claims> {
    if entries == [] then None
    else if entries[0].nonce == nonce then Some(entries[0].claims)
    else Lookup(entries[1..], nonce)
  }

  /** The newest entries, as many as the table keeps. */
  function Newest(entries: seq<Entry>): seq<Entry> {
    if |entries| > WINDOW then entries[|entries| - WINDOW..] else entries
  }

  datatype Action =
    | Issue(token: string, agent: string, ttl: int, now: int)
    | Register(token: string, agent: string, ttl: int, now: int)
    | Revoke(token: string)
    | Verify(token: string, agent: string, nonce: string, claims: Claims, now: int)
    | Check(token: string, agent: string, now: int)

  datatype Outcome = Done | BadArguments | Invalid | OtherAgent | OtherClaims | Answer(duplicate: bool)

  /** The relay drops the oldest entry of a table that has grown too long; the reference keeps everything. */
  datatype Memory = Bounded | Unbounded {
    function Keep(entries: seq<Entry>): seq<Entry> { if Bounded? && |entries| > WINDOW then entries[1..] else entries }
  }

  function Grant(t: Table, token: string, agent: string, expiresAt: int): Table {
    t[token := Capability(agent, expiresAt, [])]
  }

  /** Shared head of verify and check: a dead capability is dropped. */
  function Admit(t: Table, token: string, agent: string, now: int): (Table, Outcome) {
    if token !in t then (t, Invalid)
    else if t[token].expiresAt < now then (t - {token}, Invalid)
    else if t[token].agent != agent then (t, OtherAgent)
    else (t, Done)
  }

  function Claim(memory: Memory, t: Table, token: string, e: Entry): (Table, Outcome)
    requires token in t
  {
    var c := t[token];
    match Lookup(c.nonces, e.nonce)
    case Some(previous) => (t, if previous != e.claims then OtherClaims else Answer(true))
    case None => (t[token := c.(nonces := memory.Keep(c.nonces + [e]))], Answer(false))
  }

  function Step(memory: Memory, t: Table, a: Action): (Table, Outcome) {
    match a
    case Issue(token, agent, ttl, now) => if agent == "" || ttl <= 0 then (t, BadArguments) else (Grant(t, token, agent, now + ttl), Done)
    case Register(token, agent, ttl, now) => if token == "" || agent == "" then (t, BadArguments) else (Grant(t, token, agent, now + ttl), Done)
    case Revoke(token) => (t - {token}, Done)
    case Check(token, agent, now) => if token == "" then (t, BadArguments) else Admit(t, token, agent, now)
    case Verify(token, agent, nonce, claims, now) =>
      if token == "" || nonce == "" || claims.message == "" then (t, BadArguments)
      else
        var (t', outcome) := Admit(t, token, agent, now);
        if outcome != Done then (t', outcome) else Claim(memory, t, token, Entry(nonce, claims))
  }

  /** The table after a run, and what every call answered. */
  function Run(memory: Memory, actions: seq<Action>): (Table, seq<Outcome>) {
    if actions == [] then (map[], [])
    else
      var (t, outcomes) := Run(memory, actions[..|actions| - 1]);
      var (t', outcome) := Step(memory, t, actions[|actions| - 1]);
      (t', outcomes + [outcome])
  }

  // ---- the window holds the newest insertions ----

  /** The nonces entered for a token since it was last granted, read off the answers alone. */
  function Inserted(actions: seq<Action>, token: string): seq<Entry> {
    if actions == [] then []
    else
      var front, a := actions[..|actions| - 1], actions[|actions| - 1];
      var outcome := Step(Bounded, Run(Bounded, front).0, a).1;
      if (a.Issue? || a.Register?) && a.token == token && outcome == Done then []
      else if a.Verify? && a.token == token && outcome == Answer(false) then Inserted(front, token) + [Entry(a.nonce, a.claims)]
      else Inserted(front, token)
  }

  predicate Distinct(entries: seq<Entry>) {
    forall i, j :: 0 <= i < j < |entries| ==> entries[i].nonce != entries[j].nonce
  }

  lemma {:induction false} LookupNone(entries: seq<Entry>, nonce: string)
    ensures Lookup(entries, nonce) == None <==> forall i :: 0 <= i < |entries| ==> entries[i].nonce != nonce
    decreases entries
  {
    if entries != [] {
      LookupNone(entries[1..], nonce);
      assert forall i :: 0 < i < |entries| ==> entries[i] == entries[1..][i - 1];
    }
  }

  lemma NewestAppend(entries: seq<Entry>, e: Entry)
    ensures Bounded.Keep(Newest(entries) + [e]) == Newest(entries + [e])
  {
  }

  lemma NewestDistinct(entries: seq<Entry>, e: Entry)
    requires Distinct(Newest(entries)) && Lookup(Newest(entries), e.nonce) == None
    ensures Distinct(Newest(entries + [e]))
  {
    LookupNone(Newest(entries), e.nonce);
    NewestAppend(entries, e);
    assert Distinct(Newest(entries) + [e]);
  }

  /** In every run, each live capability's table holds exactly the last min(n, 4096) of its n
      insertions, in insertion order and without repetition. */
  lemma {:induction false} WindowIsNewest(actions: seq<Action>, token: string)
    requires token in Run(Bounded, actions).0
    ensures Run(Bounded, actions).0[token].nonces == Newest(Inserted(actions, token))
    ensures Distinct(Newest(Inserted(actions, token)))
    decreases actions
  {
    var front, a := actions[..|actions| - 1], actions[|actions| - 1];
    var t := Run(Bounded, front).0;
    if token in t {
      WindowIsNewest(front, token);
      WindowStep(t, a, token, Inserted(front, token));
    }
    assert Run(Bounded, actions).0 == Step(Bounded, t, a).0;
  }

  lemma WindowStep(t: Table, a: Action, token: string, inserted: seq<Entry>)
    requires token in t && t[token].nonces == Newest(inserted) && Distinct(Newest(inserted))
    ensures var (t', outcome) := Step(Bounded, t, a);
            token in t' ==>
              if (a.Issue? || a.Register?) && a.token == token && outcome == Done then t'[token].nonces == []
              else if a.Verify? && a.token == token && outcome == Answer(false) then
                var now := inserted + [Entry(a.nonce, a.claims)];
                t'[token].nonces == Newest(now) && Distinct(Newest(now))
              else t'[token].nonces == Newest(inserted)
  {
    if a.Verify? && a.token == token && Lookup(t[token].nonces, a.nonce) == None {
      NewestAppend(inserted, Entry(a.nonce, a.claims));
      NewestDistinct(inserted, Entry(a.nonce, a.claims));
    }
  }

  // ---- agreement with an unbounded history ----

  /** The two tables grant the same, and the relay remembers the newest of what the reference remembers. */
  predicate Tracks(b: Table, u: Table) {
    && b.Keys == u.Keys
    && forall token <- b :: b[token].agent == u[token].agent && b[token].expiresAt == u[token].expiresAt
                            && b[token].nonces == Newest(u[token].nonces) && Distinct(u[token].nonces)
  }

  /** A call that reaches a nonce the reference knows and the window has lost. */
  predicate Forgotten(u: Table, a: Action) {
    && a.Verify? && a.token != "" && a.nonce != "" && a.claims.message != ""
    && Admit(u, a.token, a.agent, a.now).1 == Done
    && Lookup(u[a.token].nonces, a.nonce) != None && Lookup(Newest(u[a.token].nonces), a.nonce) == None
  }

  lemma {:induction false} LookupSuffix(entries: seq<Entry>, k: nat, nonce: string)
    requires k <= |entries| && Distinct(entries) && Lookup(entries[k..], nonce) != None
    ensures Lookup(entries, nonce) == Lookup(entries[k..], nonce)
    decreases entries
  {
    if k > 0 {
      LookupNone(entries[k..], nonce);
      var i :| 0 <= i < |entries[k..]| && entries[k..][i].nonce == nonce;
      assert entries[k + i].nonce == nonce && entries[0].nonce != nonce;
      assert entries[1..][k - 1..] == entries[k..];
      assert Distinct(entries[1..]);
      LookupSuffix(entries[1..], k - 1, nonce);
    } else {
      assert entries[k..] == entries;
    }
  }

  /** The window answers a look-up like the whole history, unless it has lost the nonce. */
  lemma NewestLookup(entries: seq<Entry>, nonce: string)
    requires Distinct(entries)
    ensures Lookup(Newest(entries), nonce) == Lookup(entries, nonce) || (Lookup(Newest(entries), nonce) == None && Lookup(entries, nonce) != None)
  {
    if |entries| > WINDOW && Lookup(Newest(entries), nonce) != None {
      LookupSuffix(entries, |entries| - WINDOW, nonce);
    }
  }

  lemma ClaimAgrees(b: Table, u: Table, token: string, e: Entry)
    requires Tracks(b, u) && token in b
    ensures var forgotten := Lookup(u[token].nonces, e.nonce) != None && Lookup(b[token].nonces, e.nonce) == None;
            && (Claim(Bounded, b, token, e).1 == Claim(Unbounded, u, token, e).1 <==> !forgotten)
            && (!forgotten ==> Tracks(Claim(Bounded, b, token, e).0, Claim(Unbounded, u, token, e).0))
  {
    NewestLookup(u[token].nonces, e.nonce);
    NewestAppend(u[token].nonces, e);
    LookupNone(u[token].nonces, e.nonce);
  }

  /** One call answers alike exactly when it does not reach a forgotten nonce, and then the tables still track. */
  lemma StepAgrees(b: Table, u: Table, a: Action)
    requires Tracks(b, u)
    ensures Step(Bounded, b, a).1 == Step(Unbounded, u, a).1 <==> !Forgotten(u, a)
    ensures !Forgotten(u, a) ==> Tracks(Step(Bounded, b, a).0, Step(Unbounded, u, a).0)
  {
    if a.Verify? {
      AdmitAgrees(b, u, a.token, a.agent, a.now);
      if Admit(u, a.token, a.agent, a.now).1 == Done {
        ClaimAgrees(b, u, a.token, Entry(a.nonce, a.claims));
      }
    }
  }

  lemma AdmitAgrees(b: Table, u: Table, token: string, agent: string, now: int)
    requires Tracks(b, u)
    ensures Admit(b, token, agent, now).1 == Admit(u, token, agent, now).1
    ensures Tracks(Admit(b, token, agent, now).0, Admit(u, token, agent, now).0)
  {
  }

  /** Some call of the run reuses a nonce that has left the window. */
  ghost predicate ReusesForgotten(actions: seq<Action>) {
    exists k :: 0 <= k < |actions| && Forgotten(Run(Unbounded, actions[..k]).0, actions[k])
  }

  lemma RunLast(memory: Memory, front: seq<Action>, a: Action)
    ensures Run(memory, front + [a]).0 == Step(memory, Run(memory, front).0, a).0
    ensures Run(memory, front + [a]).1 == Run(memory, front).1 + [Step(memory, Run(memory, front).0, a).1]
  {
    assert (front + [a])[..|front|] == front;
  }

  /** What the two runs have in common. */
  ghost predicate Alike(actions: seq<Action>) {
    var b, u := Run(Bounded, actions), Run(Unbounded, actions);
    && |b.1| == |u.1|
    && (b.1 == u.1 <==> !ReusesForgotten(actions))
    && (!ReusesForgotten(actions) ==> Tracks(b.0, u.0))
  }

  lemma AlikeStart()
    ensures Alike([])
  {
  }

  lemma AlikeStep(front: seq<Action>, a: Action)
    requires Alike(front)
    ensures Alike(front + [a])
  {
    var b, u := Run(Bounded, front), Run(Unbounded, front);
    ReuseGrows(front, a);
    RunLast(Bounded, front, a);
    RunLast(Unbounded, front, a);
    if !ReusesForgotten(front) {
      StepAgrees(b.0, u.0, a);
    }
    LastOutcome(b.1, Step(Bounded, b.0, a).1, u.1, Step(Unbounded, u.0, a).1);
  }

  lemma {:induction false} Agreement(actions: seq<Action>)
    ensures Alike(actions)
    decreases actions
  {
    if actions == [] {
      AlikeStart();
    } else {
      var front, a := actions[..|actions| - 1], actions[|actions| - 1];
      assert front + [a] == actions;
      Agreement(front);
      AlikeStep(front, a);
    }
  }

  lemma LastOutcome(xs: seq<Outcome>, x: Outcome, ys: seq<Outcome>, y: Outcome)
    requires |xs| == |ys|
    ensures xs + [x] == ys + [y] <==> xs == ys && x == y
  {
    if xs + [x] == ys + [y] {
      assert (xs + [x])[|xs|] == (ys + [y])[|ys|];
      assert (xs + [x])[..|xs|] == (ys + [y])[..|ys|];
    }
  }

  lemma ReuseGrows(front: seq<Action>, a: Action)
    ensures ReusesForgotten(front + [a]) <==> ReusesForgotten(front) || Forgotten(Run(Unbounded, front).0, a)
  {
    var all := front + [a];
    assert all[..|front|] == front && all[|front|] == a;
    assert forall k :: 0 <= k < |front| ==> all[..k] == front[..k] && all[k] == front[k];
    if ReusesForgotten(front) {
      var k :| 0 <= k < |front| && Forgotten(Run(Unbounded, front[..k]).0, front[k]);
      assert Forgotten(Run(Unbounded, all[..k]).0, all[k]);
    }
  }

  /** The relay answers every call of a run as an unbounded history would, if and only if no call
      reuses a nonce with 4096 or more newer ones on record. */
  lemma WindowAgreesWithHistory(actions: seq<Action>)
    ensures Run(Bounded, actions).1 == Run(Unbounded, actions).1 <==> !ReusesForgotten(actions)
  {
    Agreement(actions);
  }

  // ---- how short a run can tell them apart ----

  /** The first call about a token has to grant it. */
  lemma {:induction false} HistoryBounded(actions: seq<Action>, token: string)
    requires token in Run(Unbounded, actions).0
    ensures |Run(Unbounded, actions).0[token].nonces| < |actions|
    decreases actions
  {
    var front, a := actions[..|actions| - 1], actions[|actions| - 1];
    if token in Run(Unbounded, front).0 {
      HistoryBounded(front, token);
    }
    assert Run(Unbounded, actions).0 == Step(Unbounded, Run(Unbounded, front).0, a).0;
  }

  /** The two never differ within 4098 calls. */
  lemma ShortRunsAgree(actions: seq<Action>)
    requires |actions| <= WINDOW + 2
    ensures Run(Bounded, actions).1 == Run(Unbounded, actions).1
  {
    forall k | 0 <= k < |actions| ensures !Forgotten(Run(Unbounded, actions[..k]).0, actions[k]) {
      if actions[k].token in Run(Unbounded, actions[..k]).0 {
        HistoryBounded(actions[..k], actions[k].token);
      }
    }
    Agreement(actions);
  }

  const SAME := Claims("m", "f")

  function Use(i: nat): Action { Verify("t", "a", Digits(i), SAME, 0) }

  /** A grant, and then n calls with n different nonces. */
  function Uses(n: nat): seq<Action> {
    if n == 0 then [Register("t", "a", 1, 0)] else Uses(n - 1) + [Use(n - 1)]
  }

  function Used(n: nat): seq<Entry> { seq(n, i requires 0 <= i => Entry(Digits(i), SAME)) }

  lemma UsedDistinct(n: nat)
    ensures Distinct(Used(n)) && Lookup(Used(n), Digits(n)) == None
  {
    forall i: nat, j: nat | i < j <= n ensures Digits(i) != Digits(j) {
      ValueOfDigits(i);
      ValueOfDigits(j);
    }
    LookupNone(Used(n), Digits(n));
  }

  lemma {:induction false} UsesRemembered(n: nat)
    ensures |Uses(n)| == n + 1
    ensures Run(Unbounded, Uses(n)).0 == map["t" := Capability("a", 1, Used(n))]
    decreases n
  {
    if n == 0 {
      FirstGrant();
    } else {
      UsesRemembered(n - 1);
      OneMoreUse(Uses(n - 1), n - 1);
    }
  }

  lemma OneMoreUse(actions: seq<Action>, i: nat)
    requires Run(Unbounded, actions).0 == map["t" := Capability("a", 1, Used(i))]
    ensures Run(Unbounded, actions + [Use(i)]).0 == map["t" := Capability("a", 1, Used(i + 1))]
  {
    RunLast(Unbounded, actions, Use(i));
    UsedDistinct(i);
    UseStep(Used(i), i);
    assert Used(i + 1) == Used(i) + [Entry(Digits(i), SAME)];
  }

  lemma FirstGrant()
    ensures |Uses(0)| == 1 && Run(Unbounded, Uses(0)).0 == map["t" := Capability("a", 1, Used(0))]
  {
    RunLast(Unbounded, [], Register("t", "a", 1, 0));
    assert [] + [Register("t", "a", 1, 0)] == Uses(0);
    assert Used(0) == [] && Run(Unbounded, []).0 == map[];
    var t: Table := map[];
    assert t["t" := Capability("a", 1, [])] == map["t" := Capability("a", 1, [])];
  }

  lemma UseStep(entries: seq<Entry>, i: nat)
    requires Lookup(entries, Digits(i)) == None
    ensures Step(Unbounded, map["t" := Capability("a", 1, entries)], Use(i)).0 == map["t" := Capability("a", 1, entries + [Entry(Digits(i), SAME)])]
  {
  }

  lemma FirstForgotten()
    ensures var entries := Used(WINDOW + 1); Lookup(entries, Digits(0)) != None && Lookup(Newest(entries), Digits(0)) == None
  {
    var entries := Used(WINDOW + 1);
    UsedDistinct(WINDOW + 1);
    assert entries[0].nonce == Digits(0);
    LookupNone(Newest(entries), Digits(0));
    assert forall i :: 0 <= i < WINDOW ==> Newest(entries)[i] == entries[i + 1];
  }

  /** That bound is sharp: with a grant, 4097 different nonces and the first of them again, 4099 calls
      in all, the relay takes the repetition for new where a full history would not. */
  lemma LongerRunsDiffer()
    ensures var actions := Uses(WINDOW + 1) + [Use(0)];
            |actions| == WINDOW + 3 && Run(Bounded, actions).1 != Run(Unbounded, actions).1
  {
    UsesRemembered(WINDOW + 1);
    FirstForgotten();
    ReuseGrows(Uses(WINDOW + 1), Use(0));
    Agreement(Uses(WINDOW + 1) + [Use(0)]);
  }

  // ---- what a call answers, read off the calls before it ----

  /** A call that grants the token. */
  predicate Grants(a: Action, token: string) {
    a.token == token && ((a.Issue? && a.agent != "" && a.ttl > 0) || (a.Register? && token != "" && a.agent != ""))
  }

  /** A call that ends a grant of the token that runs out at `end`: a revocation, or a use after that. */
  predicate Ends(a: Action, token: string, end: int) {
    a.token == token && (
      || a.Revoke?
      || (a.Check? && token != "" && end < a.now)
      || (a.Verify? && token != "" && a.nonce != "" && a.claims.message != "" && end < a.now))
  }

  function LastOf(a: Action): int
    requires a.Issue? || a.Register?
  {
    a.now + a.ttl
  }

  /** Call `k` granted the token, and nothing has replaced or ended that grant since. */
  predicate Stands(actions: seq<Action>, token: string, k: nat) {
    && k < |actions| && Grants(actions[k], token)
    && forall j :: k < j < |actions| ==> !Grants(actions[j], token) && !Ends(actions[j], token, LastOf(actions[k]))
  }

  lemma StandsStep(front: seq<Action>, a: Action, token: string, k: nat)
    ensures Stands(front + [a], token, k) <==>
              if k == |front| then Grants(a, token) else Stands(front, token, k) && !Grants(a, token) && !Ends(a, token, LastOf(front[k]))
  {
    var all := front + [a];
    assert forall j :: 0 <= j < |front| ==> all[j] == front[j];
    assert all[|front|] == a;
  }

  lemma TableStep(memory: Memory, t: Table, a: Action, token: string)
    ensures var t' := Step(memory, t, a).0;
            if Grants(a, token) then token in t' && t'[token].agent == a.agent && t'[token].expiresAt == LastOf(a)
            else (token in t' <==> token in t && !Ends(a, token, t[token].expiresAt))
                 && (token in t' ==> t'[token].agent == t[token].agent && t'[token].expiresAt == t[token].expiresAt)
  {
  }

  /** The table holds exactly the grants that stand, with the agent they name and the time they run
      out. */
  lemma {:induction false} TableExactly(memory: Memory, actions: seq<Action>, token: string)
    ensures var t := Run(memory, actions).0;
            && (token in t <==> exists k: nat :: Stands(actions, token, k))
            && forall k: nat :: Stands(actions, token, k) ==> t[token].agent == actions[k].agent && t[token].expiresAt == LastOf(actions[k])
    decreases actions
  {
    if actions != [] {
      var front, a := actions[..|actions| - 1], actions[|actions| - 1];
      assert actions == front + [a];
      var t := Run(memory, front).0;
      TableExactly(memory, front, token);
      TableStep(memory, t, a, token);
      RunLast(memory, front, a);
      StandsStep(front, a, token, |front|);
      forall k: nat ensures Stands(actions, token, k) <==> if k == |front| then Grants(a, token) else Stands(front, token, k) && !Grants(a, token) && !Ends(a, token, LastOf(front[k])) {
        StandsStep(front, a, token, k);
      }
    }
  }

  /** A check succeeds exactly on a grant that stands, for its agent, up to and including the time it
      runs out. */
  lemma CheckExactly(actions: seq<Action>, token: string, agent: string, now: int)
    ensures Step(Bounded, Run(Bounded, actions).0, Check(token, agent, now)).1 == Done <==>
            token != "" && exists k: nat :: Stands(actions, token, k) && now <= actions[k].now + actions[k].ttl && actions[k].agent == agent
  {
    TableExactly(Bounded, actions, token);
  }

  /** A grant stands that has not run out, and it is this agent's, or another's. */
  ghost predicate Passes(actions: seq<Action>, token: string, agent: string, now: int, own: bool) {
    exists k: nat :: Stands(actions, token, k) && now <= actions[k].now + actions[k].ttl && (actions[k].agent == agent <==> own)
  }

  lemma PassesExactly(actions: seq<Action>, token: string, agent: string, now: int, own: bool)
    ensures var t := Run(Bounded, actions).0;
            Passes(actions, token, agent, now, own) <==> token in t && now <= t[token].expiresAt && (t[token].agent == agent <==> own)
  {
    TableExactly(Bounded, actions, token);
  }

  lemma AnswerExactly(t: Table, token: string, agent: string, nonce: string, claims: Claims, now: int)
    requires token != "" && nonce != "" && claims.message != "" && (token in t ==> Distinct(t[token].nonces))
    ensures var live := token in t && now <= t[token].expiresAt;
            var answer := Step(Bounded, t, Verify(token, agent, nonce, claims, now)).1;
            && (answer == Answer(true) <==> live && t[token].agent == agent && Entry(nonce, claims) in t[token].nonces)
            && (answer == OtherClaims <==> live && t[token].agent == agent && exists other :: other != claims && Entry(nonce, other) in t[token].nonces)
            && (answer == Answer(false) <==> live && t[token].agent == agent && forall e <- t[token].nonces :: e.nonce != nonce)
            && (answer == OtherAgent <==> live && t[token].agent != agent)
            && (answer == Invalid <==> !live)
  {
    if token in t {
      LookupExactly(t[token].nonces, nonce);
    }
  }

  /** How a use of a nonce is answered: as a duplicate exactly if it is among the newest nonces entered
      since the grant, with the same claims; refused if it is there with others; else as new, once the
      token passes as in a check. */
  lemma VerifyExactly(actions: seq<Action>, token: string, agent: string, nonce: string, claims: Claims, now: int)
    requires token != "" && nonce != "" && claims.message != ""
    ensures var newest := Newest(Inserted(actions, token));
            var answer := Step(Bounded, Run(Bounded, actions).0, Verify(token, agent, nonce, claims, now)).1;
            && (answer == Answer(true) <==> Passes(actions, token, agent, now, true) && Entry(nonce, claims) in newest)
            && (answer == OtherClaims <==> Passes(actions, token, agent, now, true) && exists other :: other != claims && Entry(nonce, other) in newest)
            && (answer == Answer(false) <==> Passes(actions, token, agent, now, true) && forall e <- newest :: e.nonce != nonce)
            && (answer == OtherAgent <==> Passes(actions, token, agent, now, false))
            && (answer == Invalid <==> !Passes(actions, token, agent, now, true) && !Passes(actions, token, agent, now, false))
  {
    var t := Run(Bounded, actions).0;
    PassesExactly(actions, token, agent, now, true);
    PassesExactly(actions, token, agent, now, false);
    if token in t {
      WindowIsNewest(actions, token);
    }
    AnswerExactly(t, token, agent, nonce, claims, now);
  }

  lemma {:induction false} LookupExactly(entries: seq<Entry>, nonce: string)
    requires Distinct(entries)
    ensures forall claims :: Lookup(entries, nonce) == Some(claims) <==> Entry(nonce, claims) in entries
    ensures Lookup(entries, nonce) == None <==> forall e <- entries :: e.nonce != nonce
    decreases entries
  {
    if entries != [] {
      assert forall i :: 0 <= i < |entries| - 1 ==> entries[1..][i] == entries[i + 1];
      LookupExactly(entries[1..], nonce);
    }
  }

  // ---- the object ----

  /** Every capability holds at most a window of nonces, each once. */
  predicate Windowed(t: Table) { forall token <- t :: |t[token].nonces| <= WINDOW && Distinct(t[token].nonces) }

  /** Only this token's capability differs, or is gone. */
  predicate OnlyToken(t: Table, t': Table, token: string) { t' - {token} == t - {token} }

  lemma StepWindowed(t: Table, a: Action)
    requires Windowed(t)
    ensures Windowed(Step(Bounded, t, a).0) && OnlyToken(t, Step(Bounded, t, a).0, a.token)
  {
    var t' := Step(Bounded, t, a).0;
    assert OnlyToken(t, t', a.token);
    if a.Verify? && a.token in t && Lookup(t[a.token].nonces, a.nonce) == None {
      LookupNone(t[a.token].nonces, a.nonce);
    }
  }

  class IngressCapability {
    var values: Table

    ghost predicate Valid()
      reads this
    {
      Windowed(values)
    }

    constructor ()
      ensures Valid() && values == map[]
    {
      values := map[];
    }

    method IssueToken(token: string, agent: string, ttl: int, now: int) returns (r: Outcome)
      requires Valid()
      modifies this
      ensures Valid() && OnlyToken(old(values), values, token)
      ensures (values, r) == Step(Bounded, old(values), Issue(token, agent, ttl, now))
    {
      StepWindowed(values, Issue(token, agent, ttl, now));
      if agent == "" || ttl <= 0 {
        return BadArguments;
      }
      values := values[token := Capability(agent, now + ttl, [])];
      return Done;
    }

    method RegisterToken(token: string, agent: string, ttl: int, now: int) returns (r: Outcome)
      requires Valid()
      modifies this
      ensures Valid() && OnlyToken(old(values), values, token)
      ensures (values, r) == Step(Bounded, old(values), Register(token, agent, ttl, now))
    {
      StepWindowed(values, Register(token, agent, ttl, now));
      if token == "" || agent == "" {
        return BadArguments;
      }
      values := values[token := Capability(agent, now + ttl, [])];
      return Done;
    }

    method RevokeToken(token: string)
      requires Valid()
      modifies this
      ensures Valid() && OnlyToken(old(values), values, token)
      ensures values == Step(Bounded, old(values), Revoke(token)).0
    {
      StepWindowed(values, Revoke(token));
      values := values - {token};
    }

    method VerifyNonce(token: string, agent: string, nonce: string, claims: Claims, now: int) returns (r: Outcome)
      requires Valid()
      modifies this
      ensures Valid() && OnlyToken(old(values), values, token)
      ensures (values, r) == Step(Bounded, old(values), Verify(token, agent, nonce, claims, now))
      ensures r == Answer(true) <==> nonce != "" && claims.message != "" && token != "" && token in old(values) && old(values)[token].expiresAt >= now
                                     && old(values)[token].agent == agent && Lookup(old(values)[token].nonces, nonce) == Some(claims)
    {
      StepWindowed(values, Verify(token, agent, nonce, claims, now));
      if token == "" || nonce == "" || claims.message == "" {
        return BadArguments;
      }
      if token !in values {
        return Invalid;
      }
      var capability := values[token];
      if capability.expiresAt < now {
        values := values - {token};
        return Invalid;
      }
      if capability.agent != agent {
        return OtherAgent;
      }
      var previous := Lookup(capability.nonces, nonce);
      if previous.Some? {
        if previous.value != claims {
          return OtherClaims;
        }
        return Answer(true);
      }
      var nonces := capability.nonces + [Entry(nonce, claims)];
      values := values[token := capability.(nonces := nonces)];
      if |nonces| > WINDOW {
        values := values[token := capability.(nonces := nonces[1..])];
        assert values == old(values)[token := capability.(nonces := nonces[1..])];
      }
      return Answer(false);
    }

    method CheckToken(token: string, agent: string, now: int) returns (r: Outcome)
      requires Valid()
      modifies this
      ensures Valid() && OnlyToken(old(values), values, token)
      ensures (values, r) == Step(Bounded, old(values), Check(token, agent, now))
    {
      StepWindowed(values, Check(token, agent, now));
      if token == "" {
        return BadArguments;
      }
      if token !in values {
        return Invalid;
      }
      if values[token].expiresAt < now {
        values := values - {token};
        return Invalid;
      }
      if values[token].agent != agent {
        return OtherAgent;
      }
      return Done;
    }
  }
}
