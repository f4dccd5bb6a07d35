/** Any number of sessions on one wallet file, with tokens, storage and network, as one step system. */
module RotationProtocol {
  import opened Prelude
  import opened Identity
  import opened AtomicFiles
  import opened Rotation
  import opened RotationAdapter
  import opened Transport

  /** The primitives, and the peers a PUT goes to. */
  datatype Env = Env(crypto: Crypto, pub: PublicKeys, peers: seq<string>)

  /**
   * A publication with its one permit. A permit exists in a caller's hands only once issued;
   * cleared is history, read by no step: a write that dropped its intent reached the disk.
   */
  datatype Token = Token(
    publication: Publication,
    claimed: bool,
    issued: bool,
    started: bool,
    sent: seq<Sent>,
    ended: bool,
    rejected: bool,
    consumed: bool,
    cleared: bool)

  /** promoted is history, read by no step: the intents whose key was made active on disk. */
  datatype World = World(
    disk: Option<Container>,
    sessions: map<nat, Session<nat>>,
    tokens: seq<Token>,
    confirmed: set<Confirmation>,
    promoted: set<Intent>)

  /** How one storage write goes: its fresh nonce, what it reports, what it leaves. */
  datatype Storing = Storing(nonce: Bytes, outcome: Outcome, after: Option<Container>)

  datatype Action =
    | Open(session: nat, password: string)
    | Lock(session: nat)
    | Migrate(session: nat, password: string, storing: Storing)
    | Prepare(session: nat, seed: Bytes, storing: Storing)
    | Cancel(session: nat, storing: Storing)
    | Bind(session: nat, environment: string, approved: bool, storing: Storing)
    | Publish(intent: Intent, envelope: Bytes, expiresAt: int, review: Review)
    | Latch(session: nat, token: nat, now: int, storing: Storing)
    | Begin(token: nat)
    | Put(token: nat, peer: string)
    | End(token: nat, answers: Answers, network: Network)
    | Confirm(intent: Intent, readback: Readback)
    | Resolve(session: nat, token: nat, storing: Storing)
    | Finalize(session: nat, confirmation: Confirmation, storing: Storing)

  function Start(disk: Option<Container>): World
  {
    World(disk, map[], [], {}, {})
  }

  predicate IsOpen(w: World, id: nat)
  {
    id in w.sessions && w.sessions[id].Unlocked?
  }

  /** The write this session would make is one storage may report this way. */
  predicate Stores(w: World, id: nat, candidate: Payload, t: Storing)
    requires IsOpen(w, id)
  {
    var s := w.sessions[id];
    Permits(t.outcome, w.disk, t.after, s.raw, Replacement(s, candidate, t.nonce))
  }

  /** The session and the disk after a write; permit is what the session holds if it is done. */
  function Stored(w: World, id: nat, candidate: Payload, t: Storing, permit: Option<nat>): World
    requires IsOpen(w, id)
  {
    w.(disk := t.after,
      sessions := w.sessions[id := PersistedWith(w.sessions[id], candidate, t.nonce, t.outcome, permit)])
  }

  /** Whether the new bytes are on disk, whatever was reported. */
  predicate Installed(w: World, id: nat, candidate: Payload, t: Storing)
    requires IsOpen(w, id)
  {
    t.outcome.Replaced? || (t.outcome.Unknown? && t.after == Some(Replacement(w.sessions[id], candidate, t.nonce)))
  }

  /** A change that keeps whatever permit the session has. */
  function Written(w: World, id: nat, change: Change, t: Storing): World
    requires IsOpen(w, id)
  {
    if change.Write? && Stores(w, id, change.candidate, t) then
      Stored(w, id, change.candidate, t, w.sessions[id].permit) else w
  }

  function Migrated(w: World, id: nat, password: string, t: Storing): World
  {
    if id in w.sessions || w.disk.None? || !Opens(w.disk.value, password, LEGACY_VERSION) then w else
    var original := w.disk.value;
    var converted := Container(original.wrap.(version := CURRENT_VERSION), original.sealed.(nonce := t.nonce));
    if !Permits(t.outcome, w.disk, t.after, original, converted) then w
    else w.(disk := t.after, sessions := if t.outcome.Replaced? then w.sessions[id := Opened(converted)]
      else w.sessions)
  }

  function Latched(e: Env, w: World, id: nat, k: nat, now: int, t: Storing): World
    requires IsOpen(w, id) && k < |w.tokens|
  {
    var token := w.tokens[k];
    if !LatchReady(w.sessions[id], token.publication.expiresAt, now, token.claimed) then w else
    var change := LatchChange(e.crypto, e.pub, w.sessions[id].payload, token.publication);
    var claimed := w.(tokens := w.tokens[k := token.(claimed := true)]);
    if !change.Write? || !Stores(w, id, change.candidate, t) then claimed
    else Stored(claimed, id, change.candidate, t,
      Some(k)).(tokens := w.tokens[k := token.(claimed := true, issued := t.outcome.Replaced?)])
  }

  /** What the transport's write contract says of the PUTs sent by one dispatch and the report it got. */
  ghost predicate Reports(e: Env, token: Token, a: Answers, n: Network)
  {
    if PutReached(e.crypto, token.publication, a)
    then Fanout(token.sent, [], e.peers, token.publication.envelope, |token.sent|, a.put, n)
    else token.sent == []
  }

  ghost function Ended(e: Env, w: World, k: nat, a: Answers, n: Network): World
    requires k < |w.tokens|
  {
    var token := w.tokens[k];
    if !token.started || token.ended || !Reports(e, token, a, n) then w else
    var result := Dispatched(e.crypto, token.publication, a);
    w.(tokens := w.tokens[k := token.(ended := true, rejected := result.rejected)],
       confirmed := w.confirmed + if result.confirmation.Some? then {result.confirmation.value} else {})
  }

  function Resolved(w: World, id: nat, k: nat, t: Storing): World
    requires IsOpen(w, id) && k < |w.tokens|
  {
    var token := w.tokens[k];
    var rejection := Rejection(token.publication.intent, k, token.consumed);
    var change := ResolveChange(w.sessions[id].payload, w.sessions[id].permit, rejection);
    if !token.rejected || !change.Write? || !Stores(w, id, change.candidate, t) then w
    else Stored(w, id, change.candidate, t, None).(tokens := w.tokens[k := token.(
      consumed := t.outcome.Replaced?, cleared := Installed(w, id, change.candidate, t))])
  }

  function Finalized(e: Env, w: World, id: nat, confirmation: Confirmation, t: Storing): World
    requires IsOpen(w, id)
  {
    var change := FinalizeChange(e.pub, w.sessions[id].payload, confirmation);
    if confirmation !in w.confirmed || !change.Write? || !Stores(w, id, change.candidate, t) then w
    else Stored(w, id, change.candidate, t, None).(
      promoted := w.promoted + if Installed(w, id, change.candidate, t) then {confirmation.intent} else {})
  }

  /** One step; a step that is not possible leaves the world as it is. */
  ghost function Next(e: Env, w: World, a: Action): World
  {
    match a
    case Open(id, password) =>
      if id in w.sessions || w.disk.None? || !Opens(w.disk.value, password, CURRENT_VERSION) then w
      else w.(sessions := w.sessions[id := Opened(w.disk.value)])
    case Lock(id) => if id in w.sessions then w.(sessions := w.sessions[id := Locked]) else w
    case Migrate(id, password, t) => Migrated(w, id, password, t)
    case Prepare(id, seed, t) =>
      if IsOpen(w, id) then Written(w, id, PrepareChange(e.pub, w.sessions[id].payload, seed), t) else w
    case Cancel(id, t) => if IsOpen(w, id) then Written(w, id, CancelChange(e.pub, w.sessions[id].payload), t) else w
    case Bind(id, environment, approved, t) =>
      if IsOpen(w, id) then Written(w, id, BindChange(w.sessions[id].payload, environment, approved), t) else w
    case Publish(intent, envelope, expiresAt, review) =>
      var p := Reviewed(e.crypto, intent, envelope, expiresAt, review);
      if p.Some? then w.(tokens := w.tokens + [Token(p.value, false, false, false, [], false, false, false, false)])
        else w
    case Latch(id, k, now, t) => if IsOpen(w, id) && k < |w.tokens| then Latched(e, w, id, k, now, t) else w
    case Begin(k) =>
      if k < |w.tokens| && w.tokens[k].issued && !w.tokens[k].started then
        w.(tokens := w.tokens[k := w.tokens[k].(started := true)]) else w
    case Put(k, peer) =>
      if k < |w.tokens| && w.tokens[k].started && !w.tokens[k].ended then
        w.(tokens := w.tokens[k := w.tokens[k].(sent := w.tokens[k].sent
          + [Sent(peer, w.tokens[k].publication.envelope)])])
      else w
    case End(k, answers, n) => if k < |w.tokens| then Ended(e, w, k, answers, n) else w
    case Confirm(intent, b) =>
      var confirmation := ConfirmedBy(e.crypto, intent, b);
      if confirmation.Some? then w.(confirmed := w.confirmed + {confirmation.value}) else w
    case Resolve(id, k, t) => if IsOpen(w, id) && k < |w.tokens| then Resolved(w, id, k, t) else w
    case Finalize(id, confirmation, t) => if IsOpen(w, id) then Finalized(e, w, id, confirmation, t) else w
  }

  ghost function Run(e: Env, w: World, actions: seq<Action>): World
    decreases |actions|
  {
    if actions == [] then w else Run(e, Next(e, w, actions[0]), actions[1..])
  }

  lemma NoStep(e: Env, w: World)
    ensures Run(e, w, []) == w
  {
  }

  lemma FirstStep(e: Env, w: World, a: Action, rest: seq<Action>)
    ensures Run(e, w, [a] + rest) == Run(e, Next(e, w, a), rest)
  {
    hide Next;
    assert ([a] + rest)[1..] == rest;
  }

  lemma {:induction false} RunConcat(e: Env, w: World, a: seq<Action>, b: seq<Action>)
    ensures Run(e, w, a + b) == Run(e, Run(e, w, a), b)
    decreases |a|
  {
    hide Next;
    if a == [] {
      assert a + b == b;
    } else {
      assert (a + b)[0] == a[0] && (a + b)[1..] == a[1..] + b;
      RunConcat(e, Next(e, w, a[0]), a[1..], b);
    }
  }

  // -------------------------------------------------------------- properties

  /** On disk, with both seeds: the predecessor's as the active key, the successor's as the pending one. */
  ghost predicate LatchedOnDisk(e: Env, w: World, intent: Intent)
  {
    w.disk.Some? && w.disk.value.sealed.payload.intent == Some(intent)
      && KeysAre(e.pub, w.disk.value.sealed.payload, intent)
  }

  ghost predicate KeyRetained(e: Env, w: World)
  {
    forall k | 0 <= k < |w.tokens| :: w.tokens[k].sent != [] ==>
      w.tokens[k].publication.intent in w.promoted || LatchedOnDisk(e, w, w.tokens[k].publication.intent)
  }

  // --------------------------------------------------------------- invariant

  /** Issued, not cleared, and its key not yet made active. */
  ghost predicate Live(w: World, k: nat)
    requires k < |w.tokens|
  {
    w.tokens[k].issued && !w.tokens[k].cleared && w.tokens[k].publication.intent !in w.promoted
  }

  ghost predicate TokenOrdered(t: Token)
  {
    && (t.issued ==> t.claimed)
    && (t.started ==> t.issued)
    && (t.sent != [] ==> t.started)
    && (t.ended ==> t.started)
    && (t.rejected ==> t.ended && t.sent == [])
    && (t.cleared ==> t.rejected)
    && t.publication.intent.environment.Some?
  }

  /** An open session holds what its container holds, and a permit only with its own intent. */
  ghost predicate SessionSound(w: World, s: Session<nat>)
  {
    s.Unlocked? ==>
      && s.payload == s.raw.sealed.payload
      && (s.permit.Some? ==>
          var k := s.permit.value;
          k < |w.tokens| && w.tokens[k].issued && !w.tokens[k].cleared
            && s.payload.intent == Some(w.tokens[k].publication.intent))
  }

  ghost predicate Holds(w: World, id: nat, k: nat)
  {
    IsOpen(w, id) && w.sessions[id].permit == Some(k)
  }

  ghost predicate Inv(e: Env, w: World)
  {
    && (forall k | 0 <= k < |w.tokens| :: TokenOrdered(w.tokens[k]))
    && (forall id | id in w.sessions :: SessionSound(w, w.sessions[id]))
    && (forall i, j, k | Holds(w, i, k) && Holds(w, j, k) :: i == j)
    && (forall k: nat | k < |w.tokens| && Live(w, k) :: LatchedOnDisk(e, w, w.tokens[k].publication.intent))
    && (forall j: nat, k: nat | j < |w.tokens| && k < |w.tokens| && Live(w, j) && Live(w, k) :: j == k)
  }

  lemma InvRetains(e: Env, w: World)
    requires Inv(e, w)
    ensures KeyRetained(e, w)
  {
    forall k | 0 <= k < |w.tokens| && w.tokens[k].sent != []
      ensures w.tokens[k].publication.intent in w.promoted || LatchedOnDisk(e, w, w.tokens[k].publication.intent)
    {
      assert TokenOrdered(w.tokens[k]);
      assert w.tokens[k].publication.intent !in w.promoted ==> Live(w, k);
    }
  }
}
