/**
 * What the session and token objects do are runs of the protocol: every write, latch, dispatch,
 * clearing and promotion by objects is the protocol's own step, or run of steps, on the values
 * the objects have before and after. Permits are objects there and numbers here.
 */
module SessionRefinement {
  import opened Prelude
  import opened AtomicFiles
  import opened Rotation
  import opened RotationProtocol
  import RotationAdapter
  import Transport
  import WalletSessions

  type Permit = WalletSessions.PermitToken

  /** A session with its permit, an object, replaced by the number the protocol knows it by. */
  ghost function Numbered(number: Permit -> nat, s: Session<Permit>): Session<nat>
  {
    if s.Locked? then Locked else Unlocked(s.raw, s.dek, s.payload, NumberOf(number, s.permit))
  }

  ghost function NumberOf(number: Permit -> nat, permit: Option<Permit>): Option<nat>
  {
    if permit.Some? then Some(number(permit.value)) else None
  }

  /** The world with one session and the disk replaced. */
  ghost function WithSession(w: World, id: nat, s: Session<nat>, disk: Option<Container>): World
  {
    w.(disk := disk, sessions := w.sessions[id := s])
  }

  ghost predicate SessionIs(w: World, id: nat, number: Permit -> nat, s: Session<Permit>)
  {
    id in w.sessions && w.sessions[id] == Numbered(number, s)
  }

  /** How the protocol is told of a write: as it went, or not at all when none was made. */
  function StoringOf(w: World, nonce: Bytes, r: Option<Outcome>, fileAfter: Option<Container>): Storing
  {
    Storing(nonce, if r.Some? then r.value else Failed, fileAfter)
  }

  // ------------------------------------------------------------------ writes

  /** A write by a session object is the protocol's write: allowed there, with the same disk and session after. */
  lemma WriteIsProtocolWrite(
    w: World, id: nat, number: Permit -> nat, before: Session<Permit>, after: Session<Permit>,
    fileAfter: Option<Container>, change: Change, nonce: Bytes, outcome: Outcome, permit: Option<Permit>)
    requires SessionIs(w, id, number, before)
    requires WalletSessions.Wrote(before, after, w.disk, fileAfter, change, nonce, Some(outcome), permit)
    ensures IsOpen(w, id) && change.Write? && Stores(w, id, change.candidate, Storing(nonce, outcome, fileAfter))
    ensures Stored(w, id, change.candidate, Storing(nonce, outcome, fileAfter), NumberOf(number, permit))
            == WithSession(w, id, Numbered(number, after), fileAfter)
  {
  }

  /** Prepare, cancel and bind keep the permit: their calls are the protocol's steps, refused ones included. */
  lemma PlainCallIsProtocolStep(
    w: World, id: nat, number: Permit -> nat, before: Session<Permit>, after: Session<Permit>,
    fileAfter: Option<Container>, change: Change, nonce: Bytes, r: Option<Outcome>)
    requires SessionIs(w, id, number, before) && before.Unlocked?
    requires WalletSessions.Wrote(before, after, w.disk, fileAfter, change, nonce, r, before.permit)
    ensures IsOpen(w, id)
    ensures Written(w, id, change, StoringOf(w, nonce, r, fileAfter))
              == WithSession(w, id, Numbered(number, after), fileAfter)
  {
    if r.Some? { WriteIsProtocolWrite(w, id, number, before, after, fileAfter, change, nonce, r.value, before.permit); }
    else { assert w.sessions[id := w.sessions[id]] == w.sessions; }
  }

  // ------------------------------------------------------------------- latch

  /** A publication object and the protocol's token for it. An attached permit has the token's number. */
  ghost predicate TokenIs(w: World, k: nat, number: Permit -> nat, t: WalletSessions.TokenView)
  {
    && k < |w.tokens| && t.authentic && w.tokens[k].publication == t.publication
    && w.tokens[k].claimed == t.claimed && w.tokens[k].started == t.started
    && (w.tokens[k].issued ==> t.permit.Some? && t.claimed)
    && (t.permit.Some? ==> t.claimed && number(t.permit.value) == k)
  }

  /**
   * A latch by objects is the protocol's latch, in every storage outcome, and the token objects
   * then are its tokens.
   */
  lemma LatchIsProtocolLatch(
    e: Env, w: World, id: nat, k: nat, number: Permit -> nat, before: Session<Permit>, after: Session<Permit>,
    fileAfter: Option<Container>, t: WalletSessions.TokenView, tokenAfter: WalletSessions.TokenView, now: int,
    nonce: Bytes, r: Option<Outcome>, permit: Option<Permit>)
    requires SessionIs(w, id, number, before) && before.Unlocked? && TokenIs(w, k, number, t)
    requires WalletSessions.Latches(e.crypto, e.pub, before, after, w.disk, fileAfter, t, tokenAfter, now, nonce, r,
               permit)
    requires tokenAfter.permit.Some? ==> number(tokenAfter.permit.value) == k
    ensures var v := Next(e, w, Latch(id, k, now, StoringOf(w, nonce, r, fileAfter)));
            && SessionIs(v, id, number, after) && v.disk == fileAfter && TokenIs(v, k, number, tokenAfter)
            && v.tokens == w.tokens[k := w.tokens[k].(claimed := tokenAfter.claimed,
                 issued := w.tokens[k].issued || permit.Some?)]
            && v == WithSession(w, id, Numbered(number, after), fileAfter).(tokens := v.tokens)
  {
    hide Latched, WalletSessions.Latches;
    LatchIsLatched(e, w, id, k, number, before, after, fileAfter, t, tokenAfter, now, nonce, r, permit);
  }

  lemma LatchIsLatched(
    e: Env, w: World, id: nat, k: nat, number: Permit -> nat, before: Session<Permit>, after: Session<Permit>,
    fileAfter: Option<Container>, t: WalletSessions.TokenView, tokenAfter: WalletSessions.TokenView, now: int,
    nonce: Bytes, r: Option<Outcome>, permit: Option<Permit>)
    requires SessionIs(w, id, number, before) && before.Unlocked? && TokenIs(w, k, number, t)
    requires WalletSessions.Latches(e.crypto, e.pub, before, after, w.disk, fileAfter, t, tokenAfter, now, nonce, r,
               permit)
    requires tokenAfter.permit.Some? ==> number(tokenAfter.permit.value) == k
    ensures var v := Latched(e, w, id, k, now, StoringOf(w, nonce, r, fileAfter));
            && SessionIs(v, id, number, after) && v.disk == fileAfter && TokenIs(v, k, number, tokenAfter)
            && v.tokens == w.tokens[k := w.tokens[k].(claimed := tokenAfter.claimed,
                 issued := w.tokens[k].issued || permit.Some?)]
            && v == WithSession(w, id, Numbered(number, after), fileAfter).(tokens := v.tokens)
  {
    hide LatchChange;
    assert w.sessions[id := w.sessions[id]] == w.sessions;
    assert w.tokens[k := w.tokens[k]] == w.tokens;
  }

  // ---------------------------------------------------------------- dispatch

  function PutSteps(k: nat, sent: seq<Transport.Sent>): (r: seq<Action>)
    ensures |r| == |sent|
  {
    if sent == [] then [] else [Put(k, sent[0].peer)] + PutSteps(k, sent[1..])
  }

  function WithToken(w: World, k: nat, t: Token): World
    requires k < |w.tokens|
  {
    w.(tokens := w.tokens[k := t])
  }

  /** The PUTs of a dispatch, one step each. */
  lemma {:induction false} PutsAreSteps(e: Env, w: World, k: nat, sent: seq<Transport.Sent>)
    requires k < |w.tokens| && w.tokens[k].started && !w.tokens[k].ended
    requires forall s | s in sent :: s.envelope == w.tokens[k].publication.envelope
    ensures Run(e, w, PutSteps(k, sent)) == WithToken(w, k, w.tokens[k].(sent := w.tokens[k].sent + sent))
    decreases |sent|
  {
    hide Next, Run;
    var token := w.tokens[k];
    if sent == [] {
      NoStep(e, w);
      assert token.sent + [] == token.sent && w.tokens[k := token] == w.tokens;
    } else {
      var first, rest := sent[0], sent[1..];
      assert first in sent;
      PutStep(e, w, k, first);
      var v := Next(e, w, Put(k, first.peer));
      FirstStep(e, w, Put(k, first.peer), PutSteps(k, rest));
      PutsAreSteps(e, v, k, rest);
      SentTwice(w, k, first, rest);
      assert sent == [first] + rest;
    }
  }

  lemma SentTwice(w: World, k: nat, first: Transport.Sent, rest: seq<Transport.Sent>)
    requires k < |w.tokens|
    ensures var token := w.tokens[k];
            var v := WithToken(w, k, token.(sent := token.sent + [first]));
            WithToken(v, k, v.tokens[k].(sent := v.tokens[k].sent + rest))
              == WithToken(w, k, token.(sent := token.sent + ([first] + rest)))
  {
    var token := w.tokens[k];
    assert token.sent + [first] + rest == token.sent + ([first] + rest);
  }

  lemma PutStep(e: Env, w: World, k: nat, s: Transport.Sent)
    requires k < |w.tokens| && w.tokens[k].started && !w.tokens[k].ended
    requires s.envelope == w.tokens[k].publication.envelope
    ensures Next(e, w, Put(k, s.peer)) == WithToken(w, k, w.tokens[k].(sent := w.tokens[k].sent + [s]))
  {
  }

  /** The token once its dispatch is over. */
  ghost function Over(token: Token, sent: seq<Transport.Sent>, result: RotationAdapter.Result): Token
  {
    token.(started := true, sent := sent, ended := true, rejected := result.rejected)
  }

  /**
   * A dispatch by objects, with the PUTs its transport really sent and the report it really gave,
   * is a run of the protocol: begin, those PUTs, end. The step at the end is allowed because of
   * the transport's own write contract.
   */
  lemma DispatchIsProtocolRun(
    e: Env, w: World, k: nat, number: Permit -> nat, n: Transport.Network, t: WalletSessions.TokenView,
    tokenAfter: WalletSessions.TokenView, sent: seq<Transport.Sent>, sentAfter: seq<Transport.Sent>,
    answers: RotationAdapter.Answers, r: Option<RotationAdapter.Result>)
    requires TokenIs(w, k, number, t) && w.tokens[k].issued && TokenOrdered(w.tokens[k]) && r.Some?
    requires WalletSessions.Dispatches(e.crypto, e.peers, n, t, tokenAfter, true, sent, sentAfter, answers, r)
    ensures |sent| <= |sentAfter|
    ensures var mine := sentAfter[|sent|..];
            var v := Run(e, w, [Begin(k)] + PutSteps(k, mine) + [End(k, answers, n)]);
            v == Closed(w, k, mine, r.value) && TokenIs(v, k, number, tokenAfter)
  {
    hide RotationAdapter.Dispatched, RotationAdapter.PutReached, Transport.Fanout, TokenOrdered, Run, Next, PutSteps;
    FreshToken(w.tokens[k]);
    var mine := OwnPuts(e, n, t, sent, sentAfter, answers);
    var begun := WithToken(w, k, w.tokens[k].(started := true));
    BeginStep(e, w, k);
    PutsAreSteps(e, begun, k, mine);
    assert [] + mine == mine;
    RunConcat(e, w, [Begin(k)], PutSteps(k, mine));
    RunConcat(e, w, [Begin(k)] + PutSteps(k, mine), [End(k, answers, n)]);
    EndStep(e, w, k, mine, answers, n, r.value);
  }

  lemma BeginStep(e: Env, w: World, k: nat)
    requires k < |w.tokens| && w.tokens[k].issued && !w.tokens[k].started
    ensures Run(e, w, [Begin(k)]) == WithToken(w, k, w.tokens[k].(started := true))
  {
    FirstStep(e, w, Begin(k), []);
    NoStep(e, Next(e, w, Begin(k)));
    assert [Begin(k)] + [] == [Begin(k)];
  }

  /** The world after an end, from the one in which the token was issued. */
  ghost function Closed(w: World, k: nat, sent: seq<Transport.Sent>, result: RotationAdapter.Result): World
    requires k < |w.tokens|
  {
    WithToken(w, k, Over(w.tokens[k], sent, result)).(
      confirmed := w.confirmed + if result.confirmation.Some? then {result.confirmation.value} else {})
  }

  lemma EndStep(
    e: Env, w: World, k: nat, sent: seq<Transport.Sent>, answers: RotationAdapter.Answers, n: Transport.Network,
    result: RotationAdapter.Result)
    requires k < |w.tokens| && !w.tokens[k].ended
    requires result == RotationAdapter.Dispatched(e.crypto, w.tokens[k].publication, answers)
    requires Reports(e, w.tokens[k].(started := true, sent := sent), answers, n)
    ensures var begun := WithToken(w, k, w.tokens[k].(started := true));
            var done := WithToken(begun, k, begun.tokens[k].(sent := sent));
            Run(e, done, [End(k, answers, n)]) == Closed(w, k, sent, result)
  {
    hide RotationAdapter.Dispatched, Reports;
    var token := w.tokens[k].(started := true, sent := sent);
    var done := WithToken(w, k, token);
    FirstStep(e, done, End(k, answers, n), []);
    NoStep(e, Next(e, done, End(k, answers, n)));
    assert [End(k, answers, n)] + [] == [End(k, answers, n)];
    assert WithToken(WithToken(w, k, w.tokens[k].(started := true)), k, token) == done;
  }

  lemma FreshToken(token: Token)
    requires TokenOrdered(token) && !token.started
    ensures token.sent == [] && !token.ended && !token.rejected
  {
  }

  /** What one dispatch added to the log is what its token sent, and the report fits it. */
  lemma OwnPuts(
    e: Env, n: Transport.Network, t: WalletSessions.TokenView, sent: seq<Transport.Sent>,
    sentAfter: seq<Transport.Sent>, answers: RotationAdapter.Answers)
    returns (mine: seq<Transport.Sent>)
    requires if RotationAdapter.PutReached(e.crypto, t.publication, answers)
             then exists k: nat :: Transport.Fanout(sentAfter, sent, e.peers, t.publication.envelope, k, answers.put, n)
             else sentAfter == sent
    ensures |sent| <= |sentAfter| && mine == sentAfter[|sent|..]
    ensures forall s | s in mine :: s.envelope == t.publication.envelope
    ensures if RotationAdapter.PutReached(e.crypto, t.publication, answers)
            then Transport.Fanout(mine, [], e.peers, t.publication.envelope, |mine|, answers.put, n)
            else mine == []
  {
    hide RotationAdapter.PutReached, Transport.Fanout;
    if RotationAdapter.PutReached(e.crypto, t.publication, answers) {
      var k: nat :| Transport.Fanout(sentAfter, sent, e.peers, t.publication.envelope, k, answers.put, n);
      Transport.FanoutAlone(sentAfter, sent, e.peers, t.publication.envelope, k, answers.put, n);
    }
    mine := sentAfter[|sent|..];
  }

  // ---------------------------------------------------- resolve and finalize

  /** A rejection object and the protocol's record of it: handed out for the token's permit, and used up or not. */
  ghost predicate RejectionIs(w: World, k: nat, number: Permit -> nat, rejection: Rejection<Permit>)
  {
    && k < |w.tokens| && w.tokens[k].rejected && w.tokens[k].consumed == rejection.consumed
    && rejection.intent == w.tokens[k].publication.intent && number(rejection.permit) == k
  }

  /** Clearing by a rejection object is the protocol's resolve, with the rejection used up in both or in neither. */
  lemma ResolveIsProtocolResolve(
    e: Env, w: World, id: nat, k: nat, number: Permit -> nat, before: Session<Permit>, after: Session<Permit>,
    fileAfter: Option<Container>, rejection: Rejection<Permit>, nonce: Bytes, r: Option<Outcome>)
    requires SessionIs(w, id, number, before) && before.Unlocked? && RejectionIs(w, k, number, rejection)
    requires before.permit.Some? ==> (number(before.permit.value) == k <==> before.permit.value == rejection.permit)
    requires WalletSessions.Wrote(
               before, after, w.disk, fileAfter, ResolveChange(before.payload, before.permit, rejection), nonce, r,
                 None)
    ensures var v := Next(e, w, Resolve(id, k, StoringOf(w, nonce, r, fileAfter)));
            && SessionIs(v, id, number, after) && v.disk == fileAfter
            && RejectionIs(v, k, number, rejection.(consumed := rejection.consumed || r == Some(Replaced)))
            && v == WithSession(w, id, Numbered(number, after), fileAfter).(tokens := v.tokens)
  {
    assert w.sessions[id := w.sessions[id]] == w.sessions;
  }

  /** Promotion by a confirmation in hand is the protocol's finalize. */
  lemma FinalizeIsProtocolFinalize(
    e: Env, w: World, id: nat, number: Permit -> nat, before: Session<Permit>, after: Session<Permit>,
    fileAfter: Option<Container>, confirmation: Confirmation, nonce: Bytes, r: Option<Outcome>)
    requires SessionIs(w, id, number, before) && before.Unlocked? && confirmation in w.confirmed
    requires WalletSessions.Wrote(before, after, w.disk, fileAfter, FinalizeChange(e.pub, before.payload, confirmation),
               nonce, r, None)
    ensures var v := Next(e, w, Finalize(id, confirmation, StoringOf(w, nonce, r, fileAfter)));
            v == WithSession(w, id, Numbered(number, after), fileAfter).(promoted := v.promoted)
  {
    assert w.sessions[id := w.sessions[id]] == w.sessions;
  }
}
