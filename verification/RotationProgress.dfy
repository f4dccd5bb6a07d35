/** The protocol gets somewhere: undisturbed, a rotation is promoted, and an expired one is cleared again. */
module RotationProgress {
  import opened Prelude
  import opened Identity
  import opened AtomicFiles
  import opened Rotation
  import opened RotationAdapter
  import opened RotationProtocol
  import Transport
  import Kt = KotlinVerifier

  // --------------------------------------------------------- undisturbed steps

  /** An open session that has what is on disk. */
  predicate Current(w: World, id: nat)
  {
    IsOpen(w, id) && w.disk == Some(w.sessions[id].raw)
  }

  /** A write without faults. */
  function Cleanly(s: Session<nat>, candidate: Payload, nonce: Bytes): Storing
    requires s.Unlocked?
  {
    Storing(nonce, Replaced, Some(Replacement(s, candidate, nonce)))
  }

  /** The world once the session has written candidate. */
  function With(w: World, id: nat, candidate: Payload, nonce: Bytes, permit: Option<nat>): World
    requires IsOpen(w, id)
  {
    var s := w.sessions[id];
    var after := Replacement(s, candidate, nonce);
    w.(disk := Some(after), sessions := w.sessions[id := Unlocked(after, s.dek, candidate, permit)])
  }

  lemma PrepareDone(e: Env, w: World, id: nat, seed: Bytes, nonce: Bytes)
    requires Current(w, id) && w.sessions[id].payload.intent.None? && w.sessions[id].payload.pending.None?
    requires ActiveValid(e.pub, w.sessions[id].payload)
    requires e.pub(seed) != w.sessions[id].payload.active.value.publicKey
    ensures var p := w.sessions[id].payload.(pending := Some(KeyPair(seed, e.pub(seed))));
            Next(e, w, Prepare(id, seed, Cleanly(w.sessions[id], p, nonce)))
              == With(w, id, p, nonce, w.sessions[id].permit)
  {
  }

  lemma LatchDone(e: Env, w: World, id: nat, k: nat, now: int, nonce: Bytes)
    requires Current(w, id) && w.sessions[id].permit.None? && k < |w.tokens| && !w.tokens[k].claimed
    requires now < w.tokens[k].publication.expiresAt
    requires LatchChange(e.crypto, e.pub, w.sessions[id].payload, w.tokens[k].publication).Write?
    ensures var p := w.sessions[id].payload.(intent := Some(w.tokens[k].publication.intent));
            Next(e, w, Latch(id, k, now, Cleanly(w.sessions[id], p, nonce)))
              == With(w, id, p, nonce, Some(k)).(
                   tokens := w.tokens[k := w.tokens[k].(claimed := true, issued := true)])
  {
    hide KeysAre, StateIs;
  }

  lemma FinalizeDone(e: Env, w: World, id: nat, k: Confirmation, nonce: Bytes)
    requires Current(w, id) && k in w.confirmed && |k.stateHash| == KEY_BYTES
    requires w.sessions[id].payload.intent == Some(k.intent) && KeysAre(e.pub, w.sessions[id].payload, k.intent)
    ensures var q := w.sessions[id].payload;
            var p := q.(active := q.pending, pending := None, intent := None);
            Next(e, w, Finalize(id, k, Cleanly(w.sessions[id], p, nonce)))
              == With(w, id, p, nonce, None).(promoted := w.promoted + {k.intent})
  {
    hide KeysAre;
  }

  lemma ResolveDone(e: Env, w: World, id: nat, k: nat, nonce: Bytes)
    requires Current(w, id) && k < |w.tokens| && w.tokens[k].rejected && !w.tokens[k].consumed
    requires w.sessions[id].permit == Some(k)
    requires w.sessions[id].payload.intent == Some(w.tokens[k].publication.intent)
    ensures var p := w.sessions[id].payload.(intent := None);
            Next(e, w, Resolve(id, k, Cleanly(w.sessions[id], p, nonce)))
              == With(w, id, p, nonce, None).(tokens := w.tokens[k := w.tokens[k].(consumed := true, cleared := true)])
  {
  }

  /** A publication the review made is one the session will latch over its keys. */
  lemma ReviewedLatches(e: Env, p: Payload, intent: Intent, envelope: Bytes, expiresAt: int, review: Review)
    requires Consented(e.crypto, intent, envelope, expiresAt, review)
    requires p.intent.None? && KeysAre(e.pub, p, intent)
    ensures var r := Reviewed(e.crypto, intent, envelope, expiresAt, review);
            && r.Some? && r.value.intent == intent && r.value.expiresAt == expiresAt && r.value.envelope == envelope
            && LatchChange(e.crypto, e.pub, p, r.value) == Write(p.(intent := Some(intent)))
  {
    hide Kt.Resolve, KeysAre, Kt.Parse, Kt.TransitionAllowed;
    PublishedExactly(e.crypto, intent, envelope, expiresAt, review);
    ResolvedHead(e.crypto, intent.owner, envelope,
      Kt.PredecessorFirst(intent.predecessorHash, review.current.value, review.again));
  }

  // -------------------------------------------------------------- whole rotations

  /** Unlatched, unprepared, and with a usable active key. */
  ghost predicate Fresh(e: Env, w: World, id: nat)
  {
    && Current(w, id) && w.sessions[id].permit.None?
    && w.sessions[id].payload.intent.None? && w.sessions[id].payload.pending.None?
    && ActiveValid(e.pub, w.sessions[id].payload)
  }

  /** A new pair for this seed, and an intent from the active key to it. */
  ghost predicate Names(e: Env, p: Payload, seed: Bytes, intent: Intent)
  {
    && p.active.Some? && |seed| == KEY_BYTES && |e.pub(seed)| == KEY_BYTES
    && e.pub(seed) != p.active.value.publicKey
    && intent.predecessorKey == p.active.value.publicKey && intent.successorKey == e.pub(seed)
  }

  function Prepared(e: Env, p: Payload, seed: Bytes): Payload
  {
    p.(pending := Some(KeyPair(seed, e.pub(seed))))
  }

  /** Prepare, publish and latch, each undisturbed, by one session. */
  ghost function LatchSteps(
    e: Env, w: World, id: nat, seed: Bytes, intent: Intent, envelope: Bytes, expiresAt: int, review: Review, now: int,
    nonces: (Bytes, Bytes)): seq<Action>
    requires IsOpen(w, id)
  {
    var p := Prepared(e, w.sessions[id].payload, seed);
    var prepared := With(w, id, p, nonces.0, w.sessions[id].permit);
    [Prepare(id, seed, Cleanly(w.sessions[id], p, nonces.0))]
    + ([Publish(intent, envelope, expiresAt, review)]
    + [Latch(id, |w.tokens|, now, Cleanly(prepared.sessions[id], p.(intent := Some(intent)), nonces.1))])
  }

  /** They end with the intent on disk, both seeds beside it, and the one permit in the session's hands. */
  lemma LatchStepsDone(
    e: Env, w: World, id: nat, seed: Bytes, intent: Intent, envelope: Bytes, expiresAt: int, review: Review, now: int,
    nonces: (Bytes, Bytes))
    requires Fresh(e, w, id) && Names(e, w.sessions[id].payload, seed, intent) && now < expiresAt
    requires Consented(e.crypto, intent, envelope, expiresAt, review)
    ensures var v := Run(e, w, LatchSteps(e, w, id, seed, intent, envelope, expiresAt, review, now, nonces));
            var p := Prepared(e, w.sessions[id].payload, seed).(intent := Some(intent));
            && Current(v, id) && v.sessions[id].payload == p && v.sessions[id].permit == Some(|w.tokens|)
            && v.sessions[id].raw.sealed.payload == p && KeysAre(e.pub, p, intent)
            && |v.tokens| == |w.tokens| + 1 && v.confirmed == w.confirmed
            && v.tokens[|w.tokens|] == Token(Reviewed(e.crypto, intent, envelope, expiresAt, review).value,
                 true, true, false, [], false, false, false, false)
            && Reviewed(e.crypto, intent, envelope, expiresAt, review).Some?
  {
    hide Run, Reviewed, LatchChange, Consented;
    var p := Prepared(e, w.sessions[id].payload, seed);
    var prepared := With(w, id, p, nonces.0, w.sessions[id].permit);
    PrepareDone(e, w, id, seed, nonces.0);
    ReviewedLatches(e, p, intent, envelope, expiresAt, review);
    var publish := Publish(intent, envelope, expiresAt, review);
    var published := Next(e, prepared, publish);
    var p0 := Reviewed(e.crypto, intent, envelope, expiresAt, review).value;
    assert published == prepared.(
      tokens := w.tokens + [Token(p0, false, false, false, [], false, false, false, false)]);
    var latch := Latch(id, |w.tokens|, now, Cleanly(prepared.sessions[id], p.(intent := Some(intent)), nonces.1));
    LatchDone(e, published, id, |w.tokens|, now, nonces.1);
    FirstStep(e, w, Prepare(id, seed, Cleanly(w.sessions[id], p, nonces.0)), [publish] + [latch]);
    FirstStep(e, prepared, publish, [latch]);
    FirstStep(e, published, latch, []);
    assert [latch] + [] == [latch];
    NoStep(e, Next(e, published, latch));
  }

  /**
   * Undisturbed, a rotation completes: from every world in which a session has what is on disk,
   * after consent, latch and a confirming read, finalize makes the prepared pair the active one
   * and leaves the rest of the payload as it was.
   */
  lemma RotationCompletes(
    e: Env, w: World, id: nat, seed: Bytes, intent: Intent, envelope: Bytes, expiresAt: int, review: Review, now: int,
    b: Readback, k: Confirmation, nonces: (Bytes, Bytes), last: Bytes)
    requires Fresh(e, w, id) && Names(e, w.sessions[id].payload, seed, intent) && now < expiresAt
    requires Consented(e.crypto, intent, envelope, expiresAt, review)
    requires ConfirmedBy(e.crypto, intent, b) == Some(k) && |k.stateHash| == KEY_BYTES
    ensures var q := w.sessions[id].payload.(active := Some(KeyPair(seed, e.pub(seed))));
            exists t :: var steps := LatchSteps(e, w, id, seed, intent, envelope, expiresAt, review, now, nonces)
                          + [Confirm(intent, b)] + [Finalize(id, k, t)];
              Promotes(Run(e, w, steps), id, intent, q)
  {
    hide Run, Next, Consented, ConfirmedBy, Reviewed, KeysAre, Names, LatchSteps;
    var steps := LatchSteps(e, w, id, seed, intent, envelope, expiresAt, review, now, nonces);
    LatchStepsDone(e, w, id, seed, intent, envelope, expiresAt, review, now, nonces);
    var latched := Run(e, w, steps);
    ConfirmedIntent(e.crypto, intent, b);
    ConfirmDone(e, latched, intent, b);
    var confirmed := latched.(confirmed := latched.confirmed + {k});
    var q := w.sessions[id].payload.(active := Some(KeyPair(seed, e.pub(seed))));
    var t := Cleanly(latched.sessions[id], q, last);
    FinalizeDone(e, confirmed, id, k, last);
    Then(e, w, steps, Confirm(intent, b));
    Then(e, w, steps + [Confirm(intent, b)], Finalize(id, k, t));
    assert Promotes(Run(e, w, steps + [Confirm(intent, b)] + [Finalize(id, k, t)]), id, intent, q);
  }

  /** The intent counts as promoted, and this is what the file and the session hold. */
  predicate Promotes(v: World, id: nat, intent: Intent, q: Payload)
  {
    intent in v.promoted && Current(v, id) && v.sessions[id].payload == q && v.disk.value.sealed.payload == q
  }

  lemma ConfirmedIntent(c: Crypto, intent: Intent, b: Readback)
    ensures ConfirmedBy(c, intent, b).Some? ==> ConfirmedBy(c, intent, b).value.intent == intent
  {
    hide Confirms;
  }

  lemma ConfirmDone(e: Env, w: World, intent: Intent, b: Readback)
    requires ConfirmedBy(e.crypto, intent, b).Some?
    ensures Next(e, w, Confirm(intent, b))
            == w.(confirmed := w.confirmed + {ConfirmedBy(e.crypto, intent, b).value})
  {
    hide ConfirmedBy;
  }

  lemma Then(e: Env, w: World, steps: seq<Action>, a: Action)
    ensures Run(e, w, steps + [a]) == Next(e, Run(e, w, steps), a)
  {
    hide Run, Next;
    RunConcat(e, w, steps, [a]);
    FirstStep(e, Run(e, w, steps), a, []);
    NoStep(e, Next(e, Run(e, w, steps), a));
    assert [a] + [] == [a];
  }

  /**
   * And one whose consent runs out before anything is sent, while the registry shows another
   * envelope, is cleared again: the prepared pair stays, the intent goes, nothing is promoted.
   */
  lemma ExpiredIsCleared(
    e: Env, w: World, id: nat, seed: Bytes, intent: Intent, envelope: Bytes, expiresAt: int, review: Review, now: int,
    a: Answers, n: Transport.Network, nonces: (Bytes, Bytes), last: Bytes)
    requires Fresh(e, w, id) && Names(e, w.sessions[id].payload, seed, intent) && now < expiresAt && e.peers != []
    requires Consented(e.crypto, intent, envelope, expiresAt, review)
    requires var r := Reviewed(e.crypto, intent, envelope, expiresAt, review);
             r.Some? && RanOut(e.crypto, r.value, a) && ShowsOther(e.crypto, intent, a.readback)
    ensures var q := Prepared(e, w.sessions[id].payload, seed);
            var k := |w.tokens|;
            exists t :: var steps := LatchSteps(e, w, id, seed, intent, envelope, expiresAt, review, now, nonces)
                          + [Begin(k)] + [End(k, a, n)] + [Resolve(id, k, t)];
              Clears(Run(e, w, steps), id, k, q)
  {
    hide Run, Next, Consented, ConfirmedBy, Reviewed, KeysAre, Names, LatchSteps, RanOut, ShowsOther;
    var k := |w.tokens|;
    var steps := LatchSteps(e, w, id, seed, intent, envelope, expiresAt, review, now, nonces);
    LatchStepsDone(e, w, id, seed, intent, envelope, expiresAt, review, now, nonces);
    PublicationOf(e.crypto, intent, envelope, expiresAt, review);
    var latched := Run(e, w, steps);
    DispatchEnds(e, latched, k, a, n);
    var q := Prepared(e, w.sessions[id].payload, seed);
    var ended := Next(e, Next(e, latched, Begin(k)), End(k, a, n));
    var t := Cleanly(latched.sessions[id], q, last);
    ResolveDone(e, ended, id, k, last);
    Then(e, w, steps, Begin(k));
    Then(e, w, steps + [Begin(k)], End(k, a, n));
    Then(e, w, steps + [Begin(k)] + [End(k, a, n)], Resolve(id, k, t));
    assert Clears(Run(e, w, steps + [Begin(k)] + [End(k, a, n)] + [Resolve(id, k, t)]), id, k, q);
  }

  /** The token is cleared, and this is what the file and the session hold. */
  predicate Clears(v: World, id: nat, k: nat, q: Payload)
  {
    && k < |v.tokens| && v.tokens[k].cleared && v.tokens[k].sent == []
    && Current(v, id) && v.sessions[id].payload == q && v.disk.value.sealed.payload == q
  }

  lemma PublicationOf(c: Crypto, intent: Intent, envelope: Bytes, expiresAt: int, review: Review)
    ensures var r := Reviewed(c, intent, envelope, expiresAt, review); r.Some? ==> r.value.intent == intent
  {
    hide VerifyCandidate;
  }

  lemma DispatchEnds(e: Env, w: World, k: nat, a: Answers, n: Transport.Network)
    requires k < |w.tokens| && w.tokens[k].issued && !w.tokens[k].started && !w.tokens[k].ended
    requires w.tokens[k].sent == [] && e.peers != []
    requires RanOut(e.crypto, w.tokens[k].publication, a)
    requires ShowsOther(e.crypto, w.tokens[k].publication.intent, a.readback)
    ensures var v := Next(e, Next(e, w, Begin(k)), End(k, a, n));
            && v.sessions == w.sessions && v.disk == w.disk
            && v.tokens == w.tokens[k := w.tokens[k].(started := true, ended := true, rejected := true)]
  {
    hide Dispatched, VerifyCandidate, ShowsOther, ConfirmedBy;
    DispatchExactly(e.crypto, w.tokens[k].publication, a);
    Transport.NothingSent([], e.peers, w.tokens[k].publication.envelope, n);
    assert !PutReached(e.crypto, w.tokens[k].publication, a) || a.put.Expired?;
  }
}
