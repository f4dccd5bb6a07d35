/** Over every run: a key whose PUT went out is promoted or still on disk; a key is promoted only when confirmed. */
module KeyRetention {
  import opened Prelude
  import opened Identity
  import opened Rotation
  import opened RotationAdapter
  import opened RotationProtocol
  import Transport
  import Kt = KotlinVerifier

  // ------------------------------------------------------------------ writes

  /** Storage leaves the disk alone or replaces exactly the bytes the session opened. */
  lemma DiskAfter(w: World, id: nat, candidate: Payload, t: Storing)
    requires IsOpen(w, id) && Stores(w, id, candidate, t)
    ensures Installed(w, id, candidate, t) ==>
              w.disk == Some(w.sessions[id].raw) && t.after == Some(Replacement(w.sessions[id], candidate, t.nonce))
    ensures !Installed(w, id, candidate, t) ==> t.after == w.disk
  {
  }

  /** When nobody's latched intent is at stake, a write keeps the invariant. */
  lemma UnlatchedWrite(e: Env, w: World, id: nat, change: Change, t: Storing)
    requires Inv(e, w) && IsOpen(w, id)
    requires change.Write? ==>
               w.sessions[id].payload.intent.None? || w.sessions[id].payload.intent.value.environment.None?
    ensures Inv(e, Written(w, id, change, t))
  {
    hide KeysAre;
    if change.Write? && Stores(w, id, change.candidate, t) {
      var s := w.sessions[id];
      NoPermit(e, w, id);
      DiskAfter(w, id, change.candidate, t);
      if Installed(w, id, change.candidate, t) { NobodyLive(e, w); }
      var v := Written(w, id, change, t);
      SessionReplaced(w, v, id);
      forall k: nat | k < |v.tokens| && Live(v, k) ensures LatchedOnDisk(e, v, v.tokens[k].publication.intent) {
        assert Live(w, k);
      }
      forall j: nat, k: nat | j < |v.tokens| && k < |v.tokens| && Live(v, j) && Live(v, k) ensures j == k {
        assert Live(w, j) && Live(w, k);
      }
    }
  }

  /** An unlatched disk, or one whose intent no publication can carry, has no live token. */
  lemma NobodyLive(e: Env, w: World)
    requires Inv(e, w) && w.disk.Some?
    requires w.disk.value.sealed.payload.intent.None? || w.disk.value.sealed.payload.intent.value.environment.None?
    ensures forall k: nat | k < |w.tokens| :: !Live(w, k)
  {
    hide KeysAre;
    forall k: nat | k < |w.tokens| ensures !Live(w, k) { assert TokenOrdered(w.tokens[k]); }
  }

  /** Changing one session to one without a permit keeps the others' facts. */
  lemma SessionReplaced(w: World, v: World, id: nat)
    requires v.tokens == w.tokens && id in v.sessions && v.sessions.Keys == w.sessions.Keys + {id}
    requires forall i | i in w.sessions && i != id :: v.sessions[i] == w.sessions[i]
    requires v.sessions[id].Unlocked? ==>
               v.sessions[id].permit.None? && v.sessions[id].payload == v.sessions[id].raw.sealed.payload
    requires forall i | i in w.sessions :: SessionSound(w, w.sessions[i])
    requires forall i, j, k | Holds(w, i, k) && Holds(w, j, k) :: i == j
    ensures forall i | i in v.sessions :: SessionSound(v, v.sessions[i])
    ensures forall i, j, k | Holds(v, i, k) && Holds(v, j, k) :: i == j
  {
    forall i | i in v.sessions ensures SessionSound(v, v.sessions[i]) {
      if i != id { assert SessionSound(w, w.sessions[i]); }
    }
    forall i, j, k | Holds(v, i, k) && Holds(v, j, k) ensures i == j { assert Holds(w, i, k) && Holds(w, j, k); }
  }

  lemma NoPermit(e: Env, w: World, id: nat)
    requires Inv(e, w) && IsOpen(w, id)
    requires w.sessions[id].payload.intent.None? || w.sessions[id].payload.intent.value.environment.None?
    ensures w.sessions[id].permit.None?
    ensures w.sessions[id].payload == w.sessions[id].raw.sealed.payload
  {
    assert SessionSound(w, w.sessions[id]);
  }

  // ------------------------------------------------------------- other steps

  /** A step that touches no session and no disk, and no token's latch. */
  lemma TokenAdvanced(e: Env, w: World, v: World)
    requires Inv(e, w)
    requires TokensAdvance(w, v)
    ensures Inv(e, v)
  {
    hide KeysAre, TokenOrdered;
    forall id | id in v.sessions ensures SessionSound(v, v.sessions[id]) { assert SessionSound(w, w.sessions[id]); }
    forall i, j, k | Holds(v, i, k) && Holds(v, j, k) ensures i == j { assert Holds(w, i, k) && Holds(w, j, k); }
    forall k: nat | k < |v.tokens| && Live(v, k) ensures LatchedOnDisk(e, v, v.tokens[k].publication.intent) {
      assert Live(w, k);
    }
    forall j: nat, k: nat | j < |v.tokens| && k < |v.tokens| && Live(v, j) && Live(v, k) ensures j == k {
      assert Live(w, j) && Live(w, k);
    }
  }

  lemma TokenSteps(e: Env, w: World, a: Action)
    requires Inv(e, w) && (a.Publish? || a.Begin? || a.Put? || a.End? || a.Confirm?)
    ensures Inv(e, Next(e, w, a))
  {
    hide Inv, Next;
    InvTokens(e, w);
    match a {
      case Publish(intent, envelope, expiresAt, review) => PublishStep(e, w, a);
      case End(k, answers, n) => EndStep(e, w, a);
      case _ => FlagStep(e, w, a);
    }
    TokenAdvanced(e, w, Next(e, w, a));
  }

  /** What a step on tokens alone may change, and that it keeps them in order. */
  ghost predicate TokensAdvance(w: World, v: World)
  {
    && v.disk == w.disk && v.sessions == w.sessions && v.promoted == w.promoted && |v.tokens| >= |w.tokens|
    && (forall k | 0 <= k < |v.tokens| :: TokenOrdered(v.tokens[k]))
    && (forall k | 0 <= k < |w.tokens| ::
          v.tokens[k].publication == w.tokens[k].publication && v.tokens[k].issued == w.tokens[k].issued
            && v.tokens[k].cleared == w.tokens[k].cleared)
    && (forall k | |w.tokens| <= k < |v.tokens| :: !v.tokens[k].issued)
  }

  lemma PublishStep(e: Env, w: World, a: Action)
    requires a.Publish? && forall k | 0 <= k < |w.tokens| :: TokenOrdered(w.tokens[k])
    ensures TokensAdvance(w, Next(e, w, a))
  {
    hide Reviewed;
    PublishedHasEnvironment(e.crypto, a.intent, a.envelope, a.expiresAt, a.review);
  }

  lemma EndStep(e: Env, w: World, a: Action)
    requires a.End? && forall k | 0 <= k < |w.tokens| :: TokenOrdered(w.tokens[k])
    ensures TokensAdvance(w, Next(e, w, a))
  {
    hide Dispatched, PutReached, TokenOrdered;
    if a.token < |w.tokens| { EndedOrdered(e, w, a.token, a.answers, a.network); }
  }

  lemma FlagStep(e: Env, w: World, a: Action)
    requires (a.Begin? || a.Put? || a.Confirm?) && forall k | 0 <= k < |w.tokens| :: TokenOrdered(w.tokens[k])
    ensures TokensAdvance(w, Next(e, w, a))
  {
    hide ConfirmedBy;
    if !a.Confirm? && a.token < |w.tokens| { assert TokenOrdered(w.tokens[a.token]); }
  }

  lemma InvTokens(e: Env, w: World)
    requires Inv(e, w)
    ensures forall k | 0 <= k < |w.tokens| :: TokenOrdered(w.tokens[k])
  {
  }

  lemma PublishedHasEnvironment(c: Crypto, intent: Intent, envelope: Bytes, expiresAt: int, review: Review)
    ensures var p := Reviewed(c, intent, envelope, expiresAt, review);
            p.Some? ==> p.value.intent == intent && intent.environment.Some?
  {
    hide VerifyCandidate;
  }

  lemma EndedOrdered(e: Env, w: World, k: nat, a: Answers, n: Transport.Network)
    requires k < |w.tokens| && TokenOrdered(w.tokens[k])
    ensures TokenOrdered(Ended(e, w, k, a, n).tokens[k])
  {
    hide Dispatched, PutReached, Transport.Fanout;
    var token := w.tokens[k];
    RejectionMeansUnsent(e.crypto, token.publication, a);
    if token.sent != [] && PutReached(e.crypto, token.publication, a) && Reports(e, token, a, n) {
      Transport.SentIsReported(token.sent, [], e.peers, token.publication.envelope, |token.sent|, a.put, n);
    }
  }

  lemma OpenAndLock(e: Env, w: World, a: Action)
    requires Inv(e, w) && (a.Open? || a.Lock? || a.Migrate?)
    ensures Inv(e, Next(e, w, a))
  {
    hide KeysAre, Inv;
    var v := Next(e, w, a);
    if a.session in v.sessions && v != w && (a.session !in w.sessions || a.Lock?) {
      SessionSwapped(e, w, v, a.session);
    }
    else { SessionsKept(e, w, v); }
  }

  /** The disk carries the same payload, and one session was opened or locked. */
  lemma SessionSwapped(e: Env, w: World, v: World, id: nat)
    requires Inv(e, w) && v.tokens == w.tokens && v.promoted == w.promoted && id in v.sessions
    requires v.sessions == w.sessions[id := v.sessions[id]]
    requires v.sessions[id].Unlocked? ==>
               v.sessions[id].permit.None? && v.sessions[id].payload == v.sessions[id].raw.sealed.payload
    requires v.disk == w.disk
             || (w.disk.Some? && v.disk.Some? && v.disk.value.sealed.payload == w.disk.value.sealed.payload)
    ensures Inv(e, v)
  {
    hide KeysAre;
    SessionReplaced(w, v, id);
    LiveAlike(e, w, v);
  }

  lemma SessionsKept(e: Env, w: World, v: World)
    requires Inv(e, w) && v.tokens == w.tokens && v.promoted == w.promoted && v.sessions == w.sessions
    requires v.disk == w.disk
             || (w.disk.Some? && v.disk.Some? && v.disk.value.sealed.payload == w.disk.value.sealed.payload)
    ensures Inv(e, v)
  {
    hide KeysAre;
    SameSessions(w, v);
    LiveAlike(e, w, v);
  }

  lemma LiveAlike(e: Env, w: World, v: World)
    requires Inv(e, w) && v.tokens == w.tokens && v.promoted == w.promoted
    requires v.disk == w.disk
             || (w.disk.Some? && v.disk.Some? && v.disk.value.sealed.payload == w.disk.value.sealed.payload)
    ensures forall k: nat | k < |v.tokens| && Live(v, k) :: LatchedOnDisk(e, v, v.tokens[k].publication.intent)
    ensures forall j: nat, k: nat | j < |v.tokens| && k < |v.tokens| && Live(v, j) && Live(v, k) :: j == k
  {
    hide KeysAre;
    forall k: nat | k < |v.tokens| && Live(v, k) ensures LatchedOnDisk(e, v, v.tokens[k].publication.intent) {
      assert Live(w, k);
    }
    forall j: nat, k: nat | j < |v.tokens| && k < |v.tokens| && Live(v, j) && Live(v, k) ensures j == k {
      assert Live(w, j) && Live(w, k);
    }
  }

  lemma SameSessions(w: World, v: World)
    requires v.tokens == w.tokens && v.sessions == w.sessions
    requires forall i | i in w.sessions :: SessionSound(w, w.sessions[i])
    requires forall i, j, k | Holds(w, i, k) && Holds(w, j, k) :: i == j
    ensures forall i | i in v.sessions :: SessionSound(v, v.sessions[i])
    ensures forall i, j, k | Holds(v, i, k) && Holds(v, j, k) :: i == j
  {
    forall i | i in v.sessions ensures SessionSound(v, v.sessions[i]) { assert SessionSound(w, w.sessions[i]); }
    forall i, j, k | Holds(v, i, k) && Holds(v, j, k) ensures i == j { assert Holds(w, i, k) && Holds(w, j, k); }
  }

  // ------------------------------------------------------------------- latch

  /** Only the claim happened: no permit was made. */
  lemma Claimed(e: Env, w: World, k: nat)
    requires Inv(e, w) && k < |w.tokens|
    ensures Inv(e, w.(tokens := w.tokens[k := w.tokens[k].(claimed := true)]))
  {
    hide Inv;
    InvTokens(e, w);
    TokenAdvanced(e, w, w.(tokens := w.tokens[k := w.tokens[k].(claimed := true)]));
  }

  /** Storage left the disk alone and no permit was issued; the session may have been locked. */
  lemma LatchNotInstalled(e: Env, w: World, id: nat, k: nat, s: Session<nat>)
    requires Inv(e, w) && IsOpen(w, id) && k < |w.tokens| && (s == Locked || s == w.sessions[id])
    ensures Inv(e, w.(tokens := w.tokens[k := w.tokens[k].(claimed := true)], sessions := w.sessions[id := s]))
  {
    hide Inv;
    var v := w.(tokens := w.tokens[k := w.tokens[k].(claimed := true)]);
    Claimed(e, w, k);
    if s == Locked { OpenAndLock(e, v, Lock(id)); } else { assert w.sessions[id := s] == w.sessions; }
  }

  lemma LatchStep(e: Env, w: World, id: nat, k: nat, now: int, t: Storing)
    requires Inv(e, w) && IsOpen(w, id) && k < |w.tokens|
    ensures Inv(e, Latched(e, w, id, k, now, t))
  {
    hide Inv, LatchChange;
    var token, s := w.tokens[k], w.sessions[id];
    if LatchReady(s, token.publication.expiresAt, now, token.claimed) {
      var change := LatchChange(e.crypto, e.pub, s.payload, token.publication);
      if !change.Write? || !Stores(w, id, change.candidate, t) {
        Claimed(e, w, k);
      } else {
        DiskAfter(w, id, change.candidate, t);
        NoPermit(e, w, id);
        if t.outcome.Replaced? { LatchInstalled(e, w, id, k, now, t); }
        else { LatchUnreported(e, w, id, k, now, t); }
      }
    }
  }

  lemma LatchWrites(e: Env, p: Payload, publication: Publication)
    requires LatchChange(e.crypto, e.pub, p, publication).Write?
    ensures var candidate := LatchChange(e.crypto, e.pub, p, publication).candidate;
            p.intent.None? && candidate.intent == Some(publication.intent)
              && KeysAre(e.pub, candidate, publication.intent)
  {
  }

  /** The write did not report success: the disk may be latched, but nobody holds the permit. */
  lemma LatchUnreported(e: Env, w: World, id: nat, k: nat, now: int, t: Storing)
    requires Inv(e, w) && IsOpen(w, id) && k < |w.tokens|
    requires LatchReady(w.sessions[id], w.tokens[k].publication.expiresAt, now, w.tokens[k].claimed)
    requires var change := LatchChange(e.crypto, e.pub, w.sessions[id].payload, w.tokens[k].publication);
             change.Write? && Stores(w, id, change.candidate, t) && !t.outcome.Replaced?
    ensures Inv(e, Latched(e, w, id, k, now, t))
  {
    hide LatchChange, Inv;
    var token, s := w.tokens[k], w.sessions[id];
    var change := LatchChange(e.crypto, e.pub, s.payload, token.publication);
    var v := Latched(e, w, id, k, now, t);
    NotClaimedNotIssued(e, w, k);
    LatchNotInstalled(e, w, id, k, v.sessions[id]);
    var u := w.(tokens := w.tokens[k := token.(claimed := true)], sessions := w.sessions[id := v.sessions[id]]);
    if Installed(w, id, change.candidate, t) {
      DiskAfter(w, id, change.candidate, t);
      NoPermit(e, w, id);
      assert u.disk == w.disk;
      DiskFreed(e, u, v);
    } else {
      DiskAfter(w, id, change.candidate, t);
      assert v == u;
    }
  }

  lemma NotClaimedNotIssued(e: Env, w: World, k: nat)
    requires Inv(e, w) && k < |w.tokens|
    ensures !w.tokens[k].claimed ==> !w.tokens[k].issued && w.tokens[k] == w.tokens[k].(issued := false)
  {
    assert TokenOrdered(w.tokens[k]);
  }

  /** When the disk carried no intent, no token depends on it. */
  lemma DiskFreed(e: Env, u: World, v: World)
    requires Inv(e, u) && v == u.(disk := v.disk) && u.disk.Some? && u.disk.value.sealed.payload.intent.None?
    ensures Inv(e, v)
  {
    hide KeysAre;
    NobodyLive(e, u);
    SameSessions(u, v);
    forall k: nat | k < |v.tokens| ensures !Live(v, k) { assert !Live(u, k); }
  }

  lemma LatchInstalled(e: Env, w: World, id: nat, k: nat, now: int, t: Storing)
    requires Inv(e, w) && IsOpen(w, id) && k < |w.tokens|
    requires LatchReady(w.sessions[id], w.tokens[k].publication.expiresAt, now, w.tokens[k].claimed)
    requires var change := LatchChange(e.crypto, e.pub, w.sessions[id].payload, w.tokens[k].publication);
             change.Write? && Stores(w, id, change.candidate, t) && t.outcome.Replaced?
    ensures Inv(e, Latched(e, w, id, k, now, t))
  {
    hide LatchChange, KeysAre;
    LatchWrites(e, w.sessions[id].payload, w.tokens[k].publication);
    NoPermit(e, w, id);
    NobodyLive(e, w);
    var v := Latched(e, w, id, k, now, t);
    assert forall j | 0 <= j < |w.tokens| && j != k :: v.tokens[j] == w.tokens[j];
    forall j | 0 <= j < |v.tokens| ensures TokenOrdered(v.tokens[j]) { assert TokenOrdered(w.tokens[j]); }
    NobodyHolds(e, w, k);
    SessionLatched(w, v, id, k);
    forall j: nat | j < |v.tokens| ensures Live(v, j) ==> j == k { assert !Live(w, j); }
  }

  lemma NobodyHolds(e: Env, w: World, k: nat)
    requires Inv(e, w) && k < |w.tokens| && !w.tokens[k].claimed
    ensures forall id: nat :: !Holds(w, id, k)
  {
    assert TokenOrdered(w.tokens[k]);
    forall id: nat ensures !Holds(w, id, k) { if id in w.sessions { assert SessionSound(w, w.sessions[id]); } }
  }

  /** One session takes a permit that nobody held. */
  lemma SessionLatched(w: World, v: World, id: nat, k: nat)
    requires k < |w.tokens| == |v.tokens| && id in w.sessions && id in v.sessions
    requires v.sessions == w.sessions[id := v.sessions[id]]
    requires v.sessions[id].Unlocked? && v.sessions[id].permit == Some(k) && SessionSound(v, v.sessions[id])
    requires forall j | 0 <= j < |w.tokens| && j != k :: v.tokens[j] == w.tokens[j]
    requires forall i: nat :: !Holds(w, i, k)
    requires forall i | i in w.sessions :: SessionSound(w, w.sessions[i])
    requires forall i, j, m | Holds(w, i, m) && Holds(w, j, m) :: i == j
    ensures forall i | i in v.sessions :: SessionSound(v, v.sessions[i])
    ensures forall i, j, m | Holds(v, i, m) && Holds(v, j, m) :: i == j
  {
    forall i | i in v.sessions ensures SessionSound(v, v.sessions[i]) {
      if i != id { assert SessionSound(w, w.sessions[i]) && !Holds(w, i, k); }
    }
    forall i, j, m | Holds(v, i, m) && Holds(v, j, m) ensures i == j {
      assert !Holds(w, i, k) && !Holds(w, j, k);
      assert i != id ==> Holds(w, i, m);
      assert j != id ==> Holds(w, j, m);
    }
  }

  // ---------------------------------------------------- resolve and finalize

  lemma ResolveStep(e: Env, w: World, id: nat, k: nat, t: Storing)
    requires Inv(e, w) && IsOpen(w, id) && k < |w.tokens|
    ensures Inv(e, Resolved(w, id, k, t))
  {
    hide KeysAre;
    var token, s := w.tokens[k], w.sessions[id];
    var change := ResolveChange(s.payload, s.permit, Rejection(token.publication.intent, k, token.consumed));
    if token.rejected && change.Write? && Stores(w, id, change.candidate, t) {
      assert SessionSound(w, s) && TokenOrdered(token);
      DiskAfter(w, id, change.candidate, t);
      if Installed(w, id, change.candidate, t) {
        ResolveInstalled(e, w, id, k, t);
      } else {
        ResolveNotInstalled(e, w, id, k, t);
      }
    }
  }

  /** The disk kept the intent; the session is as it was, or locked. */
  lemma ResolveNotInstalled(e: Env, w: World, id: nat, k: nat, t: Storing)
    requires Inv(e, w) && IsOpen(w, id) && k < |w.tokens| && w.tokens[k].rejected
    requires var s := w.sessions[id];
             var change := ResolveChange(s.payload, s.permit,
               Rejection(w.tokens[k].publication.intent, k, w.tokens[k].consumed));
             change.Write? && Stores(w, id, change.candidate, t) && !Installed(w, id, change.candidate, t)
    ensures Inv(e, Resolved(w, id, k, t))
  {
    hide Inv;
    var token, s := w.tokens[k], w.sessions[id];
    var change := ResolveChange(s.payload, s.permit, Rejection(token.publication.intent, k, token.consumed));
    DiskAfter(w, id, change.candidate, t);
    var v := Resolved(w, id, k, t);
    NotCleared(e, w, id, k);
    if v.sessions[id] == Locked { OpenAndLock(e, w, Lock(id)); }
    else { assert w.sessions[id := s] == w.sessions; }
    var u := w.(sessions := v.sessions);
    InvTokens(e, u);
    TokenAdvanced(e, u, v);
  }

  lemma NotCleared(e: Env, w: World, id: nat, k: nat)
    requires Inv(e, w) && Holds(w, id, k)
    ensures k < |w.tokens| && w.tokens[k].issued && !w.tokens[k].cleared
    ensures w.sessions[id].payload == w.sessions[id].raw.sealed.payload
    ensures w.sessions[id].payload.intent == Some(w.tokens[k].publication.intent)
    ensures forall i: nat | i != id :: !Holds(w, i, k)
  {
    assert SessionSound(w, w.sessions[id]);
  }

  /** The intent is gone from disk: its own token is closed, and no other token carried it. */
  lemma ResolveInstalled(e: Env, w: World, id: nat, k: nat, t: Storing)
    requires Inv(e, w) && IsOpen(w, id) && k < |w.tokens| && w.tokens[k].rejected
    requires var s := w.sessions[id];
             var change := ResolveChange(s.payload, s.permit,
               Rejection(w.tokens[k].publication.intent, k, w.tokens[k].consumed));
             change.Write? && Stores(w, id, change.candidate, t) && Installed(w, id, change.candidate, t)
    ensures Inv(e, Resolved(w, id, k, t))
  {
    hide KeysAre;
    NotCleared(e, w, id, k);
    var v := Resolved(w, id, k, t);
    assert forall j | 0 <= j < |w.tokens| && j != k :: v.tokens[j] == w.tokens[j];
    forall j | 0 <= j < |v.tokens| ensures TokenOrdered(v.tokens[j]) { assert TokenOrdered(w.tokens[j]); }
    SessionReleased(w, v, id, k);
    OnlyOneLive(e, w, k);
    forall j: nat | j < |v.tokens| ensures !Live(v, j) { assert Live(w, j) ==> j == k; }
  }

  /** The token whose intent is on disk is the only one that can be live. */
  lemma OnlyOneLive(e: Env, w: World, k: nat)
    requires Inv(e, w) && k < |w.tokens| && w.tokens[k].issued && !w.tokens[k].cleared
    requires w.disk.Some? && w.disk.value.sealed.payload.intent == Some(w.tokens[k].publication.intent)
    ensures forall j: nat | j < |w.tokens| && Live(w, j) :: j == k
  {
    hide KeysAre;
    forall j: nat | j < |w.tokens| && Live(w, j) ensures j == k {
      assert LatchedOnDisk(e, w, w.tokens[j].publication.intent);
      assert w.tokens[j].publication.intent == w.tokens[k].publication.intent;
      assert Live(w, k);
    }
  }

  /** One session gives up the permit only it held. */
  lemma SessionReleased(w: World, v: World, id: nat, k: nat)
    requires k < |w.tokens| == |v.tokens| && id in w.sessions && id in v.sessions
    requires v.sessions == w.sessions[id := v.sessions[id]]
    requires v.sessions[id].Unlocked? ==>
               v.sessions[id].permit.None? && v.sessions[id].payload == v.sessions[id].raw.sealed.payload
    requires forall j | 0 <= j < |w.tokens| && j != k :: v.tokens[j] == w.tokens[j]
    requires forall i: nat | i != id :: !Holds(w, i, k)
    requires forall i | i in w.sessions :: SessionSound(w, w.sessions[i])
    requires forall i, j, m | Holds(w, i, m) && Holds(w, j, m) :: i == j
    ensures forall i | i in v.sessions :: SessionSound(v, v.sessions[i])
    ensures forall i, j, m | Holds(v, i, m) && Holds(v, j, m) :: i == j
  {
    forall i | i in v.sessions ensures SessionSound(v, v.sessions[i]) {
      if i != id { assert SessionSound(w, w.sessions[i]) && !Holds(w, i, k); }
    }
    forall i, j, m | Holds(v, i, m) && Holds(v, j, m) ensures i == j { assert Holds(w, i, m) && Holds(w, j, m); }
  }

  lemma FinalizeStep(e: Env, w: World, id: nat, confirmation: Confirmation, t: Storing)
    requires Inv(e, w) && IsOpen(w, id)
    ensures Inv(e, Finalized(e, w, id, confirmation, t))
  {
    hide KeysAre;
    var s := w.sessions[id];
    var change := FinalizeChange(e.pub, s.payload, confirmation);
    if confirmation in w.confirmed && change.Write? && Stores(w, id, change.candidate, t) {
      assert SessionSound(w, s);
      DiskAfter(w, id, change.candidate, t);
      if Installed(w, id, change.candidate, t) { FinalizeInstalled(e, w, id, confirmation, t); }
      else if t.outcome.Failed? {
        assert Finalized(e, w, id, confirmation, t) == w by { assert w.sessions[id := s] == w.sessions; }
      }
      else {
        assert Finalized(e, w, id, confirmation, t) == Next(e, w, Lock(id)) by { assert w.promoted + {} == w.promoted; }
        OpenAndLock(e, w, Lock(id));
      }
    }
  }

  lemma FinalizeInstalled(e: Env, w: World, id: nat, confirmation: Confirmation, t: Storing)
    requires Inv(e, w) && IsOpen(w, id) && confirmation in w.confirmed
    requires var change := FinalizeChange(e.pub, w.sessions[id].payload, confirmation);
             change.Write? && Stores(w, id, change.candidate, t) && Installed(w, id, change.candidate, t)
    ensures Inv(e, Finalized(e, w, id, confirmation, t))
  {
    hide KeysAre;
    assert SessionSound(w, w.sessions[id]);
    var v := Finalized(e, w, id, confirmation, t);
    SessionReplaced(w, v, id);
    forall k: nat | k < |v.tokens| ensures !Live(v, k) {
      if Live(w, k) { assert LatchedOnDisk(e, w, w.tokens[k].publication.intent); }
    }
  }

  // -------------------------------------------------------------- every run

  lemma NextKeeps(e: Env, w: World, a: Action)
    requires Inv(e, w)
    ensures Inv(e, Next(e, w, a))
  {
    hide Inv, PrepareChange, CancelChange, BindChange, Written, Latched, Ended, Resolved, Finalized, Migrated, Reviewed,
         ConfirmedBy;
    match a {
      case Open(id, password) => OpenAndLock(e, w, a);
      case Lock(id) => OpenAndLock(e, w, a);
      case Migrate(id, password, t) => OpenAndLock(e, w, a);
      case Prepare(id, seed, t) =>
        if IsOpen(w, id) {
          PrepareWhenUnlatched(e, w.sessions[id].payload, seed);
          UnlatchedWrite(e, w, id, PrepareChange(e.pub, w.sessions[id].payload, seed), t);
        }
      case Cancel(id, t) =>
        if IsOpen(w, id) {
          CancelWhenUnlatched(e, w.sessions[id].payload);
          UnlatchedWrite(e, w, id, CancelChange(e.pub, w.sessions[id].payload), t);
        }
      case Bind(id, environment, approved, t) =>
        if IsOpen(w, id) {
          BindWhenUnbound(w.sessions[id].payload, environment, approved);
          UnlatchedWrite(e, w, id, BindChange(w.sessions[id].payload, environment, approved), t);
        }
      case Latch(id, k, now, t) => if IsOpen(w, id) && k < |w.tokens| { LatchStep(e, w, id, k, now, t); }
      case Resolve(id, k, t) => if IsOpen(w, id) && k < |w.tokens| { ResolveStep(e, w, id, k, t); }
      case Finalize(id, confirmation, t) => if IsOpen(w, id) { FinalizeStep(e, w, id, confirmation, t); }
      case _ => TokenSteps(e, w, a);
    }
  }

  lemma PrepareWhenUnlatched(e: Env, p: Payload, seed: Bytes)
    ensures PrepareChange(e.pub, p, seed).Write? ==> p.intent.None?
  {
  }

  lemma CancelWhenUnlatched(e: Env, p: Payload)
    ensures CancelChange(e.pub, p).Write? ==> p.intent.None?
  {
  }

  lemma BindWhenUnbound(p: Payload, environment: string, approved: bool)
    ensures BindChange(p, environment, approved).Write? ==> p.intent.Some? && p.intent.value.environment.None?
  {
  }

  lemma {:induction false} RunKeeps(e: Env, w: World, actions: seq<Action>)
    requires Inv(e, w)
    ensures Inv(e, Run(e, w, actions))
    decreases |actions|
  {
    hide Inv, Next;
    if actions != [] {
      NextKeeps(e, w, actions[0]);
      RunKeeps(e, Next(e, w, actions[0]), actions[1..]);
    }
  }

  /**
   * Key retention. From any container on disk, over every run of any number of sessions, with
   * every storage outcome and any loss, delay or duplication of PUTs: every intent whose PUT
   * was ever sent has been promoted on disk, or is still latched there with both its seeds.
   */
  lemma KeyRetention(e: Env, disk: Option<Container>, actions: seq<Action>)
    ensures KeyRetained(e, Run(e, Start(disk), actions))
  {
    hide Run;
    StartHolds(e, disk);
    RunKeeps(e, Start(disk), actions);
    InvRetains(e, Run(e, Start(disk), actions));
  }

  // ------------------------------------------------------- promotion is sound

  /** The remote read a step makes, if it makes one. */
  function ReadbackOf(a: Action): Option<Readback>
  {
    match a
    case Confirm(_, b) => Some(b)
    case End(_, answers, _) => Some(answers.readback)
    case _ => None
  }

  /** This step read a remote envelope that verifies as the confirmed one. */
  ghost predicate Reads(c: Crypto, a: Action, k: Confirmation)
  {
    && ReadbackOf(a).Some? && ReadbackOf(a).value.remote.Some?
    && Confirms(c, k.intent, ReadbackOf(a).value.remote.value, ReadbackOf(a).value.lookup) == Some(k.stateHash)
  }

  lemma NextObserved(e: Env, w: World, a: Action)
    ensures forall k | k in Next(e, w, a).confirmed :: k in w.confirmed || Reads(e.crypto, a, k)
  {
    hide Confirms, Dispatched, Reviewed;
    if a.End? && a.token < |w.tokens|
      && Dispatched(e.crypto, w.tokens[a.token].publication, a.answers).confirmation.Some? {
      ConfirmationIsObserved(e.crypto, w.tokens[a.token].publication, a.answers);
    }
  }

  /** Every confirmation in hand was made by a remote read earlier in the run. */
  lemma {:induction false} RunObserved(e: Env, w: World, actions: seq<Action>)
    ensures forall k | k in Run(e, w, actions).confirmed ::
              k in w.confirmed || exists i | 0 <= i < |actions| :: Reads(e.crypto, actions[i], k)
    decreases |actions|
  {
    hide Reads, Next;
    if actions != [] {
      NextObserved(e, w, actions[0]);
      var rest := actions[1..];
      RunObserved(e, Next(e, w, actions[0]), rest);
      forall k | k in Run(e, w, actions).confirmed && k !in w.confirmed
        ensures exists i | 0 <= i < |actions| :: Reads(e.crypto, actions[i], k)
      {
        if k !in Next(e, w, actions[0]).confirmed {
          var i :| 0 <= i < |rest| && Reads(e.crypto, rest[i], k);
          assert Reads(e.crypto, actions[i + 1], k);
        }
      }
    }
  }

  ghost predicate ActiveChanges(w: World, v: World)
  {
    w.disk.Some? && v.disk.Some? && v.disk.value.sealed.payload.active != w.disk.value.sealed.payload.active
  }

  /** Whatever the step, the active key on disk changes only by a finalize with a known confirmation. */
  lemma OnlyFinalizePromotes(e: Env, w: World, a: Action)
    requires Inv(e, w) && ActiveChanges(w, Next(e, w, a))
    ensures a.Finalize? && a.confirmation in w.confirmed
    ensures var before, after := w.disk.value.sealed.payload, Next(e, w, a).disk.value.sealed.payload;
            && before.intent == Some(a.confirmation.intent) && KeysAre(e.pub, before, a.confirmation.intent)
            && after == before.(active := before.pending, pending := None, intent := None)
  {
    hide KeysAre, ActiveValid, PendingUsable, Reviewed, Dispatched, ConfirmedBy;
    if !(a.Publish? || a.Begin? || a.Put? || a.End? || a.Confirm? || a.Open? || a.Lock? || a.Migrate?) {
      if IsOpen(w, a.session) { assert SessionSound(w, w.sessions[a.session]); }
    }
  }

  /**
   * Promotion soundness. In every run, a step that changes the active key on disk makes the
   * latched successor active, after an earlier step read a remote envelope with exactly the
   * latched hash and verified its chain to an anchor with the intent's keys, hash and
   * sequence. When the public key really changes, that envelope is an owner-key rotation.
   */
  lemma PromotionSound(e: Env, disk: Option<Container>, actions: seq<Action>, a: Action)
    requires var w := Run(e, Start(disk), actions); ActiveChanges(w, Next(e, w, a))
    ensures var w := Run(e, Start(disk), actions);
            var before, after := w.disk.value.sealed.payload, Next(e, w, a).disk.value.sealed.payload;
            && a.Finalize? && before.intent == Some(a.confirmation.intent)
            && KeysAre(e.pub, before, a.confirmation.intent)
            && after == before.(active := before.pending, pending := None, intent := None)
            && exists i | 0 <= i < |actions| ::
                 && Reads(e.crypto, actions[i], a.confirmation)
                 && (after.active.value.publicKey != before.active.value.publicKey ==>
                     RotatesTo(e.crypto, a.confirmation.intent, ReadbackOf(actions[i]).value.remote.value))
  {
    hide Run, Next, Inv, Confirms, RotatesTo;
    var w := Run(e, Start(disk), actions);
    StartHolds(e, disk);
    RunKeeps(e, Start(disk), actions);
    RunObserved(e, Start(disk), actions);
    OnlyFinalizePromotes(e, w, a);
    var intent := a.confirmation.intent;
    var i :| 0 <= i < |actions| && Reads(e.crypto, actions[i], a.confirmation);
    var b := ReadbackOf(actions[i]).value;
    if intent.predecessorKey != intent.successorKey { ConfirmedRotates(e.crypto, intent, b.remote.value, b.lookup); }
  }

  lemma StartHolds(e: Env, disk: Option<Container>)
    ensures Inv(e, Start(disk))
  {
  }

  /** The remote envelope is the latched one and its operation is 5, to the intent's successor key. */
  ghost predicate RotatesTo(c: Crypto, intent: Intent, remote: Bytes)
  {
    var p := Kt.Parse(c, intent.owner, remote);
    && c.sha(remote) == intent.envelopeHash
    && p.Some? && p.value.Versioned? && p.value.auth.operation == 5
    && p.value.key == intent.successorKey && p.value.sequence == intent.sequence
    && p.value.auth.predecessor == intent.predecessorHash
  }

  lemma ConfirmedRotates(c: Crypto, intent: Intent, remote: Bytes, lookup: Lookup)
    requires Confirms(c, intent, remote, lookup).Some? && intent.predecessorKey != intent.successorKey
    ensures RotatesTo(c, intent, remote)
  {
    hide Confirms, Kt.Parse;
    ConfirmedIsRotation(c, intent, remote, lookup);
  }

  // ------------------------------------------- a promoted intent does not return

  /** This key pair is active on disk, and an intent there rotates away from it. */
  ghost predicate ActiveIs(w: World, pair: KeyPair)
  {
    && w.disk.Some? && w.disk.value.sealed.payload.active == Some(pair)
    && (w.disk.value.sealed.payload.intent.Some? ==>
         w.disk.value.sealed.payload.intent.value.predecessorKey == pair.publicKey)
  }

  /** Only a finalize makes another key active, and only for the active key is an intent latched. */
  lemma ActiveKept(e: Env, w: World, a: Action, pair: KeyPair)
    requires Inv(e, w) && ActiveIs(w, pair) && !a.Finalize?
    ensures ActiveIs(Next(e, w, a), pair)
  {
    hide ActiveValid, PendingUsable, PairValid, Reviewed, Dispatched, ConfirmedBy, Inv, Reports;
    if a.Prepare? || a.Cancel? || a.Bind? || a.Latch? || a.Resolve? {
      if IsOpen(w, a.session) { OpenHoldsContainer(e, w, a.session); }
    }
  }

  lemma OpenHoldsContainer(e: Env, w: World, id: nat)
    requires Inv(e, w) && IsOpen(w, id)
    ensures w.sessions[id].payload == w.sessions[id].raw.sealed.payload
  {
    assert SessionSound(w, w.sessions[id]);
  }

  lemma {:induction false} ActiveRuns(e: Env, w: World, more: seq<Action>, pair: KeyPair)
    requires Inv(e, w) && ActiveIs(w, pair) && forall i | 0 <= i < |more| :: !more[i].Finalize?
    ensures ActiveIs(Run(e, w, more), pair)
    decreases |more|
  {
    hide Inv, Next, ActiveIs;
    if more != [] {
      assert !more[0].Finalize?;
      NextKeeps(e, w, more[0]);
      ActiveKept(e, w, more[0], pair);
      ActiveRuns(e, Next(e, w, more[0]), more[1..], pair);
    }
  }

  /**
   * Promotion is told by intent, and an intent is not latched again after it: from the step that
   * promotes an intent between two keys, over every run until some other key is promoted, no equal
   * intent is on disk.
   */
  lemma PromotedNotLatchedAgain(e: Env, disk: Option<Container>, actions: seq<Action>, a: Action, more: seq<Action>,
          intent: Intent)
    requires var w := Run(e, Start(disk), actions); intent !in w.promoted && intent in Next(e, w, a).promoted
    requires intent.predecessorKey != intent.successorKey && forall i | 0 <= i < |more| :: !more[i].Finalize?
    ensures var v := Run(e, Next(e, Run(e, Start(disk), actions), a), more);
            v.disk.Some? && v.disk.value.sealed.payload.intent != Some(intent)
  {
    hide Run, Next, Inv;
    var w := Run(e, Start(disk), actions);
    StartHolds(e, disk);
    RunKeeps(e, Start(disk), actions);
    NextKeeps(e, w, a);
    JustPromoted(e, w, a, intent);
    var pair := Next(e, w, a).disk.value.sealed.payload.active.value;
    ActiveRuns(e, Next(e, w, a), more, pair);
  }

  lemma JustPromoted(e: Env, w: World, a: Action, intent: Intent)
    requires Inv(e, w) && intent !in w.promoted && intent in Next(e, w, a).promoted
    ensures var v := Next(e, w, a);
            v.disk.Some? && v.disk.value.sealed.payload.active.Some?
              && ActiveIs(v, v.disk.value.sealed.payload.active.value)
    ensures Next(e, w, a).disk.value.sealed.payload.active.value.publicKey == intent.successorKey
  {
    hide ActiveValid, PendingUsable, PairValid, Reviewed, Dispatched, ConfirmedBy, Inv, Reports;
  }
}
