/**
 * Key retention told by token and not by intent. An intent may be latched again once the key it
 * rotates from is active again, so a second token can carry an equal one; this says that each
 * token whose PUT was sent was itself promoted or is itself still latched. It needs what sealing
 * needs anyway, that no nonce is used twice.
 */
module TokenRetention {
  import opened Prelude
  import opened Rotation
  import opened RotationAdapter
  import opened RotationProtocol
  import opened KeyRetention

  // ----------------------------------------------------------------- history

  function StoringOf(a: Action): Option<Storing>
  {
    match a
    case Migrate(_, _, t) => Some(t)
    case Prepare(_, _, t) => Some(t)
    case Cancel(_, t) => Some(t)
    case Bind(_, _, _, t) => Some(t)
    case Latch(_, _, _, t) => Some(t)
    case Resolve(_, _, t) => Some(t)
    case Finalize(_, _, t) => Some(t)
    case _ => None
  }

  function UsedAfter(used: set<Bytes>, a: Action): set<Bytes>
  {
    if StoringOf(a).Some? then used + {StoringOf(a).value.nonce} else used
  }

  predicate NonceFresh(used: set<Bytes>, a: Action)
  {
    StoringOf(a).Some? ==> StoringOf(a).value.nonce !in used
  }

  /** No write uses a nonce that was used before. */
  predicate NoncesFresh(used: set<Bytes>, actions: seq<Action>)
    decreases |actions|
  {
    actions == [] || (NonceFresh(used, actions[0]) && NoncesFresh(UsedAfter(used, actions[0]), actions[1..]))
  }

  function NonceOnDisk(disk: Option<Container>): set<Bytes>
  {
    if disk.Some? then {disk.value.sealed.nonce} else {}
  }

  /** Issued, not cleared, and not itself promoted. */
  ghost predicate Alive(w: World, done: set<nat>, k: nat)
    requires k < |w.tokens|
  {
    w.tokens[k].issued && !w.tokens[k].cleared && k !in done
  }

  /** A finalize that reaches the disk. */
  ghost predicate Promotes(e: Env, w: World, a: Action)
  {
    && a.Finalize? && IsOpen(w, a.session) && a.confirmation in w.confirmed
    && var change := FinalizeChange(e.pub, w.sessions[a.session].payload, a.confirmation);
       change.Write? && Stores(w, a.session, change.candidate, a.storing)
       && Installed(w, a.session, change.candidate, a.storing)
  }

  /** The tokens promoted so far: a finalize promotes the one still alive with its intent. */
  ghost function DoneAfter(e: Env, w: World, done: set<nat>, a: Action): set<nat>
  {
    if Promotes(e, w, a) then
      done + set k: nat | k < |w.tokens| && Alive(w, done, k) && w.tokens[k].publication.intent == a.confirmation.intent
    else done
  }

  ghost function Promoted(e: Env, w: World, done: set<nat>, actions: seq<Action>): set<nat>
    decreases |actions|
  {
    if actions == [] then done
    else Promoted(e, Next(e, w, actions[0]), DoneAfter(e, w, done, actions[0]), actions[1..])
  }

  // --------------------------------------------------------------- invariant

  ghost predicate AliveLatched(e: Env, w: World, done: set<nat>)
  {
    && (forall k: nat | k < |w.tokens| && Alive(w, done, k) :: LatchedOnDisk(e, w, w.tokens[k].publication.intent))
    && (forall j: nat, k: nat | j < |w.tokens| && k < |w.tokens| && Alive(w, done, j) && Alive(w, done, k) :: j == k)
  }

  /** A session that still has what is on disk does not hold the permit of a promoted token. */
  ghost predicate PermitsCurrent(w: World, done: set<nat>)
  {
    forall id, k | Holds(w, id, k) && w.disk == Some(w.sessions[id].raw) :: k !in done
  }

  ghost predicate NoncesKnown(w: World, used: set<Bytes>)
  {
    && (w.disk.Some? ==> w.disk.value.sealed.nonce in used)
    && (forall id | IsOpen(w, id) :: w.sessions[id].raw.sealed.nonce in used)
  }

  ghost predicate DoneIssued(w: World, done: set<nat>)
  {
    forall k | k in done :: k < |w.tokens| && w.tokens[k].issued
  }

  ghost predicate TokenInv(e: Env, w: World, done: set<nat>, used: set<Bytes>)
  {
    Inv(e, w) && AliveLatched(e, w, done) && PermitsCurrent(w, done) && NoncesKnown(w, used) && DoneIssued(w, done)
  }

  // ------------------------------------------------------------ kinds of step

  /** The disk stays, tokens keep their latch, and a session is as before or opened from the disk. */
  ghost predicate Still(w: World, v: World)
  {
    && v.disk == w.disk && |v.tokens| >= |w.tokens|
    && (forall k | 0 <= k < |w.tokens| ::
          && v.tokens[k].publication == w.tokens[k].publication
          && v.tokens[k].issued == w.tokens[k].issued && v.tokens[k].cleared == w.tokens[k].cleared)
    && (forall k | |w.tokens| <= k < |v.tokens| :: !v.tokens[k].issued)
    && (forall id | IsOpen(v, id) ::
          || (IsOpen(w, id) && v.sessions[id] == w.sessions[id])
          || (v.sessions[id].permit.None? && v.disk == Some(v.sessions[id].raw)))
  }

  lemma StillKeeps(e: Env, w: World, v: World, done: set<nat>, used: set<Bytes>, more: set<Bytes>)
    requires TokenInv(e, w, done, used) && Inv(e, v) && Still(w, v) && used <= more
    ensures TokenInv(e, v, done, more)
  {
    hide Inv, KeysAre;
    forall k: nat | k < |v.tokens| && Alive(v, done, k) ensures LatchedOnDisk(e, v, v.tokens[k].publication.intent) {
      assert k < |w.tokens| && Alive(w, done, k);
    }
    forall j: nat, k: nat | j < |v.tokens| && k < |v.tokens| && Alive(v, done, j) && Alive(v, done, k) ensures j == k {
      assert Alive(w, done, j) && Alive(w, done, k);
    }
    forall id, k | Holds(v, id, k) && v.disk == Some(v.sessions[id].raw) ensures k !in done { assert Holds(w, id, k); }
  }

  /** The disk was written with this nonce, by a session that is locked now or has what it wrote. */
  ghost predicate Moved(w: World, v: World, nonce: Bytes, done: set<nat>)
  {
    && v.disk.Some? && v.disk.value.sealed.nonce == nonce
    && (forall id | IsOpen(v, id) ::
          || (IsOpen(w, id) && v.sessions[id] == w.sessions[id])
          || (v.sessions[id].raw.sealed.nonce == nonce
              && (v.sessions[id].permit.Some? ==> v.sessions[id].permit.value !in done)))
  }

  lemma MovedKeeps(e: Env, w: World, v: World, nonce: Bytes, done: set<nat>, used: set<Bytes>)
    requires NoncesKnown(w, used) && nonce !in used && Inv(e, v) && Moved(w, v, nonce, done)
    requires AliveLatched(e, v, done) && DoneIssued(v, done)
    ensures TokenInv(e, v, done, used + {nonce})
  {
    hide Inv, AliveLatched;
  }

  /** With nothing latched, or an intent no publication can carry, no token is alive. */
  lemma NobodyAlive(e: Env, w: World, done: set<nat>, used: set<Bytes>)
    requires TokenInv(e, w, done, used) && w.disk.Some?
    requires w.disk.value.sealed.payload.intent.None? || w.disk.value.sealed.payload.intent.value.environment.None?
    ensures forall k: nat | k < |w.tokens| :: !Alive(w, done, k)
  {
    hide KeysAre;
    forall k: nat | k < |w.tokens| ensures !Alive(w, done, k) { assert TokenOrdered(w.tokens[k]); }
  }

  // ------------------------------------------------------------------- steps

  /** A write by a session: the disk stays and the session is as before or locked, or the disk is what it wrote. */
  lemma WriteShape(w: World, id: nat, candidate: Payload, t: Storing, permit: Option<nat>)
    requires IsOpen(w, id) && Stores(w, id, candidate, t)
    ensures var v := Stored(w, id, candidate, t, permit);
            if Installed(w, id, candidate, t) then
              && w.disk == Some(w.sessions[id].raw)
              && v.disk == Some(Replacement(w.sessions[id], candidate, t.nonce))
              && (v.sessions[id].Unlocked? ==>
                   Some(v.sessions[id].raw) == v.disk && v.sessions[id].permit == permit)
            else v.disk == w.disk && (v.sessions[id] == Locked || v.sessions[id] == w.sessions[id])
  {
  }

  lemma PlainStep(e: Env, w: World, id: nat, change: Change, t: Storing, done: set<nat>, used: set<Bytes>)
    requires TokenInv(e, w, done, used) && IsOpen(w, id) && t.nonce !in used && Inv(e, Written(w, id, change, t))
    requires change.Write? ==>
               w.sessions[id].payload.intent.None? || w.sessions[id].payload.intent.value.environment.None?
    ensures TokenInv(e, Written(w, id, change, t), done, used + {t.nonce})
  {
    hide KeysAre, Inv, Stored, Stores, Installed;
    var v := Written(w, id, change, t);
    if change.Write? && Stores(w, id, change.candidate, t) {
      NoPermit(e, w, id);
      WriteShape(w, id, change.candidate, t, w.sessions[id].permit);
      StoredOthers(w, id, change.candidate, t, w.sessions[id].permit);
      if Installed(w, id, change.candidate, t) {
        NobodyAlive(e, w, done, used);
        forall k: nat | k < |v.tokens| ensures !Alive(v, done, k) { assert !Alive(w, done, k); }
        MovedKeeps(e, w, v, t.nonce, done, used);
      } else {
        StillKeeps(e, w, v, done, used, used + {t.nonce});
      }
    } else {
      StillKeeps(e, w, v, done, used, used + {t.nonce});
    }
  }

  lemma StoredOthers(w: World, id: nat, candidate: Payload, t: Storing, permit: Option<nat>)
    requires IsOpen(w, id)
    ensures var v := Stored(w, id, candidate, t, permit);
            v.tokens == w.tokens && v.sessions == w.sessions[id := v.sessions[id]]
  {
  }

  lemma LatchTokens(
    e: Env, w: World, id: nat, k: nat, now: int, t: Storing, done: set<nat>, used: set<Bytes>)
    requires TokenInv(e, w, done, used) && IsOpen(w, id) && k < |w.tokens| && t.nonce !in used
    requires Inv(e, Latched(e, w, id, k, now, t))
    ensures TokenInv(e, Latched(e, w, id, k, now, t), done, used + {t.nonce})
  {
    hide KeysAre, Inv, LatchChange, Stores, Installed;
    var v, token := Latched(e, w, id, k, now, t), w.tokens[k];
    var change := LatchChange(e.crypto, e.pub, w.sessions[id].payload, token.publication);
    if !LatchReady(w.sessions[id], token.publication.expiresAt, now, token.claimed) {
      StillKeeps(e, w, v, done, used, used + {t.nonce});
    } else {
      NotClaimedNotIssued(e, w, k);
      if change.Write? && Stores(w, id, change.candidate, t) && Installed(w, id, change.candidate, t) {
        LatchPlaced(e, w, id, k, now, t, done, used);
      } else {
        if change.Write? && Stores(w, id, change.candidate, t) { LatchFailed(w, id, change.candidate, t, k); }
        StillKeeps(e, w, v, done, used, used + {t.nonce});
      }
    }
  }

  /** The file was unlatched, so no token was owed; the new one is, and only if its permit was made. */
  lemma LatchPlaced(
    e: Env, w: World, id: nat, k: nat, now: int, t: Storing, done: set<nat>, used: set<Bytes>)
    requires TokenInv(e, w, done, used) && IsOpen(w, id) && k < |w.tokens| && t.nonce !in used
    requires Inv(e, Latched(e, w, id, k, now, t))
    requires LatchReady(w.sessions[id], w.tokens[k].publication.expiresAt, now, w.tokens[k].claimed)
    requires var change := LatchChange(e.crypto, e.pub, w.sessions[id].payload, w.tokens[k].publication);
             change.Write? && Stores(w, id, change.candidate, t) && Installed(w, id, change.candidate, t)
    ensures TokenInv(e, Latched(e, w, id, k, now, t), done, used + {t.nonce})
  {
    hide KeysAre, Inv, LatchChange, Stores, Installed, TokenInv, PermitsCurrent;
    var v, token := Latched(e, w, id, k, now, t), w.tokens[k];
    var change := LatchChange(e.crypto, e.pub, w.sessions[id].payload, token.publication);
    TokenInvInv(e, w, done, used);
    NotClaimedNotIssued(e, w, k);
    LatchWrites(e, w.sessions[id].payload, token.publication);
    WriteShape(w, id, change.candidate, t, Some(k));
    NoPermit(e, w, id);
    NobodyAlive(e, w, done, used);
    assert forall j: nat | j < |v.tokens| && j != k :: v.tokens[j] == w.tokens[j];
    forall j: nat | j < |v.tokens| && j != k ensures !Alive(v, done, j) { assert !Alive(w, done, j); }
    MovedKeeps(e, w, v, t.nonce, done, used);
  }

  lemma LatchFailed(w: World, id: nat, candidate: Payload, t: Storing, k: nat)
    requires IsOpen(w, id) && Stores(w, id, candidate, t) && !Installed(w, id, candidate, t)
    ensures !t.outcome.Replaced?
    ensures var v := Stored(w, id, candidate, t, Some(k));
            v.disk == w.disk && (v.sessions[id] == Locked || v.sessions[id] == w.sessions[id])
  {
  }

  lemma ResolveTokens(e: Env, w: World, id: nat, k: nat, t: Storing, done: set<nat>, used: set<Bytes>)
    requires TokenInv(e, w, done, used) && IsOpen(w, id) && k < |w.tokens| && t.nonce !in used
    requires Inv(e, Resolved(w, id, k, t))
    ensures TokenInv(e, Resolved(w, id, k, t), done, used + {t.nonce})
  {
    hide KeysAre, Inv, Stores, Installed;
    var v, s := Resolved(w, id, k, t), w.sessions[id];
    var change := ResolveChange(s.payload, s.permit,
      Rejection(w.tokens[k].publication.intent, k, w.tokens[k].consumed));
    if !w.tokens[k].rejected || !change.Write? || !Stores(w, id, change.candidate, t) {
      StillKeeps(e, w, v, done, used, used + {t.nonce});
    } else {
      NotCleared(e, w, id, k);
      WriteShape(w, id, change.candidate, t, None);
      if Installed(w, id, change.candidate, t) {
        assert k !in done by { assert Holds(w, id, k); }
        assert Alive(w, done, k);
        forall j: nat | j < |v.tokens| ensures !Alive(v, done, j) {
          assert j != k && Alive(v, done, j) ==> Alive(w, done, j);
        }
        MovedKeeps(e, w, v, t.nonce, done, used);
      } else {
        StillKeeps(e, w, v, done, used, used + {t.nonce});
      }
    }
  }

  lemma FinalizeTokens(
    e: Env, w: World, id: nat, confirmation: Confirmation, t: Storing, done: set<nat>, used: set<Bytes>)
    requires TokenInv(e, w, done, used) && IsOpen(w, id) && t.nonce !in used
    requires Inv(e, Finalized(e, w, id, confirmation, t))
    ensures var all := DoneAfter(e, w, done, Finalize(id, confirmation, t));
            TokenInv(e, Finalized(e, w, id, confirmation, t), all, used + {t.nonce})
  {
    hide KeysAre, Inv, Stores, Installed;
    var v := Finalized(e, w, id, confirmation, t);
    var change := FinalizeChange(e.pub, w.sessions[id].payload, confirmation);
    if confirmation !in w.confirmed || !change.Write? || !Stores(w, id, change.candidate, t) {
      StillKeeps(e, w, v, done, used, used + {t.nonce});
    } else {
      WriteShape(w, id, change.candidate, t, None);
      if Installed(w, id, change.candidate, t) {
        var all := DoneAfter(e, w, done, Finalize(id, confirmation, t));
        OpenHoldsContainer(e, w, id);
        forall k: nat | k < |v.tokens| ensures !Alive(v, all, k) {
          if Alive(w, done, k) { assert LatchedOnDisk(e, w, w.tokens[k].publication.intent); }
        }
        MovedKeeps(e, w, v, t.nonce, all, used);
      } else {
        StillKeeps(e, w, v, done, used, used + {t.nonce});
      }
    }
  }

  lemma MigrateTokens(
    e: Env, w: World, id: nat, password: string, t: Storing, done: set<nat>, used: set<Bytes>)
    requires TokenInv(e, w, done, used) && t.nonce !in used && Inv(e, Migrated(w, id, password, t))
    ensures TokenInv(e, Migrated(w, id, password, t), done, used + {t.nonce})
  {
    hide KeysAre, Inv;
    var v := Migrated(w, id, password, t);
    if v.disk == w.disk && !(v != w && t.outcome.Replaced?) {
      StillKeeps(e, w, v, done, used, used + {t.nonce});
    } else {
      forall k: nat | k < |v.tokens| && Alive(v, done, k) ensures LatchedOnDisk(e, v, v.tokens[k].publication.intent) {
        assert Alive(w, done, k);
      }
      forall j: nat, k: nat | j < |v.tokens| && k < |v.tokens| && Alive(v, done, j) && Alive(v, done, k)
        ensures j == k
      {
        assert Alive(w, done, j) && Alive(w, done, k);
      }
      MovedKeeps(e, w, v, t.nonce, done, used);
    }
  }

  lemma OtherTokens(e: Env, w: World, a: Action, done: set<nat>, used: set<Bytes>)
    requires TokenInv(e, w, done, used) && StoringOf(a).None? && Inv(e, Next(e, w, a))
    ensures TokenInv(e, Next(e, w, a), done, used)
  {
    hide Inv, Next;
    InvTokens(e, w);
    OtherStill(e, w, a);
    StillKeeps(e, w, Next(e, w, a), done, used, used);
  }

  lemma OtherStill(e: Env, w: World, a: Action)
    requires StoringOf(a).None? && forall k | 0 <= k < |w.tokens| :: TokenOrdered(w.tokens[k])
    ensures Still(w, Next(e, w, a))
  {
    hide Reviewed, Dispatched, ConfirmedBy, TokenOrdered, Reports;
    if a.Publish? { PublishStep(e, w, a); }
    else if a.End? { EndStep(e, w, a); }
    else if a.Begin? || a.Put? || a.Confirm? { FlagStep(e, w, a); }
  }

  lemma StepKeeps(e: Env, w: World, a: Action, done: set<nat>, used: set<Bytes>)
    requires TokenInv(e, w, done, used) && NonceFresh(used, a)
    ensures TokenInv(e, Next(e, w, a), DoneAfter(e, w, done, a), UsedAfter(used, a))
  {
    hide Inv, TokenInv, PrepareChange, CancelChange, BindChange, Written, Latched, Ended, Resolved, Finalized, Migrated,
         Reviewed, ConfirmedBy, FinalizeChange, ResolveChange;
    TokenInvInv(e, w, done, used);
    NextKeeps(e, w, a);
    match a {
      case Migrate(id, password, t) => MigrateTokens(e, w, id, password, t, done, used);
      case Prepare(id, seed, t) =>
        if IsOpen(w, id) {
          PrepareWhenUnlatched(e, w.sessions[id].payload, seed);
          PlainStep(e, w, id, PrepareChange(e.pub, w.sessions[id].payload, seed), t, done, used);
        } else { MoreNonces(e, w, done, used, t.nonce); }
      case Cancel(id, t) =>
        if IsOpen(w, id) {
          CancelWhenUnlatched(e, w.sessions[id].payload);
          PlainStep(e, w, id, CancelChange(e.pub, w.sessions[id].payload), t, done, used);
        } else { MoreNonces(e, w, done, used, t.nonce); }
      case Bind(id, environment, approved, t) =>
        if IsOpen(w, id) {
          BindWhenUnbound(w.sessions[id].payload, environment, approved);
          PlainStep(e, w, id, BindChange(w.sessions[id].payload, environment, approved), t, done, used);
        } else { MoreNonces(e, w, done, used, t.nonce); }
      case Latch(id, k, now, t) =>
        if IsOpen(w, id) && k < |w.tokens| { LatchTokens(e, w, id, k, now, t, done, used); }
        else { MoreNonces(e, w, done, used, t.nonce); }
      case Resolve(id, k, t) =>
        if IsOpen(w, id) && k < |w.tokens| { ResolveTokens(e, w, id, k, t, done, used); }
        else { MoreNonces(e, w, done, used, t.nonce); }
      case Finalize(id, confirmation, t) =>
        if IsOpen(w, id) { FinalizeTokens(e, w, id, confirmation, t, done, used); }
        else { MoreNonces(e, w, done, used, t.nonce); }
      case _ => OtherTokens(e, w, a, done, used);
    }
  }

  lemma TokenInvInv(e: Env, w: World, done: set<nat>, used: set<Bytes>)
    requires TokenInv(e, w, done, used)
    ensures Inv(e, w) && NoncesKnown(w, used) && DoneIssued(w, done)
  {
  }

  lemma MoreNonces(e: Env, w: World, done: set<nat>, used: set<Bytes>, nonce: Bytes)
    requires TokenInv(e, w, done, used)
    ensures TokenInv(e, w, done, used + {nonce})
  {
    hide Inv, AliveLatched, PermitsCurrent;
  }

  // ---------------------------------------------------------------- every run

  lemma {:induction false} RunKeepsTokens(e: Env, w: World, actions: seq<Action>, done: set<nat>, used: set<Bytes>)
    returns (all: set<Bytes>)
    requires TokenInv(e, w, done, used) && NoncesFresh(used, actions)
    ensures TokenInv(e, Run(e, w, actions), Promoted(e, w, done, actions), all)
    decreases |actions|
  {
    hide TokenInv, Next, NonceFresh, UsedAfter, DoneAfter;
    all := used;
    if actions != [] {
      StepKeeps(e, w, actions[0], done, used);
      all := RunKeepsTokens(e, Next(e, w, actions[0]), actions[1..], DoneAfter(e, w, done, actions[0]),
        UsedAfter(used, actions[0]));
    }
  }

  /**
   * Key retention by token. From any container on disk, over every run in which no nonce is used
   * twice: every token whose PUT was ever sent was itself promoted, or its intent is still latched
   * on disk with both seeds; and of the tokens whose intent is still owed, there is at most one.
   */
  lemma TokenRetained(e: Env, disk: Option<Container>, actions: seq<Action>, k: nat)
    requires NoncesFresh(NonceOnDisk(disk), actions)
    requires k < |Run(e, Start(disk), actions).tokens| && Run(e, Start(disk), actions).tokens[k].sent != []
    ensures var w := Run(e, Start(disk), actions);
            k in Promoted(e, Start(disk), {}, actions) || LatchedOnDisk(e, w, w.tokens[k].publication.intent)
    ensures var w, done := Run(e, Start(disk), actions), Promoted(e, Start(disk), {}, actions);
            k !in done ==> forall j: nat | j < |w.tokens| && w.tokens[j].sent != [] && j !in done :: j == k
  {
    hide Run, Promoted, NoncesFresh, KeysAre;
    StartHolds(e, disk);
    var used := RunKeepsTokens(e, Start(disk), actions, {}, NonceOnDisk(disk));
    var w, done := Run(e, Start(disk), actions), Promoted(e, Start(disk), {}, actions);
    SentAlive(e, w, done, k);
    forall j: nat | j < |w.tokens| && w.tokens[j].sent != [] && j !in done ensures k in done || j == k {
      SentAlive(e, w, done, j);
    }
  }

  lemma SentAlive(e: Env, w: World, done: set<nat>, k: nat)
    requires Inv(e, w) && k < |w.tokens| && w.tokens[k].sent != []
    ensures k in done || Alive(w, done, k)
  {
    assert TokenOrdered(w.tokens[k]);
  }
}
