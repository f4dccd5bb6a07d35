/** What must have happened earlier in a run for the protocol to be where it is, and what each step changes on disk. */
module RotationHistory {
  import opened Prelude
  import opened Identity
  import opened AtomicFiles
  import opened Rotation
  import opened RotationAdapter
  import opened RotationProtocol
  import opened KeyRetention
  import Transport

  // ------------------------------------------------------------ tokens by step

  /** What one step may do to a token. */
  ghost predicate TokenMoves(e: Env, t: Token, u: Token, k: nat, a: Action)
  {
    && u.publication == t.publication
    && (u.issued && !t.issued ==> a.Latch? && a.token == k && a.now < t.publication.expiresAt)
    && (u.started && !t.started ==> a == Begin(k) && t.issued)
    && (u.sent != t.sent ==>
         a.Put? && a.token == k && t.started && u.sent == t.sent + [Transport.Sent(a.peer, t.publication.envelope)])
    && (u.ended && !t.ended ==>
         a.End? && a.token == k && u.rejected == Dispatched(e.crypto, t.publication, a.answers).rejected)
    && (t.ended ==> u.ended && u.rejected == t.rejected)
    && (!u.ended ==> u.rejected == t.rejected)
  }

  lemma OldTokenMoves(e: Env, w: World, a: Action, k: nat)
    requires k < |w.tokens|
    ensures k < |Next(e, w, a).tokens| && TokenMoves(e, w.tokens[k], Next(e, w, a).tokens[k], k, a)
  {
    hide Dispatched, Reviewed, ConfirmedBy, Reports, PrepareChange, CancelChange, BindChange, LatchChange,
         ResolveChange, FinalizeChange, PersistedWith, Permits;
  }

  lemma NewTokenPublished(e: Env, w: World, a: Action, k: nat)
    requires |w.tokens| <= k < |Next(e, w, a).tokens|
    ensures a.Publish? && k == |w.tokens|
    ensures var t := Next(e, w, a).tokens[k];
            && Reviewed(e.crypto, a.intent, a.envelope, a.expiresAt, a.review) == Some(t.publication)
            && !t.issued && !t.started && t.sent == [] && !t.ended && !t.rejected
  {
    hide Dispatched, Reviewed, ConfirmedBy, Reports, PrepareChange, CancelChange, BindChange, LatchChange,
         ResolveChange, FinalizeChange, PersistedWith, Permits;
  }

  // ---------------------------------------------------------------- history

  /** This step asked for consent to exactly this publication and got it. */
  ghost predicate AskedFor(e: Env, a: Action, p: Publication)
  {
    && a.Publish? && a.intent == p.intent && a.envelope == p.envelope && a.expiresAt == p.expiresAt
    && Consented(e.crypto, a.intent, a.envelope, a.expiresAt, a.review)
  }

  /** This step latched token k before its consent expired. */
  predicate LatchedInTime(a: Action, k: nat, p: Publication)
  {
    a.Latch? && a.token == k && a.now < p.expiresAt
  }

  /** This step ended token k's dispatch: consent had run out, and the registry showed another envelope. */
  ghost predicate EndedUnsent(e: Env, a: Action, k: nat, p: Publication)
  {
    a.End? && a.token == k && RanOut(e.crypto, p, a.answers) && ShowsOther(e.crypto, p.intent, a.answers.readback)
  }

  /** The steps behind a token, in their order. */
  ghost predicate Explained(e: Env, actions: seq<Action>, k: nat, t: Token)
  {
    && (forall s | s in t.sent :: s.envelope == t.publication.envelope)
    && exists i | 0 <= i < |actions| ::
         && AskedFor(e, actions[i], t.publication)
         && (t.issued ==> LatchedAfter(actions, i, k, t.publication))
         && (t.rejected ==> EndedAfter(e, actions, i, k, t.publication))
  }

  ghost predicate LatchedAfter(actions: seq<Action>, i: nat, k: nat, p: Publication)
  {
    exists j | i < j < |actions| :: LatchedInTime(actions[j], k, p)
  }

  ghost predicate EndedAfter(e: Env, actions: seq<Action>, i: nat, k: nat, p: Publication)
  {
    exists j | i < j < |actions| :: EndedUnsent(e, actions[j], k, p)
  }

  lemma {:induction false} RunLast(e: Env, w: World, actions: seq<Action>)
    requires actions != []
    ensures var n := |actions| - 1; Run(e, w, actions) == Next(e, Run(e, w, actions[..n]), actions[n])
    decreases |actions|
  {
    hide Next;
    var n := |actions| - 1;
    if n == 0 {
      assert actions[..0] == [] && actions[1..] == [];
    } else {
      RunLast(e, Next(e, w, actions[0]), actions[1..]);
      assert actions[1..][..n - 1] == actions[..n][1..];
    }
  }

  lemma ExplainedNext(e: Env, actions: seq<Action>, k: nat, t: Token, u: Token)
    requires actions != [] && Explained(e, actions[..|actions| - 1], k, t)
    requires TokenMoves(e, t, u, k, actions[|actions| - 1])
    ensures Explained(e, actions, k, u)
  {
    hide AskedFor, RanOut, ShowsOther, Dispatched, Reviewed;
    var n := |actions| - 1;
    var fewer, a := actions[..n], actions[n];
    var i :| 0 <= i < n && AskedFor(e, fewer[i], t.publication)
             && (t.issued ==> LatchedAfter(fewer, i, k, t.publication))
             && (t.rejected ==> EndedAfter(e, fewer, i, k, t.publication));
    assert AskedFor(e, actions[i], u.publication);
    if u.issued {
      if t.issued {
        var j :| i < j < n && LatchedInTime(fewer[j], k, t.publication);
        assert LatchedInTime(actions[j], k, u.publication);
      } else {
        assert LatchedInTime(actions[n], k, u.publication);
      }
    }
    if u.rejected {
      if t.rejected {
        var j :| i < j < n && EndedUnsent(e, fewer[j], k, t.publication);
        assert EndedUnsent(e, actions[j], k, u.publication);
      } else {
        DispatchExactly(e.crypto, t.publication, a.answers);
        assert EndedUnsent(e, actions[n], k, u.publication);
      }
    }
  }

  lemma {:induction false} RunExplained(e: Env, disk: Option<Container>, actions: seq<Action>, k: nat)
    requires k < |Run(e, Start(disk), actions).tokens|
    ensures Explained(e, actions, k, Run(e, Start(disk), actions).tokens[k])
    decreases |actions|
  {
    hide Next, Explained, TokenMoves;
    if actions != [] {
      var n := |actions| - 1;
      var w := Run(e, Start(disk), actions[..n]);
      RunLast(e, Start(disk), actions);
      if k < |w.tokens| {
        RunExplained(e, disk, actions[..n], k);
        OldTokenMoves(e, w, actions[n], k);
        ExplainedNext(e, actions, k, w.tokens[k], Run(e, Start(disk), actions).tokens[k]);
      } else {
        NewTokenPublished(e, w, actions[n], k);
        NewExplained(e, actions, k, Run(e, Start(disk), actions).tokens[k]);
      }
    }
  }

  lemma NewExplained(e: Env, actions: seq<Action>, k: nat, t: Token)
    requires actions != [] && actions[|actions| - 1].Publish? && !t.issued && !t.rejected && t.sent == []
    requires var a := actions[|actions| - 1];
             Reviewed(e.crypto, a.intent, a.envelope, a.expiresAt, a.review) == Some(t.publication)
    ensures Explained(e, actions, k, t)
  {
    hide Reviewed, Consented;
    var a := actions[|actions| - 1];
    PublishedExactly(e.crypto, a.intent, a.envelope, a.expiresAt, a.review);
    assert AskedFor(e, actions[|actions| - 1], t.publication);
  }

  /**
   * Over every run: a token whose PUT was ever sent was published by an earlier step in which the
   * user approved exactly this intent and envelope, with a new nonce and before expiry, and the
   * candidate verified over the state read before consent and after it; and a later step latched
   * it before that consent expired. Nothing but that envelope was sent.
   */
  lemma SentWasConsented(e: Env, disk: Option<Container>, actions: seq<Action>, k: nat)
    requires k < |Run(e, Start(disk), actions).tokens| && Run(e, Start(disk), actions).tokens[k].sent != []
    ensures var t := Run(e, Start(disk), actions).tokens[k];
            && (forall s | s in t.sent :: s.envelope == t.publication.envelope)
            && exists i | 0 <= i < |actions| ::
                 AskedFor(e, actions[i], t.publication) && LatchedAfter(actions, i, k, t.publication)
  {
    hide Run, Inv, AskedFor, LatchedAfter, EndedAfter;
    RunExplained(e, disk, actions, k);
    StartHolds(e, disk);
    RunKeeps(e, Start(disk), actions);
    InvTokens(e, Run(e, Start(disk), actions));
    assert TokenOrdered(Run(e, Start(disk), actions).tokens[k]);
  }

  /**
   * Over every run: a token whose intent was cleared ended in a dispatch that sent nothing, after
   * consent had run out, and whose own read-back showed another envelope than the intent's.
   */
  lemma ClearedWasUnsent(e: Env, disk: Option<Container>, actions: seq<Action>, k: nat)
    requires k < |Run(e, Start(disk), actions).tokens| && Run(e, Start(disk), actions).tokens[k].cleared
    ensures Run(e, Start(disk), actions).tokens[k].sent == []
    ensures var p := Run(e, Start(disk), actions).tokens[k].publication;
            exists i | 0 <= i < |actions| :: EndedUnsent(e, actions[i], k, p)
  {
    hide Run, Inv, AskedFor, LatchedAfter, EndedUnsent;
    RunExplained(e, disk, actions, k);
    StartHolds(e, disk);
    RunKeeps(e, Start(disk), actions);
    InvTokens(e, Run(e, Start(disk), actions));
    assert TokenOrdered(Run(e, Start(disk), actions).tokens[k]);
  }

  /** How a dispatch ended is never changed again. */
  lemma {:induction false} EndStays(e: Env, w: World, more: seq<Action>, k: nat)
    requires k < |w.tokens| && w.tokens[k].ended
    ensures var v := Run(e, w, more); k < |v.tokens| && v.tokens[k].rejected == w.tokens[k].rejected
    decreases |more|
  {
    hide Next;
    if more != [] {
      OldTokenMoves(e, w, more[0], k);
      EndStays(e, Next(e, w, more[0]), more[1..], k);
    }
  }

  /** So a token whose ending read-back showed the intent's own envelope is never cleared, in any further run. */
  lemma ShownIsNeverCleared(
    e: Env, disk: Option<Container>, actions: seq<Action>, a: Action, more: seq<Action>)
    requires var w := Run(e, Start(disk), actions);
             && a.End? && a.token < |w.tokens| && !w.tokens[a.token].ended
             && a.token < |Next(e, w, a).tokens| && Next(e, w, a).tokens[a.token].ended
             && a.answers.readback.remote.Some?
             && e.crypto.sha(a.answers.readback.remote.value) == w.tokens[a.token].publication.intent.envelopeHash
    ensures var v := Run(e, Next(e, Run(e, Start(disk), actions), a), more);
            a.token < |v.tokens| && !v.tokens[a.token].cleared
  {
    hide Run, Next, Inv, Dispatched, RanOut;
    var w := Run(e, Start(disk), actions);
    var v := Run(e, Next(e, w, a), more);
    OldTokenMoves(e, w, a, a.token);
    DispatchExactly(e.crypto, w.tokens[a.token].publication, a.answers);
    EndStays(e, Next(e, w, a), more, a.token);
    StartHolds(e, disk);
    RunKeeps(e, Start(disk), actions);
    NextKeeps(e, w, a);
    RunKeeps(e, Next(e, w, a), more);
    InvTokens(e, v);
    assert TokenOrdered(v.tokens[a.token]);
  }

  // ------------------------------------------------------ what changes on disk

  /** The change of the stored payload that a step of this kind makes when it makes one. */
  ghost predicate PayloadMoves(e: Env, w: World, p: Payload, q: Payload, a: Action)
  {
    match a
    case Prepare(id, seed, t) =>
      && p.intent.None? && p.pending.None? && p.active.Some? && e.pub(seed) != p.active.value.publicKey
      && q == p.(pending := Some(KeyPair(seed, e.pub(seed))))
    case Cancel(id, t) => p.intent.None? && p.pending.Some? && q == p.(pending := None)
    case Bind(id, environment, approved, t) =>
      && approved && p.intent.Some? && p.intent.value.environment.None?
      && q == p.(intent := Some(p.intent.value.(environment := Some(environment))))
    case Latch(id, k, now, t) =>
      && k < |w.tokens|
      && var publication := w.tokens[k].publication;
         && p.intent.None? && KeysAre(e.pub, p, publication.intent) && now < publication.expiresAt
         && e.crypto.sha(publication.envelope) == publication.intent.envelopeHash
         && publication.verified.envelope == publication.envelope && StateIs(publication.verified, publication.intent)
         && q == p.(intent := Some(publication.intent))
    case Resolve(id, k, t) =>
      && k < |w.tokens| && w.tokens[k].rejected && p.intent == Some(w.tokens[k].publication.intent)
      && q == p.(intent := None)
    case Finalize(id, confirmation, t) =>
      && confirmation in w.confirmed && |confirmation.stateHash| == KEY_BYTES
      && p.intent == Some(confirmation.intent) && KeysAre(e.pub, p, confirmation.intent)
      && q == p.(active := p.pending, pending := None, intent := None)
    case _ => false
  }

  /** A step leaves the stored payload alone or changes exactly what it is for; never who can open it. */
  lemma StepChanges(e: Env, w: World, a: Action)
    requires Inv(e, w) && w.disk.Some?
    ensures var v := Next(e, w, a);
            && v.disk.Some?
            && v.disk.value.wrap.password == w.disk.value.wrap.password
            && (v.disk.value.sealed.payload == w.disk.value.sealed.payload
                || PayloadMoves(e, w, w.disk.value.sealed.payload, v.disk.value.sealed.payload, a))
  {
    hide PendingUsable, ActiveValid, KeysAre, Reviewed, Dispatched, ConfirmedBy, Inv, Reports, StateIs;
    if a.Prepare? || a.Cancel? || a.Bind? || a.Latch? || a.Resolve? || a.Finalize? {
      if IsOpen(w, a.session) {
        OpenHoldsContainer(e, w, a.session);
        if a.Prepare? || a.Cancel? { HasActive(e, w.sessions[a.session].payload); }
      }
    }
  }

  lemma HasActive(e: Env, p: Payload)
    ensures ActiveValid(e.pub, p) ==> p.active.Some?
  {
  }

  /** Over every run the wallet's other content and its password stay as they were. */
  lemma {:induction false} RestStays(e: Env, w: World, actions: seq<Action>)
    requires Inv(e, w) && w.disk.Some?
    ensures var v := Run(e, w, actions);
            && v.disk.Some? && v.disk.value.wrap.password == w.disk.value.wrap.password
            && v.disk.value.sealed.payload.rest == w.disk.value.sealed.payload.rest
    decreases |actions|
  {
    hide Inv, Next;
    if actions != [] {
      NextKeeps(e, w, actions[0]);
      StepChanges(e, w, actions[0]);
      RestStays(e, Next(e, w, actions[0]), actions[1..]);
    }
  }

  // ------------------------------------------------------- what a session knows

  /** Opening takes the container's own password and its current version, and gives just what is on disk. */
  lemma OpeningExactly(e: Env, w: World, id: nat, password: string)
    requires id !in w.sessions
    ensures var v := Next(e, w, Open(id, password));
            && v.disk == w.disk && v.tokens == w.tokens
            && (IsOpen(v, id) <==>
                 && w.disk.Some? && w.disk.value.wrap.password == password
                 && w.disk.value.wrap.version == CURRENT_VERSION && w.disk.value.wrap.dek == w.disk.value.sealed.dek)
            && (IsOpen(v, id) ==>
                 && w.disk == Some(v.sessions[id].raw) && v.sessions[id].payload == w.disk.value.sealed.payload
                 && v.sessions[id].permit.None?)
  {
  }

  /** Migrating turns a version-1 container into one that opens under the same password to the same payload. */
  lemma MigratedOpens(e: Env, w: World, id: nat, password: string, nonce: Bytes)
    requires id !in w.sessions && w.disk.Some? && Opens(w.disk.value, password, LEGACY_VERSION)
    ensures var d := w.disk.value;
            var after := Container(d.wrap.(version := CURRENT_VERSION), d.sealed.(nonce := nonce));
            var v := Next(e, w, Migrate(id, password, Storing(nonce, Replaced, Some(after))));
            && v.disk == Some(after) && Opens(after, password, CURRENT_VERSION) && IsOpen(v, id)
            && v.sessions[id].payload == d.sealed.payload && v.sessions[id].raw == after
  {
  }

  /**
   * A session is never left open over a file it may have lost: after a write it attempted, one that
   * had what is on disk still has it or is locked, and one that did not is locked unless the write
   * failed without being tried.
   */
  lemma WriteTells(w: World, id: nat, candidate: Payload, t: Storing, permit: Option<nat>)
    requires IsOpen(w, id) && Stores(w, id, candidate, t)
    ensures var v := Stored(w, id, candidate, t, permit);
            && (w.disk == Some(w.sessions[id].raw) && v.sessions[id].Unlocked? ==> v.disk == Some(v.sessions[id].raw))
            && (w.disk != Some(w.sessions[id].raw) && !t.outcome.Failed? ==> v.sessions[id].Locked? && v.disk == w.disk)
            && (v.sessions[id].Unlocked? ==>
                 v.sessions[id].payload == if t.outcome.Replaced? then candidate else w.sessions[id].payload)
  {
  }
}
