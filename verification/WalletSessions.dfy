/** The wallet session and the rotation tokens as objects; what each call changes is a relation on their values. */
module WalletSessions {
  import opened Prelude
  import opened Identity
  import opened AtomicFiles
  import opened Rotation
  import RotationAdapter
  import Transport

  // ------------------------------------------------------------------ tokens

  /** A publication token's value at one moment. */
  datatype TokenView = TokenView(
    publication: Publication,
    authentic: bool,
    claimed: bool,
    started: bool,
    permit: Option<PermitToken>)

  /** A reviewed candidate; its flags are spent once each. */
  class PublicationToken {
    const publication: Publication
    const authentic: bool
    var latchClaimed: bool
    var dispatchStarted: bool
    var permit: Option<PermitToken>

    constructor (publication: Publication)
      ensures this.publication == publication && authentic && !latchClaimed && !dispatchStarted && permit == None
    {
      this.publication := publication;
      authentic, latchClaimed, dispatchStarted, permit := true, false, false, None;
    }

    function View(): TokenView
      reads this
    {
      TokenView(publication, authentic, latchClaimed, dispatchStarted, permit)
    }

    method ClaimLatch() returns (ok: bool)
      modifies this`latchClaimed
      ensures latchClaimed && ok == !old(latchClaimed)
    {
      ok := !latchClaimed;
      latchClaimed := true;
    }

    method AttachPermit(value: PermitToken) returns (ok: bool)
      modifies this`permit
      ensures ok == (authentic && value.publication == this && old(permit).None?)
      ensures permit == if ok then Some(value) else old(permit)
    {
      if !authentic || value.publication != this || permit.Some? { return false; }
      permit := Some(value);
      return true;
    }

    /** Only the permit attached here, and only once. */
    method BeginDispatch(value: PermitToken) returns (ok: bool)
      modifies this`dispatchStarted
      ensures ok == (authentic && permit == Some(value) && value.authentic && !old(dispatchStarted))
      ensures dispatchStarted == (old(dispatchStarted) || ok)
    {
      if !authentic || permit != Some(value) || !value.authentic { return false; }
      ok := !dispatchStarted;
      dispatchStarted := true;
    }
  }

  class PermitToken {
    const intent: Intent
    const publication: PublicationToken
    const authentic: bool

    constructor (intent: Intent, publication: PublicationToken)
      ensures this.intent == intent && this.publication == publication && authentic
    {
      this.intent, this.publication, authentic := intent, publication, true;
    }
  }

  class RejectionToken {
    const intent: Intent
    const permit: PermitToken
    var consumed: bool

    constructor (intent: Intent, permit: PermitToken)
      ensures this.intent == intent && this.permit == permit && !consumed
    {
      this.intent, this.permit, consumed := intent, permit, false;
    }

    function Value(): Rejection<PermitToken>
      reads this
    {
      Rejection(intent, permit, consumed)
    }
  }

  /**
   * What a dispatch does: it runs exactly when the permit is this publication's own and unspent;
   * its result is the adapter's for the answers it got; and what it sent is what the transport's
   * write contract allows for the report among those answers.
   */
  ghost predicate Dispatches(
    c: Crypto, peers: seq<string>, n: Transport.Network, before: TokenView, after: TokenView, own: bool,
    sent: seq<Transport.Sent>, sentAfter: seq<Transport.Sent>, answers: RotationAdapter.Answers,
    r: Option<RotationAdapter.Result>)
  {
    && (r.Some? <==> own && !before.started)
    && after == before.(started := before.started || r.Some?)
    && (r.None? ==> sentAfter == sent)
    && (r.Some? ==>
        && r.value == RotationAdapter.Dispatched(c, before.publication, answers)
        && if RotationAdapter.PutReached(c, before.publication, answers)
           then exists k: nat ::
             Transport.Fanout(sentAfter, sent, peers, before.publication.envelope, k, answers.put, n)
           else sentAfter == sent)
  }

  /** The permit was made for this very publication, with its intent, and is the one attached to it. */
  ghost predicate Own(token: PublicationToken, permit: PermitToken)
    reads token
  {
    && token.authentic && permit.authentic && permit.publication == token && permit.intent == token.publication.intent
    && token.permit == Some(permit)
  }

  /**
   * Spends the permit, runs the dispatch through the transport, and hands out a rejection only for
   * one that may be cleared.
   */
  method DispatchOwnerKeyRotation(
    c: Crypto, token: PublicationToken, permit: PermitToken, asked: RotationAdapter.Answers,
    client: Transport.DhtClient, config: Transport.Config, n: Transport.Network)
    returns (r: Option<RotationAdapter.Result>, answers: RotationAdapter.Answers, rejection: Option<RejectionToken>)
    requires config.Valid()
    modifies token`dispatchStarted, client
    ensures answers == asked.(put := answers.put)
    ensures Dispatches(c, config.HistoryPeers(), n, old(token.View()), token.View(), old(Own(token, permit)),
              old(client.puts), client.puts, answers, r)
    ensures r.Some? && RotationAdapter.PutReached(c, token.publication, answers) ==>
              && |client.puts| >= |old(client.puts)|
              && var p := token.publication;
                 Transport.ReportIs(config, c, p.intent.owner, p.envelope, p.intent.predecessorHash, p.expiresAt, n,
                   |client.puts| - |old(client.puts)|, answers.put)
    ensures rejection.Some? <==> r.Some? && r.value.rejected
    ensures rejection.Some? ==> fresh(rejection.value) && rejection.value.intent == token.publication.intent
    ensures rejection.Some? ==> rejection.value.permit == permit && !rejection.value.consumed
  {
    hide RotationAdapter.Dispatched, RotationAdapter.PutReached, Transport.Fanout, Transport.ReportIs;
    r, answers, rejection := None, asked, None;
    if !token.authentic || permit.publication != token || permit.intent != token.publication.intent { return; }
    var began := token.BeginDispatch(permit);
    if !began { return; }
    var result;
    result, answers := RunDispatch(c, token.publication, asked, client, config, n);
    r := Some(result);
    if result.rejected {
      var made := new RejectionToken(token.publication.intent, permit);
      rejection := Some(made);
    }
  }

  /** The dispatch of a publication whose permit has been spent: checks, the conditional PUT, and what came of it. */
  method RunDispatch(
    c: Crypto, p: Publication, asked: RotationAdapter.Answers, client: Transport.DhtClient, config: Transport.Config,
    n: Transport.Network)
    returns (r: RotationAdapter.Result, answers: RotationAdapter.Answers)
    requires config.Valid()
    modifies client
    ensures answers == asked.(put := answers.put) && r == RotationAdapter.Dispatched(c, p, answers)
    ensures if RotationAdapter.PutReached(c, p, answers) then
              exists k: nat ::
                Transport.Fanout(client.puts, old(client.puts), config.HistoryPeers(), p.envelope, k, answers.put, n)
            else client.puts == old(client.puts)
    ensures RotationAdapter.PutReached(c, p, answers) ==>
              && |client.puts| >= |old(client.puts)|
              && Transport.ReportIs(config, c, p.intent.owner, p.envelope, p.intent.predecessorHash, p.expiresAt, n,
                   |client.puts| - |old(client.puts)|, answers.put)
  {
    hide *;
    answers := asked;
    var early := RotationAdapter.BeforePut(c, p, asked);
    if early.Some? { return early.value, asked; }
    var report := Transport.PutIfCurrent(client, config, c, p.intent.owner, p.envelope, p.intent.predecessorHash,
      p.expiresAt, n);
    answers := asked.(put := report);
    RotationAdapter.ReportUnused(c, p, asked, report);
    r := RotationAdapter.AfterPut(c, p, answers);
  }

  // ---------------------------------------------------------------- sessions

  /**
   * A call either threw or returned without writing and changed nothing, or made exactly one
   * write and moved the session as that write's outcome says.
   */
  ghost predicate Wrote(
    before: Session<PermitToken>, after: Session<PermitToken>, file: Option<Container>, fileAfter: Option<Container>,
    change: Change, nonce: Bytes, r: Option<Outcome>, permit: Option<PermitToken>)
  {
    && (r.Some? <==> before.Unlocked? && change.Write?)
    && (r.None? ==> after == before && fileAfter == file)
    && (r.Some? ==>
        && after == PersistedWith(before, change.candidate, nonce, r.value, permit)
        && Permits(r.value, file, fileAfter, before.raw, Replacement(before, change.candidate, nonce)))
  }

  /** The write is done exactly when there is one to make, it fits, nobody wrote in between and no operation failed. */
  ghost predicate DoneWhen(
    before: Session<PermitToken>, file: Option<Container>, fits: Container -> bool, change: Change, nonce: Bytes,
    faults: Faults, r: Option<Outcome>)
  {
    r == Some(Replaced) <==>
      && before.Unlocked? && change.Write? && fits(Replacement(before, change.candidate, nonce))
      && file == Some(before.raw) && NoFault(faults)
  }

  /** The write a latch goes on to, if the token and the session let it get that far. */
  ghost function LatchAttempt(
    c: Crypto, pub: PublicKeys, before: Session<PermitToken>, token: TokenView, now: int): Change
  {
    if token.authentic && LatchReady(before, token.publication.expiresAt, now, token.claimed) && token.permit.None?
    then LatchChange(c, pub, before.payload, token.publication)
    else Refused
  }

  /**
   * What a latch does: it claims the publication if it gets that far, attaches the permit it
   * makes before the write, and hands it out exactly when that write is done.
   */
  ghost predicate Latches(
    c: Crypto, pub: PublicKeys, before: Session<PermitToken>, after: Session<PermitToken>, file: Option<Container>,
    fileAfter: Option<Container>, token: TokenView, tokenAfter: TokenView, now: int, nonce: Bytes, r: Option<Outcome>,
    permit: Option<PermitToken>)
  {
    var ready := token.authentic && LatchReady(before, token.publication.expiresAt, now, token.claimed);
    var change := LatchAttempt(c, pub, before, token, now);
    && tokenAfter == token.(claimed := token.claimed || ready, permit := tokenAfter.permit)
    && (tokenAfter.permit == token.permit || (token.permit.None? && ready))
    && (permit.Some? <==> r == Some(Replaced)) && (permit.Some? ==> tokenAfter.permit == permit)
    && Wrote(before, after, file, fileAfter, change, nonce, r, permit)
  }

  class WalletSession {
    const file: WalletFile<Container>
    const pub: PublicKeys
    var rawContainer: Option<Container>
    var dataEncryptionKey: Option<Bytes>
    var walletPayload: Option<Payload>
    var activePermit: Option<PermitToken>

    function State(): Session<PermitToken>
      reads this
    {
      if rawContainer.Some? && dataEncryptionKey.Some? && walletPayload.Some?
      then Unlocked(rawContainer.value, dataEncryptionKey.value, walletPayload.value, activePermit)
      else Locked
    }

    constructor (file: WalletFile<Container>, pub: PublicKeys, container: Container)
      ensures this.file == file && this.pub == pub && State() == Opened(container)
    {
      this.file, this.pub := file, pub;
      rawContainer := Some(container);
      dataEncryptionKey := Some(container.wrap.dek);
      walletPayload := Some(container.sealed.payload);
      activePermit := None;
    }

    method Lock()
      modifies this
      ensures State() == Locked && activePermit.None? && rawContainer.None? && dataEncryptionKey.None?
      ensures walletPayload.None?
    {
      activePermit, dataEncryptionKey, walletPayload, rawContainer := None, None, None, None;
    }

    method PersistPayloadCandidate(candidate: Payload, nonce: Bytes, faults: Faults) returns (outcome: Outcome)
      requires State().Unlocked?
      modifies this, file
      ensures State() == Persisted(old(State()), candidate, nonce, outcome)
      ensures Permits(outcome, old(file.contents), file.contents, old(State()).raw,
                Replacement(old(State()), candidate, nonce))
      ensures outcome.Replaced? ==> activePermit == old(activePermit)
      ensures DoneWhen(old(State()), old(file.contents), file.fits, Write(candidate), nonce, faults, Some(outcome))
    {
      var expectedOriginal := rawContainer.value;
      var replacement := Reseal(expectedOriginal, dataEncryptionKey.value, nonce, candidate);
      outcome := file.Replace(replacement, expectedOriginal, faults);
      match outcome {
        case Replaced => walletPayload, rawContainer := Some(candidate), Some(replacement);
        case Failed =>
        case Rejected => Lock();
        case Unknown => Lock();
      }
    }

    method PrepareSigningKeyRotation(seed: Bytes, nonce: Bytes, faults: Faults) returns (r: Option<Outcome>)
      modifies this, file
      ensures Wrote(old(State()), State(), old(file.contents), file.contents,
                    if old(State()).Unlocked? then PrepareChange(pub, old(State()).payload, seed)
                      else Refused, nonce, r, old(activePermit))
      ensures DoneWhen(old(State()), old(file.contents), file.fits,
                if old(State()).Unlocked? then PrepareChange(pub, old(State()).payload, seed) else Refused,
                nonce, faults, r)
    {
      if State().Locked? { return None; }
      var payload := walletPayload.value;
      if payload.intent.Some? || !ActiveValid(pub, payload) { return None; }
      if payload.pending.Some? { return None; }
      var pendingPublicKey := pub(seed);
      if pendingPublicKey == payload.active.value.publicKey { return None; }
      var candidate := payload.(pending := Some(KeyPair(seed, pendingPublicKey)));
      var outcome := PersistPayloadCandidate(candidate, nonce, faults);
      return Some(outcome);
    }

    method CancelSigningKeyRotation(nonce: Bytes, faults: Faults) returns (r: Option<Outcome>)
      modifies this, file
      ensures Wrote(old(State()), State(), old(file.contents), file.contents,
                    if old(State()).Unlocked? then CancelChange(pub, old(State()).payload)
                      else Refused, nonce, r, old(activePermit))
      ensures DoneWhen(old(State()), old(file.contents), file.fits,
                if old(State()).Unlocked? then CancelChange(pub, old(State()).payload) else Refused,
                nonce, faults, r)
    {
      if State().Locked? { return None; }
      var payload := walletPayload.value;
      if payload.intent.Some? || !PendingUsable(pub, payload) { return None; }
      var outcome := PersistPayloadCandidate(payload.(pending := None), nonce, faults);
      return Some(outcome);
    }

    method BindDispatchEnvironment(environment: string, approved: bool, nonce: Bytes, faults: Faults)
      returns (r: Option<Outcome>)
      modifies this, file
      ensures Wrote(old(State()), State(), old(file.contents), file.contents,
                    if old(State()).Unlocked? then BindChange(old(State()).payload, environment, approved)
                      else Refused, nonce, r, old(activePermit))
      ensures DoneWhen(old(State()), old(file.contents), file.fits,
                if old(State()).Unlocked? then BindChange(old(State()).payload, environment, approved) else Refused,
                nonce, faults, r)
    {
      if State().Locked? { return None; }
      var payload := walletPayload.value;
      if payload.intent.None? || payload.intent.value.environment.Some? || !approved { return None; }
      var bound := payload.intent.value.(environment := Some(environment));
      var outcome := PersistPayloadCandidate(payload.(intent := Some(bound)), nonce, faults);
      return Some(outcome);
    }

    /** The permit is attached before the write, and returned only when the write is done. */
    method LatchDispatchIntent(c: Crypto, token: PublicationToken, now: int, nonce: Bytes, faults: Faults)
      returns (r: Option<Outcome>, permit: Option<PermitToken>)
      modifies this, file, token
      ensures Latches(c, pub, old(State()), State(), old(file.contents), file.contents, old(token.View()), token.View(),
                now, nonce, r, permit)
      ensures permit.Some? ==> fresh(permit.value) && Own(token, permit.value)
      ensures DoneWhen(old(State()), old(file.contents), file.fits,
                LatchAttempt(c, pub, old(State()), old(token.View()), now), nonce, faults, r)
    {
      r, permit := None, None;
      if State().Locked? || walletPayload.value.intent.Some? || activePermit.Some? { return; }
      if !token.authentic || token.publication.expiresAt <= now { return; }
      var claimed := token.ClaimLatch();
      if !claimed { return; }
      var payload := walletPayload.value;
      var change := LatchChange(c, pub, payload, token.publication);
      if !change.Write? { return; }
      var made := new PermitToken(token.publication.intent, token);
      var attached := token.AttachPermit(made);
      if !attached { return; }
      var outcome := PersistPayloadCandidate(change.candidate, nonce, faults);
      r := Some(outcome);
      if outcome.Replaced? {
        activePermit := Some(made);
        permit := Some(made);
      }
    }

    method ResolveDispatchRejection(rejection: RejectionToken, nonce: Bytes, faults: Faults)
      returns (r: Option<Outcome>)
      modifies this, file, rejection
      ensures Wrote(old(State()), State(), old(file.contents), file.contents,
                    if old(State()).Unlocked? then
                      ResolveChange(old(State()).payload, old(activePermit), old(rejection.Value()))
                        else Refused, nonce, r, None)
      ensures DoneWhen(old(State()), old(file.contents), file.fits,
                if old(State()).Unlocked? then
                  ResolveChange(old(State()).payload, old(activePermit), old(rejection.Value()))
                else Refused, nonce, faults, r)
      ensures rejection.consumed == (old(rejection.consumed) || r == Some(Replaced))
    {
      if State().Locked? { return None; }
      var payload := walletPayload.value;
      if payload.intent != Some(rejection.intent) || activePermit != Some(rejection.permit) || rejection.consumed {
        return None;
      }
      var outcome := PersistPayloadCandidate(payload.(intent := None), nonce, faults);
      if outcome.Replaced? {
        activePermit := None;
        rejection.consumed := true;
      }
      return Some(outcome);
    }

    method FinalizeSigningKeyRotation(confirmation: Confirmation, nonce: Bytes, faults: Faults)
      returns (r: Option<Outcome>)
      modifies this, file
      ensures Wrote(old(State()), State(), old(file.contents), file.contents,
                    if old(State()).Unlocked? then FinalizeChange(pub, old(State()).payload, confirmation)
                      else Refused, nonce, r, None)
      ensures DoneWhen(old(State()), old(file.contents), file.fits,
                if old(State()).Unlocked? then FinalizeChange(pub, old(State()).payload, confirmation) else Refused,
                nonce, faults, r)
    {
      if State().Locked? { return None; }
      var payload := walletPayload.value;
      if payload.intent != Some(confirmation.intent) || |confirmation.stateHash| != KEY_BYTES
        || !KeysAre(pub, payload, confirmation.intent) {
        return None;
      }
      var candidate := payload.(active := payload.pending, pending := None, intent := None);
      var outcome := PersistPayloadCandidate(candidate, nonce, faults);
      if outcome.Replaced? { activePermit := None; }
      return Some(outcome);
    }
  }
}
