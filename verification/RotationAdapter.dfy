/** Preparing, dispatching and confirming a rotation; every network answer is an input. */
module RotationAdapter {
  import opened Prelude
  import opened Identity
  import opened Rotation
  import Kt = KotlinVerifier
  import KotlinHistory

  // ----------------------------------------------------------- verification

  /** The state hash a remote envelope confirms, if it is the latched candidate and verifies. */
  ghost function Confirms(c: Crypto, intent: Intent, remote: Bytes, lookup: Lookup): (r: Option<Bytes>)
  {
    if c.sha(remote) != intent.envelopeHash then None else
    var seen :- Kt.Resolve(c, intent.owner, remote, lookup);
    if StateIs(seen.state, intent) then Some(seen.state.stateHash) else None
  }

  /** The candidate's verified state over the current envelope, which must be the one expected. */
  ghost function VerifyCandidate(c: Crypto, intent: Intent, current: Bytes, candidate: Bytes, lookup: Lookup,
          again: Lookup): (r: Option<Kt.VerifiedState>)
  {
    if c.sha(candidate) != intent.envelopeHash then None else
    var before :- Kt.Resolve(c, intent.owner, current, lookup);
    if before.state.ownerKey != intent.predecessorKey || before.state.stateHash != intent.predecessorHash then None else
    var after :- Kt.Resolve(c, intent.owner, candidate, Kt.PredecessorFirst(intent.predecessorHash, current, again));
    if StateIs(after.state, intent) && |after.state.stateHash| == KEY_BYTES then Some(after.state) else None
  }

  method ConfirmObservedCandidate(c: Crypto, intent: Intent, remote: Bytes, lookup: Lookup) returns (r: Option<Bytes>)
    ensures r == Confirms(c, intent, remote, lookup)
  {
    hide Kt.Resolve;
    if c.sha(remote) != intent.envelopeHash { return None; }
    var seen :- KotlinHistory.ResolveHead(c, intent.owner, remote, lookup);
    if seen.state.predecessorOwnerKey != Some(intent.predecessorKey) || seen.state.ownerKey != intent.successorKey
       || seen.state.predecessorStateHash != Some(intent.predecessorHash) || seen.state.sequence != intent.sequence
    {
      return None;
    }
    return Some(seen.state.stateHash);
  }

  method VerifyCandidateAgainstCurrent(c: Crypto, intent: Intent, current: Bytes, candidate: Bytes, lookup: Lookup,
          again: Lookup)
    returns (r: Option<Kt.VerifiedState>)
    ensures r == VerifyCandidate(c, intent, current, candidate, lookup, again)
  {
    hide Kt.Resolve;
    if c.sha(candidate) != intent.envelopeHash { return None; }
    var before :- KotlinHistory.ResolveHead(c, intent.owner, current, lookup);
    if before.state.ownerKey != intent.predecessorKey || before.state.stateHash != intent.predecessorHash {
      return None;
    }
    var after :- KotlinHistory.ResolveHead(c, intent.owner, candidate,
      Kt.PredecessorFirst(intent.predecessorHash, current, again));
    if !StateIs(after.state, intent) || |after.state.stateHash| != KEY_BYTES { return None; }
    return Some(after.state);
  }

  // ------------------------------------------------------------- preparation

  /** The reads, the consent answer and the clock, in the order they happen. */
  datatype Review = Review(
    available: bool,
    matches: bool,
    current: Option<Bytes>,
    matchesRead: bool,
    lookup: Lookup,
    again: Lookup,
    nonceAccepted: bool,
    approved: bool,
    now: int,
    matchesApproved: bool,
    recheck: Option<Bytes>,
    matchesRecheck: bool,
    recheckLookup: Lookup,
    recheckAgain: Lookup)

  /** The publication: the candidate verified before and again after consent, to one state. */
  ghost function Reviewed(c: Crypto, intent: Intent, envelope: Bytes, expiresAt: int,
          review: Review): (r: Option<Publication>)
  {
    if !review.available || !review.matches || intent.environment.None? then None else
    var current :- review.current;
    if !review.matchesRead then None else
    var verified :- VerifyCandidate(c, intent, current, envelope, review.lookup, review.again);
    if !review.nonceAccepted || !review.approved || expiresAt <= review.now || !review.matchesApproved then None else
    var recheck :- review.recheck;
    if !review.matchesRecheck then None else
    var reverified :- VerifyCandidate(c, intent, recheck, envelope, review.recheckLookup, review.recheckAgain);
    if verified.stateHash == reverified.stateHash then
      Some(Publication(intent, envelope, intent.owner, verified, expiresAt)) else None
  }

  method PreparePublication(c: Crypto, intent: Intent, envelope: Bytes, expiresAt: int, review: Review)
    returns (r: Option<Publication>)
    ensures r == Reviewed(c, intent, envelope, expiresAt, review)
  {
    hide VerifyCandidate;
    if !review.available || !review.matches || intent.environment.None? { return None; }
    var current :- review.current;
    if !review.matchesRead { return None; }
    var verified :- VerifyCandidateAgainstCurrent(c, intent, current, envelope, review.lookup, review.again);
    if !review.nonceAccepted || !review.approved { return None; }
    if expiresAt <= review.now || !review.matchesApproved { return None; }
    var recheck :- review.recheck;
    if !review.matchesRecheck { return None; }
    var reverified :- VerifyCandidateAgainstCurrent(c, intent, recheck, envelope, review.recheckLookup,
      review.recheckAgain);
    if verified.stateHash != reverified.stateHash { return None; }
    return Some(Publication(intent, envelope, intent.owner, verified, expiresAt));
  }

  /**
   * What stands behind a publication: the user approved, the nonce was new, consent had not
   * expired, the environment was the intent's at every look, and the candidate verified to one
   * state over what was current before consent and again after it.
   */
  ghost predicate Consented(c: Crypto, intent: Intent, envelope: Bytes, expiresAt: int, review: Review)
  {
    && review.approved && review.nonceAccepted && review.now < expiresAt
    && review.available && intent.environment.Some?
    && review.matches && review.matchesRead && review.matchesApproved && review.matchesRecheck
    && review.current.Some? && review.recheck.Some?
    && var first := VerifyCandidate(c, intent, review.current.value, envelope, review.lookup, review.again);
       var second := VerifyCandidate(c, intent, review.recheck.value, envelope, review.recheckLookup,
         review.recheckAgain);
       first.Some? && second.Some? && first.value.stateHash == second.value.stateHash
  }

  /** A publication is made exactly with all of that, and is of this intent, envelope and deadline. */
  lemma PublishedExactly(c: Crypto, intent: Intent, envelope: Bytes, expiresAt: int, review: Review)
    ensures var r := Reviewed(c, intent, envelope, expiresAt, review);
            && (r.Some? <==> Consented(c, intent, envelope, expiresAt, review))
            && (r.Some? ==>
                 && r.value.intent == intent && r.value.envelope == envelope && r.value.expiresAt == expiresAt
                 && r.value.verifiedOwner == intent.owner && StateIs(r.value.verified, intent)
                 && c.sha(envelope) == intent.envelopeHash)
  {
    hide Kt.Resolve;
  }

  // ---------------------------------------------------------------- dispatch

  datatype Read = ReadFailed | Missing | Found(bytes: Bytes)

  /** What the conditional PUT reported; ambiguous is every other failure. */
  datatype PutReport = Acknowledged | PreconditionFailed | Expired | Ambiguous

  /** The fresh remote read after the write, or after it was given up. */
  datatype Readback = Readback(available: bool, matches: bool, remote: Option<Bytes>, stillMatches: bool,
    lookup: Lookup, matchesLast: bool)

  datatype Answers = Answers(
    available: bool,
    matches: bool,
    current: Read,
    lookup: Lookup,
    again: Lookup,
    now: int,
    matchesBeforePut: bool,
    put: PutReport,
    readback: Readback)

  datatype Status = Confirmed | UnknownOutcome | Stale | ExpiredUnsent | FailedEarly

  datatype Result = Result(status: Status, confirmation: Option<Confirmation>, rejected: bool)

  /** A read-back that confirms the intent. */
  ghost function ConfirmedBy(c: Crypto, intent: Intent, b: Readback): (r: Option<Confirmation>)
  {
    if !b.available || !b.matches || !b.stillMatches then None else
    var remote :- b.remote;
    var hash :- Confirms(c, intent, remote, b.lookup);
    if b.matchesLast then Some(Confirmation(intent, hash)) else None
  }

  ghost function AfterWrite(c: Crypto, intent: Intent, b: Readback): (r: Result)
  {
    var confirmation := ConfirmedBy(c, intent, b);
    if confirmation.Some? then Result(Confirmed, confirmation, false) else Result(UnknownOutcome, None, false)
  }

  /** A dispatch given up before writing; only a clearable one ends in a rejection. */
  ghost function GivenUp(c: Crypto, intent: Intent, b: Readback, seenLocally: bool, clearable: bool): (r: Result)
  {
    if !b.available || !b.matches || b.remote.None? || !b.stillMatches then Result(UnknownOutcome, None, false)
    else if seenLocally || c.sha(b.remote.value) == intent.envelopeHash then AfterWrite(c, intent, b)
    else if !clearable || !b.matchesLast then Result(UnknownOutcome, None, false)
    else Result(ExpiredUnsent, None, true)
  }

  /** Whether the run gets as far as calling the conditional PUT. */
  ghost predicate PutReached(c: Crypto, p: Publication, a: Answers)
  {
    && a.available && a.matches && a.current.Found?
    && VerifyCandidate(c, p.intent, a.current.bytes, p.envelope, a.lookup, a.again).Some?
    && p.expiresAt > a.now && a.matchesBeforePut
  }

  ghost function Dispatched(c: Crypto, p: Publication, a: Answers): (r: Result)
  {
    if !a.available || !a.matches || !a.current.Found? then GivenUp(c, p.intent, a.readback, false, false)
    else if VerifyCandidate(c, p.intent, a.current.bytes, p.envelope, a.lookup, a.again).None? then
      GivenUp(c, p.intent, a.readback, c.sha(a.current.bytes) == p.intent.envelopeHash, false)
    else if p.expiresAt <= a.now then GivenUp(c, p.intent, a.readback, false, true)
    else if !a.matchesBeforePut then GivenUp(c, p.intent, a.readback, false, false)
    else match a.put
      case PreconditionFailed => GivenUp(c, p.intent, a.readback, false, false)
      case Expired => GivenUp(c, p.intent, a.readback, false, true)
      case Acknowledged => AfterWrite(c, p.intent, a.readback)
      case Ambiguous => AfterWrite(c, p.intent, a.readback)
  }

  /** The read-back worked, in the intent's environment throughout, and showed another envelope. */
  ghost predicate ShowsOther(c: Crypto, intent: Intent, b: Readback)
  {
    && b.available && b.matches && b.stillMatches && b.matchesLast
    && b.remote.Some? && c.sha(b.remote.value) != intent.envelopeHash
  }

  /** Consent ran out: at the last look before the PUT, or as the PUT itself reported. */
  ghost predicate RanOut(c: Crypto, p: Publication, a: Answers)
  {
    && a.available && a.matches && a.current.Found?
    && VerifyCandidate(c, p.intent, a.current.bytes, p.envelope, a.lookup, a.again).Some?
    && (a.now >= p.expiresAt || (a.matchesBeforePut && a.put.Expired?))
  }

  /**
   * Every answer of a dispatch. Whatever happened before, it is confirmed exactly when the
   * read-back confirms the intent; it is rejected exactly when consent ran out and the read-back
   * showed another envelope; and otherwise its outcome is unknown.
   */
  lemma DispatchExactly(c: Crypto, p: Publication, a: Answers)
    ensures Dispatched(c, p, a).confirmation == ConfirmedBy(c, p.intent, a.readback)
    ensures Dispatched(c, p, a).rejected <==> RanOut(c, p, a) && ShowsOther(c, p.intent, a.readback)
    ensures Dispatched(c, p, a).status
            == if ConfirmedBy(c, p.intent, a.readback).Some? then Confirmed
               else if RanOut(c, p, a) && ShowsOther(c, p.intent, a.readback) then ExpiredUnsent
               else UnknownOutcome
  {
    hide VerifyCandidate, Kt.Resolve;
  }

  /** What a confirmation takes, and the hash in it: that of the update in the envelope read. */
  lemma ConfirmedExactly(c: Crypto, intent: Intent, b: Readback, k: Confirmation)
    ensures ConfirmedBy(c, intent, b) == Some(k) <==>
            (&& b.available && b.matches && b.stillMatches && b.matchesLast && b.remote.Some?
             && c.sha(b.remote.value) == intent.envelopeHash
             && var p := Kt.Parse(c, intent.owner, b.remote.value);
                var r := Kt.Resolve(c, intent.owner, b.remote.value, b.lookup);
                && r.Some? && p.Some? && k == Confirmation(intent, c.sha(p.value.update))
                && r.value.state.ownerKey == intent.successorKey && r.value.state.sequence == intent.sequence
                && r.value.state.predecessorOwnerKey == Some(intent.predecessorKey)
                && r.value.state.predecessorStateHash == Some(intent.predecessorHash))
  {
    hide Kt.Resolve, Kt.Parse, Kt.TransitionAllowed;
    if b.remote.Some? && Kt.Resolve(c, intent.owner, b.remote.value, b.lookup).Some? {
      ResolvedHead(c, intent.owner, b.remote.value, b.lookup);
    }
  }

  /** A rejection is made only when no PUT was attempted, or the PUT reported expiry. */
  lemma RejectionMeansUnsent(c: Crypto, p: Publication, a: Answers)
    ensures Dispatched(c, p, a).rejected ==> PutReached(c, p, a) ==> a.put == Expired
    ensures Dispatched(c, p, a).status in {Confirmed, UnknownOutcome, ExpiredUnsent}
  {
    hide VerifyCandidate, Confirms;
  }

  /** Whatever the run, a confirmation rests on a remote envelope that was read and verified. */
  lemma ConfirmationIsObserved(c: Crypto, p: Publication, a: Answers)
    requires Dispatched(c, p, a).confirmation.Some?
    ensures var k := Dispatched(c, p, a).confirmation.value;
            k.intent == p.intent && a.readback.remote.Some?
              && Confirms(c, p.intent, a.readback.remote.value, a.readback.lookup) == Some(k.stateHash)
  {
    hide VerifyCandidate, Confirms;
  }

  method ConfirmRotation(c: Crypto, intent: Intent, b: Readback) returns (r: Option<Confirmation>)
    ensures r == ConfirmedBy(c, intent, b)
  {
    hide Confirms;
    if !b.available || !b.matches { return None; }
    var remote :- b.remote;
    if !b.stillMatches { return None; }
    var hash :- ConfirmObservedCandidate(c, intent, remote, b.lookup);
    return if b.matchesLast then Some(Confirmation(intent, hash)) else None;
  }

  method ReportAfterWrite(c: Crypto, intent: Intent, b: Readback) returns (r: Result)
    ensures r == AfterWrite(c, intent, b)
  {
    hide ConfirmedBy;
    var confirmation := ConfirmRotation(c, intent, b);
    return if confirmation.Some? then Result(Confirmed, confirmation, false) else Result(UnknownOutcome, None, false);
  }

  method PrewriteFailure(c: Crypto, intent: Intent, b: Readback, seenLocally: bool, clearable: bool) returns (r: Result)
    ensures r == GivenUp(c, intent, b, seenLocally, clearable)
  {
    hide AfterWrite;
    if !b.available || !b.matches || b.remote.None? { return Result(UnknownOutcome, None, false); }
    if !b.stillMatches { return Result(UnknownOutcome, None, false); }
    if seenLocally || c.sha(b.remote.value) == intent.envelopeHash {
      r := ReportAfterWrite(c, intent, b);
      return;
    }
    if !clearable || !b.matchesLast { return Result(UnknownOutcome, None, false); }
    return Result(ExpiredUnsent, None, true);
  }

  /** Everything before the conditional PUT; None when the run gets as far as calling it. */
  method BeforePut(c: Crypto, p: Publication, a: Answers) returns (early: Option<Result>)
    ensures early.None? <==> PutReached(c, p, a)
    ensures early.Some? ==> early.value == Dispatched(c, p, a)
  {
    hide VerifyCandidate, GivenUp, AfterWrite;
    if !a.available || !a.matches || !a.current.Found? {
      var r := PrewriteFailure(c, p.intent, a.readback, false, false);
      return Some(r);
    }
    var candidate := VerifyCandidateAgainstCurrent(c, p.intent, a.current.bytes, p.envelope, a.lookup, a.again);
    if candidate.None? {
      var r := PrewriteFailure(c, p.intent, a.readback, c.sha(a.current.bytes) == p.intent.envelopeHash, false);
      return Some(r);
    }
    if p.expiresAt <= a.now {
      var r := PrewriteFailure(c, p.intent, a.readback, false, true);
      return Some(r);
    }
    if !a.matchesBeforePut {
      var r := PrewriteFailure(c, p.intent, a.readback, false, false);
      return Some(r);
    }
    return None;
  }

  /** What the report of the conditional PUT leads to. */
  method AfterPut(c: Crypto, p: Publication, a: Answers) returns (r: Result)
    requires PutReached(c, p, a)
    ensures r == Dispatched(c, p, a)
  {
    hide VerifyCandidate, GivenUp, AfterWrite;
    match a.put {
      case PreconditionFailed => r := PrewriteFailure(c, p.intent, a.readback, false, false);
      case Expired => r := PrewriteFailure(c, p.intent, a.readback, false, true);
      case Acknowledged => r := ReportAfterWrite(c, p.intent, a.readback);
      case Ambiguous => r := ReportAfterWrite(c, p.intent, a.readback);
    }
  }

  /** The report is looked at only when the PUT was reached. */
  lemma ReportUnused(c: Crypto, p: Publication, a: Answers, report: PutReport)
    ensures PutReached(c, p, a.(put := report)) == PutReached(c, p, a)
    ensures !PutReached(c, p, a) ==> Dispatched(c, p, a.(put := report)) == Dispatched(c, p, a)
  {
    hide VerifyCandidate, GivenUp, AfterWrite;
  }

  // --------------------------------------------------- what confirmation means

  /** The head of a resolved chain, with the step it took. */
  lemma ResolvedHead(c: Crypto, owner: Bytes, head: Bytes, lookup: Lookup)
    requires Kt.Resolve(c, owner, head, lookup).Some?
    ensures var s := Kt.Resolve(c, owner, head, lookup).value.state;
            var p := Kt.Parse(c, owner, head);
            && p.Some?
            && (s.predecessorOwnerKey.Some? ==> exists prev ::
                  Kt.TransitionAllowed(c, p.value, Some(prev)) && s == Kt.StateOf(c, head, p.value, Some(prev)))
  {
    hide Kt.Parse, Kt.TransitionAllowed, Utf8Valid;
    var links := Kt.Walk(c, owner, lookup, head, 0, {}, |head|).value;
    assert links[0] == Kt.Link(head, Kt.Parse(c, owner, head).value);
    if |links| > 1 {
      var prev := Kt.Replay(c, links[1..]).value;
      assert Kt.TransitionAllowed(c, links[0].parts, Some(prev));
    }
  }

  /**
   * A confirmed rotation to a different key was the latched envelope, verified back to an
   * anchor, and its last step is an owner-key rotation: no other operation changes the key.
   */
  lemma ConfirmedIsRotation(c: Crypto, intent: Intent, remote: Bytes, lookup: Lookup)
    requires Confirms(c, intent, remote, lookup).Some? && intent.predecessorKey != intent.successorKey
    ensures c.sha(remote) == intent.envelopeHash && Kt.Resolve(c, intent.owner, remote, lookup).Some?
    ensures var p := Kt.Parse(c, intent.owner, remote);
            && p.Some? && p.value.Versioned? && p.value.auth.operation == 5
            && p.value.key == intent.successorKey && p.value.sequence == intent.sequence
            && p.value.auth.predecessor == intent.predecessorHash
            && Confirms(c, intent, remote, lookup).value == c.sha(p.value.update)
  {
    hide Kt.Resolve, Kt.Parse, QuorumVerifies, HasKey, KeyFor;
    ResolvedHead(c, intent.owner, remote, lookup);
    var p, s := Kt.Parse(c, intent.owner, remote).value, Kt.Resolve(c, intent.owner, remote, lookup).value.state;
    var prev :| Kt.TransitionAllowed(c, p, Some(prev)) && s == Kt.StateOf(c, remote, p, Some(prev));
  }
}
