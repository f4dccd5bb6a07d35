/** One-operation signing capabilities, and that none is usable while a rotation is latched. */
module SignerCapabilities {
  import opened Prelude

  // --------------------------------------------------------------- capability

  /** The capability object; every method runs under its own use lock. */
  class SignerCapability {
    const publicKey: Bytes
    var active: bool
    var expiresAt: int
    /** The private key in the table, reached through the capability's handle. */
    var key: Option<Bytes>

    constructor (publicKey: Bytes, key: Bytes, now: int, timeout: nat)
      ensures this.publicKey == publicKey && active && expiresAt == now + timeout && this.key == Some(key)
    {
      this.publicKey, active, expiresAt, this.key := publicKey, true, now + timeout, Some(key);
    }

    method Invalidate()
      modifies this
      ensures !active && key.None?
      ensures old(!active && key.None?) ==> expiresAt == old(expiresAt)
    {
      if !active && key.None? { return; }
      active := false;
      expiresAt := 0;
      key := None;
    }

    method IsActive(now: int) returns (r: bool)
      modifies this
      ensures r == active == (old(active) && now < old(expiresAt))
      ensures r ==> key == old(key) && expiresAt == old(expiresAt)
    {
      if active && now >= expiresAt { Invalidate(); }
      r := active;
    }

    /** A call on a live capability spends it, whether it signs or not; a spent one never signs. */
    method SignIdentityUpdate(update: Bytes, now: int, accepts: Bytes -> bool, sign: (Bytes, Bytes) -> Bytes)
      returns (r: Option<Bytes>)
      modifies this
      ensures r.Some? <==> old(active && key.Some?) && now < old(expiresAt) && accepts(update)
      ensures r.Some? ==> r.value == sign(old(key).value, update)
      ensures old(active && key.Some?) ==> !active && key.None?
      ensures !old(active) ==> !active && key == old(key)
    {
      if !active { return None; }
      if now >= expiresAt {
        Invalidate();
        return None;
      }
      if key.None? { return None; }
      if accepts(update) { r := Some(sign(key.value, update)); } else { r := None; }
      Invalidate();
    }
  }

  // ------------------------------------------------------------- interleavings

  /** A capability as threads see it: who is inside its use lock, and what it has produced. */
  datatype Cap = Cap(active: bool, signing: bool, signatures: nat)

  /** Where a latching thread is: it invalidates every capability in turn before it writes. */
  datatype Latching = NotLatching | Invalidating(done: nat)

  datatype Session = Session(open: bool, latched: bool, latching: Latching, caps: seq<Cap>)

  datatype Action =
    | Issue
    | BeginSign(cap: nat)
    | EndSign(cap: nat, produced: bool)
    | Timeout(cap: nat)
    | StartLatch
    | InvalidateNext
    | Store(done: bool, unknown: bool)
    | Unlatch
    | LockSession

  predicate Ready(s: Session)
  {
    s.open && s.latching.NotLatching?
  }

  function AllInactive(caps: seq<Cap>): (r: seq<Cap>)
    ensures |r| == |caps| && forall i | 0 <= i < |caps| :: r[i] == caps[i].(active := false)
  {
    if caps == [] then [] else [caps[0].(active := false)] + AllInactive(caps[1..])
  }

  predicate NoneSigning(caps: seq<Cap>)
  {
    forall i | 0 <= i < |caps| :: !caps[i].signing
  }

  /** One step; the session's own calls hold its lock, the capabilities' calls only theirs. */
  function Next(s: Session, a: Action): Session
  {
    match a
    case Issue => if Ready(s) && !s.latched then s.(caps := s.caps + [Cap(true, false, 0)]) else s
    case BeginSign(i) =>
      if i < |s.caps| && s.caps[i].active && !s.caps[i].signing then
        s.(caps := s.caps[i := s.caps[i].(signing := true)]) else s
    case EndSign(i, produced) =>
      if i < |s.caps| && s.caps[i].signing then
        s.(caps := s.caps[i := Cap(false, false, s.caps[i].signatures + if produced then 1 else 0)])
      else s
    case Timeout(i) =>
      if i < |s.caps| && !s.caps[i].signing then s.(caps := s.caps[i := s.caps[i].(active := false)]) else s
    case StartLatch => if Ready(s) && !s.latched then s.(latching := Invalidating(0)) else s
    case InvalidateNext =>
      if s.latching.Invalidating? && s.latching.done < |s.caps| && !s.caps[s.latching.done].signing then
        s.(caps := s.caps[s.latching.done := s.caps[s.latching.done].(active := false)],
          latching := Invalidating(s.latching.done + 1))
      else s
    case Store(done, unknown) =>
      if s.latching.Invalidating? && s.latching.done == |s.caps| then
        if done then s.(latched := true, latching := NotLatching)
        else s.(latching := NotLatching, open := s.open && !unknown)
      else s
    case Unlatch => if Ready(s) then s.(latched := false) else s
    case LockSession =>
      if s.latching.NotLatching? && NoneSigning(s.caps) then
        s.(open := false, latched := false, caps := AllInactive(s.caps)) else s
  }

  function Run(s: Session, actions: seq<Action>): Session
    decreases |actions|
  {
    if actions == [] then s else Run(Next(s, actions[0]), actions[1..])
  }

  /** A freshly opened session; the wallet may already be latched. */
  function Start(latched: bool): Session
  {
    Session(true, latched, NotLatching, [])
  }

  /** Live capabilities have produced nothing; spent ones at most one signature. */
  ghost predicate CapSound(c: Cap)
  {
    c.signatures <= 1 && (c.active ==> c.signatures == 0) && (c.signing ==> c.active)
  }

  ghost predicate Inv(s: Session)
  {
    && (forall i | 0 <= i < |s.caps| :: CapSound(s.caps[i]))
    && (s.latched ==> s.latching.NotLatching? && forall i | 0 <= i < |s.caps| :: !s.caps[i].active)
    && (s.latching.Invalidating? ==>
         s.latching.done <= |s.caps| && forall i | 0 <= i < s.latching.done :: !s.caps[i].active)
  }

  lemma NextKeeps(s: Session, a: Action)
    requires Inv(s)
    ensures Inv(Next(s, a)) && |Next(s, a).caps| >= |s.caps|
  {
  }

  lemma {:induction false} RunKeeps(s: Session, actions: seq<Action>)
    requires Inv(s)
    ensures Inv(Run(s, actions)) && |Run(s, actions).caps| >= |s.caps|
    decreases |actions|
  {
    hide Inv, Next;
    if actions != [] {
      NextKeeps(s, actions[0]);
      RunKeeps(Next(s, actions[0]), actions[1..]);
    }
  }

  /**
   * In every interleaving of signing, timeouts, invalidation and latching: each capability has
   * produced at most one signature; while the session is latched none is active or signing, and
   * no step then produces a signature.
   */
  lemma OneSignatureNoneLatched(latched: bool, actions: seq<Action>, a: Action, i: nat)
    requires i < |Run(Start(latched), actions).caps|
    ensures var s := Run(Start(latched), actions);
            && s.caps[i].signatures <= 1
            && (s.latched ==> !s.caps[i].active && !s.caps[i].signing)
            && (s.latched ==> i < |Next(s, a).caps| && Next(s, a).caps[i].signatures == s.caps[i].signatures)
  {
    hide Run;
    RunKeeps(Start(latched), actions);
    assert CapSound(Run(Start(latched), actions).caps[i]);
  }

  /** A capability is issued exactly to an open, unlatched session that is not latching, and can then sign once. */
  lemma IssuedCanSign(s: Session)
    ensures |Next(s, Issue).caps| == |s.caps| + (if s.open && s.latching.NotLatching? && !s.latched then 1 else 0)
    ensures var i := |s.caps|;
            s.open && s.latching.NotLatching? && !s.latched ==>
              Run(s, [Issue, BeginSign(i), EndSign(i, true)]) == s.(caps := s.caps + [Cap(false, false, 1)])
  {
    var i := |s.caps|;
    if s.open && s.latching.NotLatching? && !s.latched {
      var s1 := Next(s, Issue);
      var s2 := Next(s1, BeginSign(i));
      var s3 := Next(s2, EndSign(i, true));
      assert s3.caps == s.caps + [Cap(false, false, 1)];
      calc {
        Run(s, [Issue, BeginSign(i), EndSign(i, true)]);
        Run(s1, [BeginSign(i), EndSign(i, true)]);
        Run(s2, [EndSign(i, true)]);
        Run(s3, []);
      }
    }
  }
}
