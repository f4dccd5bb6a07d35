/** Owner-key rotation as values: the payload, the intent, and what each session call may write. */
module Rotation {
  import opened Prelude
  import opened Identity
  import opened AtomicFiles
  import Kt = KotlinVerifier

  datatype KeyPair = KeyPair(seed: Bytes, publicKey: Bytes)

  /** What is latched on disk before the first PUT. */
  datatype Intent = Intent(
    owner: Bytes,
    predecessorKey: Bytes,
    successorKey: Bytes,
    predecessorHash: Bytes,
    sequence: nat,
    environment: Option<string>,
    envelopeHash: Bytes)

  /** The decrypted payload; rest stands for the fields rotation never touches. */
  datatype Payload = Payload(active: Option<KeyPair>, pending: Option<KeyPair>, intent: Option<Intent>, rest: Bytes)

  /** Seed to public key. */
  type PublicKeys = Bytes -> Bytes

  predicate PairValid(pub: PublicKeys, pair: KeyPair)
  {
    |pair.seed| == KEY_BYTES && |pair.publicKey| == KEY_BYTES && pub(pair.seed) == pair.publicKey
  }

  predicate ActiveValid(pub: PublicKeys, p: Payload)
  {
    p.active.Some? && PairValid(pub, p.active.value)
  }

  /** Active and pending pairs are present, valid, and have different public keys. */
  predicate PendingUsable(pub: PublicKeys, p: Payload)
  {
    ActiveValid(pub, p) && p.pending.Some? && PairValid(pub, p.pending.value)
      && p.pending.value.publicKey != p.active.value.publicKey
  }

  // ---------------------------------------------------- what a call may write

  /** Refused: the call throws and writes nothing. Unneeded: it returns without writing. */
  datatype Change = Refused | Unneeded | Write(candidate: Payload)

  function PrepareChange(pub: PublicKeys, p: Payload, seed: Bytes): Change
  {
    if p.intent.Some? || !ActiveValid(pub, p) then Refused
    else if p.pending.Some? then (if PendingUsable(pub, p) then Unneeded else Refused)
    else if pub(seed) == p.active.value.publicKey then Refused
    else Write(p.(pending := Some(KeyPair(seed, pub(seed)))))
  }

  function CancelChange(pub: PublicKeys, p: Payload): Change
  {
    if p.intent.Some? || !ActiveValid(pub, p) then Refused
    else if p.pending.None? then Unneeded
    else if !PendingUsable(pub, p) then Refused
    else Write(p.(pending := None))
  }

  /** Recovery of an intent stored before environments were recorded. */
  function BindChange(p: Payload, environment: string, approved: bool): Change
  {
    if p.intent.None? || p.intent.value.environment.Some? || !approved then Refused
    else Write(p.(intent := Some(p.intent.value.(environment := Some(environment)))))
  }

  /** A candidate envelope with the state it was verified to give. */
  datatype Publication = Publication(
    intent: Intent,
    envelope: Bytes,
    verifiedOwner: Bytes,
    verified: Kt.VerifiedState,
    expiresAt: int)

  predicate KeysAre(pub: PublicKeys, p: Payload, intent: Intent)
  {
    ActiveValid(pub, p) && p.pending.Some? && PairValid(pub, p.pending.value)
    && p.active.value.publicKey == intent.predecessorKey && p.pending.value.publicKey == intent.successorKey
  }

  predicate StateIs(state: Kt.VerifiedState, intent: Intent)
  {
    && state.ownerKey == intent.successorKey
    && state.predecessorOwnerKey == Some(intent.predecessorKey)
    && state.predecessorStateHash == Some(intent.predecessorHash)
    && state.sequence == intent.sequence
  }

  function LatchChange(c: Crypto, pub: PublicKeys, p: Payload, publication: Publication): Change
  {
    var intent := publication.intent;
    if p.intent.None? && KeysAre(pub, p, intent)
       && publication.verifiedOwner == intent.owner && StateIs(publication.verified, intent)
       && publication.verified.envelope == publication.envelope && c.sha(publication.envelope) == intent.envelopeHash
       && |publication.verified.stateHash| == KEY_BYTES
    then Write(p.(intent := Some(intent)))
    else Refused
  }

  /** A rejection is only ever made for an expired dispatch; its permit is told by identity. */
  datatype Rejection<+P> = Rejection(intent: Intent, permit: P, consumed: bool)

  function ResolveChange<P(==)>(p: Payload, active: Option<P>, rejection: Rejection<P>): Change
  {
    if p.intent == Some(rejection.intent) && active == Some(rejection.permit) && !rejection.consumed
    then Write(p.(intent := None))
    else Refused
  }

  /** Proof that a remote read showed the candidate, with the state hash it gave. */
  datatype Confirmation = Confirmation(intent: Intent, stateHash: Bytes)

  function FinalizeChange(pub: PublicKeys, p: Payload, confirmation: Confirmation): Change
  {
    if p.intent == Some(confirmation.intent) && |confirmation.stateHash| == KEY_BYTES
      && KeysAre(pub, p, confirmation.intent)
    then Write(p.(active := p.pending, pending := None, intent := None))
    else Refused
  }

  // ---------------------------------------------------------------- sessions

  /** The data key wrapped under a password. */
  datatype Wrap = Wrap(version: nat, password: string, dek: Bytes)

  /** Ciphertext is the tuple it was made from: it opens under its key and nothing else. */
  datatype Sealed = Sealed(dek: Bytes, nonce: Bytes, payload: Payload)

  datatype Container = Container(wrap: Wrap, sealed: Sealed)

  const LEGACY_VERSION: nat := 1
  const CURRENT_VERSION: nat := 2

  predicate Opens(container: Container, password: string, version: nat)
  {
    container.wrap.version == version && container.wrap.password == password
      && container.sealed.dek == container.wrap.dek
  }

  function Reseal(raw: Container, dek: Bytes, nonce: Bytes, payload: Payload): Container
  {
    Container(raw.wrap, Sealed(dek, nonce, payload))
  }

  /** The permit, told by identity, that this session itself latched. */
  datatype Session<+P> = Locked | Unlocked(raw: Container, dek: Bytes, payload: Payload, permit: Option<P>)

  function Opened<P>(container: Container): Session<P>
  {
    Unlocked(container, container.wrap.dek, container.sealed.payload, None)
  }

  function Replacement<P>(s: Session<P>, candidate: Payload, nonce: Bytes): Container
    requires s.Unlocked?
  {
    Reseal(s.raw, s.dek, nonce, candidate)
  }

  /** A rejected or unknown write locks the session; an ordinary failure leaves it as it was. */
  function Persisted<P>(s: Session<P>, candidate: Payload, nonce: Bytes, outcome: Outcome): Session<P>
    requires s.Unlocked?
  {
    match outcome
    case Replaced => s.(raw := Replacement(s, candidate, nonce), payload := candidate)
    case Rejected => Locked
    case Failed => s
    case Unknown => Locked
  }

  /** The permit is kept or dropped only once the write is known to be done. */
  function PersistedWith<P>(s: Session<P>, candidate: Payload, nonce: Bytes, outcome: Outcome,
          permit: Option<P>): Session<P>
    requires s.Unlocked?
  {
    var next := Persisted(s, candidate, nonce, outcome);
    if outcome.Replaced? then next.(permit := permit) else next
  }

  predicate LatchReady<P>(s: Session<P>, expiresAt: int, now: int, claimed: bool)
  {
    s.Unlocked? && s.payload.intent.None? && s.permit.None? && expiresAt > now && !claimed
  }
}
