/** The Python wallet session over its container file: what is on disk always reopens to it. */
module PythonWallet {
  import opened Prelude
  import opened Identity
  import opened AtomicFiles
  import opened Rotation

  // ---------------------------------------------------------------- container

  /** A key derived from a password, or a data key. */
  datatype Key = Kek(password: string, salt: Bytes) | Dek(bytes: Bytes)

  /** Associated data: the key-derivation header, or the payload's nonce; always with the version. */
  datatype Aad = WrapAad(version: nat, salt: Bytes) | PayloadAad(version: nat, nonce: Bytes)

  /** Authenticated encryption, symbolically: opens under the same key and associated data only. */
  datatype Box<+T> = Box(key: Key, nonce: Bytes, aad: Aad, plain: T)

  function OpenBox<T>(box: Box<T>, key: Key, aad: Aad): Option<T>
  {
    if box.key == key && box.aad == aad then Some(box.plain) else None
  }

  /** The payload as stored, seeds included. */
  datatype Content = Content(
    seed: Option<Bytes>,
    publicKey: Option<Bytes>,
    pendingSeed: Option<Bytes>,
    pendingKey: Option<Bytes>,
    intent: Option<Intent>,
    rest: map<string, Bytes>)

  datatype Vault = Vault(version: nat, salt: Bytes, wrap: Box<Bytes>, payload: Box<Content>)

  function Unlock(v: Vault, password: string): Option<(Bytes, Content)>
  {
    if v.version != CURRENT_VERSION then None else
    var dek :- OpenBox(v.wrap, Kek(password, v.salt), WrapAad(v.version, v.salt));
    var content :- OpenBox(v.payload, Dek(dek), PayloadAad(v.version, v.payload.nonce));
    Some((dek, content))
  }

  function WrapKey(password: string, salt: Bytes, nonce: Bytes, dek: Bytes): Box<Bytes>
  {
    Box(Kek(password, salt), nonce, WrapAad(CURRENT_VERSION, salt), dek)
  }

  function SealPayload(dek: Bytes, nonce: Bytes, content: Content): Box<Content>
  {
    Box(Dek(dek), nonce, PayloadAad(CURRENT_VERSION, nonce), content)
  }

  // ------------------------------------------------------------------ session

  /** The open payload keeps no seed; the seeds live beside it. */
  datatype Open = Open(
    publicKey: Option<Bytes>,
    pendingKey: Option<Bytes>,
    intent: Option<Intent>,
    rest: map<string, Bytes>,
    active: Option<Bytes>,
    pending: Option<Bytes>)

  /** Moves the seeds out of the payload, after checking every key and the intent against them. */
  function Install(pub: PublicKeys, c: Content): Option<Open>
  {
    if c.seed.None? then
      if c.publicKey.Some? || c.pendingSeed.Some? || c.pendingKey.Some? || c.intent.Some? then None
      else Some(Open(None, None, None, c.rest, None, None))
    else if c.publicKey.None? || !PairValid(pub, KeyPair(c.seed.value, c.publicKey.value)) then None
    else if c.pendingSeed.None? && c.pendingKey.Some? then None
    else if c.pendingSeed.Some? &&
            (|| c.pendingKey.None? || !PairValid(pub, KeyPair(c.pendingSeed.value, c.pendingKey.value))
              || c.pendingKey == c.publicKey)
    then None
    else if c.intent.Some?
      && (c.pendingKey.None? || Some(c.intent.value.predecessorKey) != c.publicKey
         || Some(c.intent.value.successorKey) != c.pendingKey)
    then None
    else Some(Open(c.publicKey, c.pendingKey, c.intent, c.rest, c.seed, c.pendingSeed))
  }

  /** What a write puts back together. */
  function ContentOf(s: Open): Content
  {
    Content(s.active, s.publicKey, s.pending, s.pendingKey, s.intent, s.rest)
  }

  predicate Consistent(pub: PublicKeys, s: Open)
  {
    && (s.active.None? ==> s.publicKey.None? && s.pending.None? && s.pendingKey.None? && s.intent.None?)
    && (s.active.Some? ==> s.publicKey.Some? && PairValid(pub, KeyPair(s.active.value, s.publicKey.value)))
    && (s.pending.None? <==> s.pendingKey.None?)
    && (s.pending.Some? ==> PairValid(pub, KeyPair(s.pending.value, s.pendingKey.value)) && s.pendingKey != s.publicKey)
    && (s.intent.Some? ==>
         s.pendingKey.Some? && Some(s.intent.value.predecessorKey) == s.publicKey
           && Some(s.intent.value.successorKey) == s.pendingKey)
  }

  /** Installing what was stored gives the session back, exactly for the consistent ones. */
  lemma InstallInverse(pub: PublicKeys, s: Open)
    ensures Install(pub, ContentOf(s)) == Some(s) <==> Consistent(pub, s)
  {
  }

  lemma InstallExact(pub: PublicKeys, c: Content)
    requires Install(pub, c).Some?
    ensures Consistent(pub, Install(pub, c).value) && ContentOf(Install(pub, c).value) == c
  {
  }

  /** A container that opens has the public keys of its seeds, two different ones, and an intent between just those. */
  lemma OpensToItsKeys(pub: PublicKeys, c: Content)
    requires Install(pub, c).Some?
    ensures c.publicKey == (if c.seed.Some? then Some(pub(c.seed.value)) else None)
    ensures c.pendingKey == (if c.pendingSeed.Some? then Some(pub(c.pendingSeed.value)) else None)
    ensures c.pendingKey.Some? ==> c.publicKey.Some? && c.pendingKey != c.publicKey
    ensures c.seed.Some? ==> |c.seed.value| == KEY_BYTES
    ensures c.pendingSeed.Some? ==> |c.pendingSeed.value| == KEY_BYTES
    ensures c.intent.Some? ==>
              && c.publicKey == Some(c.intent.value.predecessorKey)
              && c.pendingKey == Some(c.intent.value.successorKey)
  {
  }

  /** A new wallet, with or without a signing key, opens. */
  lemma NewContentInstalls(pub: PublicKeys, seed: Option<Bytes>, rest: map<string, Bytes>)
    requires KeySized(pub) && (seed.Some? ==> |seed.value| == KEY_BYTES)
    ensures var key := if seed.Some? then Some(pub(seed.value)) else None;
            Install(pub, Content(seed, key, None, None, None, rest)) == Some(Open(key, None, None, rest, seed, None))
  {
  }

  // ---------------------------------------------------------------- operations

  datatype Operation =
    | Prepare(seed: Bytes)
    | Cancel
    | Latch(intent: Intent)
    | Bind(environment: string)
    | Resolve(intent: Intent)
    | Finalize(intent: Intent)
    | Update(rest: map<string, Bytes>)

  /** The payload dictionary, which never holds a seed. */
  datatype Public = Public(publicKey: Option<Bytes>, pendingKey: Option<Bytes>, intent: Option<Intent>,
    rest: map<string, Bytes>)

  function PublicOf(s: Open): Public
  {
    Public(s.publicKey, s.pendingKey, s.intent, s.rest)
  }

  /** What a caller hands to the container builder: a candidate payload, and seeds to use instead of the stored ones. */
  datatype Build = Build(payload: Public, pendingOverride: Option<Bytes>, activeOverride: Option<Bytes>,
    includePending: bool)

  /**
   * The stored payload, put together from the candidate, the seed tables as they are before the
   * write, and the public key as it is before the write unless the active seed is overridden.
   */
  function BuildContent(s: Open, b: Build): Option<Content>
  {
    var seed := if b.activeOverride.Some? then b.activeOverride else s.active;
    var publicKey := if seed.Some? && b.activeOverride.None? then s.publicKey else b.payload.publicKey;
    if !b.includePending then Some(Content(seed, publicKey, None, None, b.payload.intent, b.payload.rest)) else
    var pendingSeed := if b.pendingOverride.Some? then b.pendingOverride else s.pending;
    if pendingSeed.Some? && (b.payload.pendingKey.None? || |b.payload.pendingKey.value| != KEY_BYTES) then None
    else Some(Content(seed, publicKey, pendingSeed, b.payload.pendingKey, b.payload.intent, b.payload.rest))
  }

  /** What each operation asks the builder for; None when it is refused or has nothing to write. */
  function Requested(pub: PublicKeys, s: Open, op: Operation): Option<Build>
  {
    match op
    case Prepare(seed) =>
      if s.intent.Some? || s.pending.Some? || s.active.None? || s.publicKey == Some(pub(seed))
        || |seed| != KEY_BYTES then None
      else Some(Build(PublicOf(s).(pendingKey := Some(pub(seed))), Some(seed), None, true))
    case Cancel =>
      if s.intent.Some? || s.pending.None? then None
      else Some(Build(PublicOf(s).(pendingKey := None), None, None, false))
    case Latch(intent) =>
      if s.intent.Some? || s.pending.None? || Some(intent.predecessorKey) != s.publicKey
        || Some(intent.successorKey) != s.pendingKey then None
      else Some(Build(PublicOf(s).(intent := Some(intent)), None, None, true))
    case Bind(environment) =>
      if s.intent.None? || s.intent.value.environment.Some? then None
      else Some(Build(PublicOf(s).(intent := Some(s.intent.value.(environment := Some(environment)))), None, None,
        true))
    case Resolve(intent) =>
      if s.intent != Some(intent) then None else Some(Build(PublicOf(s).(intent := None), None, None, true))
    case Finalize(intent) =>
      if s.intent != Some(intent) || s.pending.None? then None
      else Some(Build(PublicOf(s).(publicKey := s.pendingKey, pendingKey := None, intent := None), None, s.pending,
        false))
    case Update(rest) =>
      Some(Build(Public(if s.active.Some? then s.publicKey else None, if s.pending.Some? then s.pendingKey
        else None, s.intent, rest), None, None, true))
  }

  /** The session once the write is done: the candidate payload, and each operation's own change of the seed tables. */
  function Settled(s: Open, op: Operation, b: Build): Open
  {
    var active := if op.Finalize? then s.pending else s.active;
    var pending := match op
      case Prepare(seed) => Some(seed)
      case Cancel => None
      case Finalize(_) => None
      case _ => s.pending;
    Open(b.payload.publicKey, b.payload.pendingKey, b.payload.intent, b.payload.rest, active, pending)
  }

  function Applied(pub: PublicKeys, s: Open, op: Operation): Option<Open>
  {
    var b :- Requested(pub, s, op);
    Some(Settled(s, op, b))
  }

  ghost predicate KeySized(pub: PublicKeys)
  {
    forall seed | |seed| == KEY_BYTES :: |pub(seed)| == KEY_BYTES
  }

  lemma AppliedConsistent(pub: PublicKeys, s: Open, op: Operation)
    requires KeySized(pub) && Consistent(pub, s) && Applied(pub, s, op).Some?
    ensures Consistent(pub, Applied(pub, s, op).value)
  {
  }

  /**
   * For every operation on a consistent session the builder does not refuse, and what it puts
   * together from the old tables and the candidate is exactly what the new session stores.
   */
  lemma BuildsNewSession(pub: PublicKeys, s: Open, op: Operation)
    requires KeySized(pub) && Consistent(pub, s) && Requested(pub, s, op).Some?
    ensures BuildContent(s, Requested(pub, s, op).value) == Some(ContentOf(Applied(pub, s, op).value))
  {
  }

  /** Which operations the stored content allows. */
  predicate Allowed(pub: PublicKeys, c: Content, op: Operation)
  {
    match op
    case Prepare(seed) =>
      c.intent.None? && c.pendingSeed.None? && c.seed.Some? && |seed| == KEY_BYTES && c.publicKey != Some(pub(seed))
    case Cancel => c.intent.None? && c.pendingSeed.Some?
    case Latch(intent) =>
      && c.intent.None? && c.pendingSeed.Some?
      && c.publicKey == Some(intent.predecessorKey) && c.pendingKey == Some(intent.successorKey)
    case Bind(environment) => c.intent.Some? && c.intent.value.environment.None?
    case Resolve(intent) => c.intent == Some(intent)
    case Finalize(intent) => c.intent == Some(intent)
    case Update(rest) => true
  }

  /** What an operation does to the stored content, seeds included; what it does not name stays. */
  function Changed(pub: PublicKeys, c: Content, op: Operation): Content
    requires Allowed(pub, c, op)
  {
    match op
    case Prepare(seed) => c.(pendingSeed := Some(seed), pendingKey := Some(pub(seed)))
    case Cancel => c.(pendingSeed := None, pendingKey := None)
    case Latch(intent) => c.(intent := Some(intent))
    case Bind(environment) => c.(intent := Some(c.intent.value.(environment := Some(environment))))
    case Resolve(intent) => c.(intent := None)
    case Finalize(intent) =>
      c.(seed := c.pendingSeed, publicKey := c.pendingKey, pendingSeed := None, pendingKey := None, intent := None)
    case Update(rest) => c.(rest := rest)
  }

  /** For every operation on a consistent session: it goes ahead exactly when allowed, and changes exactly that. */
  lemma OperationChanges(pub: PublicKeys, s: Open, op: Operation)
    requires KeySized(pub) && Consistent(pub, s)
    ensures Applied(pub, s, op).Some? <==> Allowed(pub, ContentOf(s), op)
    ensures Applied(pub, s, op).Some? ==> ContentOf(Applied(pub, s, op).value) == Changed(pub, ContentOf(s), op)
  {
  }

  // --------------------------------------------------------------------- runs

  /** An unlocked session and its file; password is the last one set. */
  datatype State = State(disk: Vault, envelope: Vault, password: string, dek: Bytes, session: Open)

  function Created(password: string, salt: Bytes, wrapNonce: Bytes, dek: Bytes, nonce: Bytes, s: Open): State
  {
    var v := Vault(CURRENT_VERSION, salt, WrapKey(password, salt, wrapNonce, dek),
      SealPayload(dek, nonce, ContentOf(s)));
    State(v, v, password, dek, s)
  }

  /** Each write is done, or fails with the original rolled back. */
  datatype Action =
    | Operate(op: Operation, nonce: Bytes, done: bool)
    | ChangePassword(password: string, salt: Bytes, nonce: Bytes, done: bool)

  /** Keeps the key-derivation header and the wrapped key; seals what the builder put together. */
  function BuildEnvelope(v: Vault, dek: Bytes, nonce: Bytes, s: Open, b: Build): Option<Vault>
  {
    var content :- BuildContent(s, b);
    Some(Vault(CURRENT_VERSION, v.salt, v.wrap, SealPayload(dek, nonce, content)))
  }

  function Rewrapped(v: Vault, dek: Bytes, password: string, salt: Bytes, nonce: Bytes): Vault
  {
    Vault(CURRENT_VERSION, salt, WrapKey(password, salt, nonce, dek), v.payload)
  }

  function Next(pub: PublicKeys, w: State, a: Action): State
  {
    match a
    case Operate(op, nonce, done) =>
      var b := Requested(pub, w.session, op);
      if b.None? then w else
      var v := BuildEnvelope(w.envelope, w.dek, nonce, w.session, b.value);
      if v.None? || !done then w
      else w.(disk := v.value, envelope := v.value, session := Settled(w.session, op, b.value))
    case ChangePassword(password, salt, nonce, done) =>
      if !done then w
      else
        var v := Rewrapped(w.envelope, w.dek, password, salt, nonce);
        w.(disk := v, envelope := v, password := password)
  }

  function Run(pub: PublicKeys, w: State, actions: seq<Action>): State
    decreases |actions|
  {
    if actions == [] then w else Run(pub, Next(pub, w, actions[0]), actions[1..])
  }

  /** The file opens under the last password to exactly the session. */
  ghost predicate Reopens(pub: PublicKeys, w: State)
  {
    && w.disk == w.envelope && Unlock(w.disk, w.password) == Some((w.dek, ContentOf(w.session)))
    && Install(pub, ContentOf(w.session)) == Some(w.session)
  }

  lemma NextReopens(pub: PublicKeys, w: State, a: Action)
    requires KeySized(pub) && Reopens(pub, w)
    ensures Reopens(pub, Next(pub, w, a))
  {
    hide Install, Requested, Settled, BuildContent, KeySized, Consistent;
    InstallInverse(pub, w.session);
    if a.Operate? && Requested(pub, w.session, a.op).Some? {
      BuildsNewSession(pub, w.session, a.op);
      AppliedConsistent(pub, w.session, a.op);
      InstallInverse(pub, Applied(pub, w.session, a.op).value);
    }
  }

  lemma {:induction false} RunReopens(pub: PublicKeys, w: State, actions: seq<Action>)
    requires KeySized(pub) && Reopens(pub, w)
    ensures Reopens(pub, Run(pub, w, actions))
    decreases |actions|
  {
    hide Next, Reopens;
    if actions != [] {
      NextReopens(pub, w, actions[0]);
      RunReopens(pub, Next(pub, w, actions[0]), actions[1..]);
    }
  }

  /**
   * From create, over every run of rotation steps, updates and password changes, done or rolled
   * back: the file on disk unlocks under the last password set, passes the key and intent
   * checks, and yields exactly the session's keys, payload and intent.
   */
  lemma AlwaysReopens(pub: PublicKeys, password: string, salt: Bytes, wrapNonce: Bytes, dek: Bytes, nonce: Bytes,
          s: Open, actions: seq<Action>)
    requires KeySized(pub) && Consistent(pub, s)
    ensures Reopens(pub, Run(pub, Created(password, salt, wrapNonce, dek, nonce, s), actions))
  {
    hide Run, Consistent, KeySized;
    InstallInverse(pub, s);
    RunReopens(pub, Created(password, salt, wrapNonce, dek, nonce, s), actions);
  }

  /** The stored content alone, over a run: operations that are allowed and done change it, nothing else does. */
  function ContentAfter(pub: PublicKeys, c: Content, actions: seq<Action>): Content
    decreases |actions|
  {
    if actions == [] then c else ContentAfter(pub, ContentNext(pub, c, actions[0]), actions[1..])
  }

  function ContentNext(pub: PublicKeys, c: Content, a: Action): Content
  {
    if a.Operate? && a.done && Allowed(pub, c, a.op) then Changed(pub, c, a.op) else c
  }

  /** The last password whose change was done. */
  function PasswordAfter(password: string, actions: seq<Action>): string
    decreases |actions|
  {
    if actions == [] then password else PasswordAfter(PasswordNext(password, actions[0]), actions[1..])
  }

  function PasswordNext(password: string, a: Action): string
  {
    if a.ChangePassword? && a.done then a.password else password
  }

  lemma NextStores(pub: PublicKeys, w: State, a: Action)
    requires KeySized(pub) && Reopens(pub, w)
    ensures var v := Next(pub, w, a);
            && v.password == PasswordNext(w.password, a) && v.dek == w.dek
            && ContentOf(v.session) == ContentNext(pub, ContentOf(w.session), a)
  {
    hide Install, Requested, Settled, BuildContent, KeySized, Consistent, Allowed, Changed, ContentOf;
    InstallInverse(pub, w.session);
    if a.Operate? {
      OperationChanges(pub, w.session, a.op);
      if Requested(pub, w.session, a.op).Some? { BuildsNewSession(pub, w.session, a.op); }
    }
  }

  lemma {:induction false} RunStores(pub: PublicKeys, w: State, actions: seq<Action>)
    requires KeySized(pub) && Reopens(pub, w)
    ensures var v := Run(pub, w, actions);
            && v.password == PasswordAfter(w.password, actions) && v.dek == w.dek
            && ContentOf(v.session) == ContentAfter(pub, ContentOf(w.session), actions)
    decreases |actions|
  {
    hide Next, Reopens, ContentNext, PasswordNext, ContentOf;
    if actions != [] {
      NextReopens(pub, w, actions[0]);
      NextStores(pub, w, actions[0]);
      RunStores(pub, Next(pub, w, actions[0]), actions[1..]);
    }
  }

  /**
   * What is in the file. From create, over every run: the container opens under the last password
   * whose change was done and under no other, and what is then unlocked is the content it was
   * created with, changed by exactly the operations that were allowed and done, in their order.
   */
  lemma FileHoldsChanges(pub: PublicKeys, password: string, salt: Bytes, wrapNonce: Bytes, dek: Bytes, nonce: Bytes,
          s: Open, actions: seq<Action>, guess: string)
    requires KeySized(pub) && Consistent(pub, s)
    ensures var disk := Run(pub, Created(password, salt, wrapNonce, dek, nonce, s), actions).disk;
            Unlock(disk, guess)
              == if guess == PasswordAfter(password, actions) then Some((dek, ContentAfter(pub, ContentOf(s), actions)))
                 else None
  {
    hide Run, Consistent, KeySized, ContentAfter, PasswordAfter, Install, ContentOf;
    var w := Created(password, salt, wrapNonce, dek, nonce, s);
    InstallInverse(pub, s);
    RunReopens(pub, w, actions);
    RunStores(pub, w, actions);
    if guess != PasswordAfter(password, actions) {
      OneOpens(Run(pub, w, actions).disk, PasswordAfter(password, actions), guess);
    }
  }

  lemma OneOpens(v: Vault, password: string, guess: string)
    requires Unlock(v, password).Some? && guess != password
    ensures Unlock(v, guess).None?
  {
  }

  // ------------------------------------------------------------------- objects

  /** The wallet object: a write that is done moves it, one rolled back leaves it, an unknown one locks it. */
  class Wallet {
    const file: PlainFile<Vault>
    const pub: PublicKeys
    var envelope: Vault
    var dek: Option<Bytes>
    var session: Open
    ghost var password: string

    ghost predicate Valid()
      reads this, file
    {
      KeySized(pub) && (dek.Some? ==>
        file.contents.Some? && Reopens(pub, State(file.contents.value, envelope, password, dek.value, session)))
    }

    constructor (file: PlainFile<Vault>, pub: PublicKeys, vault: Vault, password: string, dek: Bytes, session: Open)
      requires KeySized(pub) && file.contents == Some(vault)
      requires Reopens(pub, State(vault, vault, password, dek, session))
      ensures Valid() && this.file == file && this.pub == pub && envelope == vault && this.dek == Some(dek)
      ensures this.session == session && this.password == password
    {
      this.file, this.pub, this.envelope, this.dek, this.session, this.password := file, pub, vault, Some(dek), session,
        password;
    }

    method PersistEnvelope(v: Vault, faults: WriteFaults) returns (r: Outcome)
      requires dek.Some?
      modifies this`dek, file
      ensures r.Replaced? ==> file.contents == Some(v)
      ensures r.Failed? ==> file.contents == old(file.contents)
      ensures r.Unknown? ==> file.contents == old(file.contents) || file.contents == Some(v)
      ensures !r.Rejected? && dek == if r.Unknown? then None else old(dek)
      ensures r.Replaced? <==> !(faults.read && old(file.contents).Some?) && !faults.stage && !faults.sync
    {
      r := file.AtomicWrite(v, faults);
      if r.Unknown? { dek := None; }
    }

    /** Prepare, cancel, latch, bind, resolve, finalize or update. */
    method Operate(op: Operation, nonce: Bytes, faults: WriteFaults) returns (r: Option<Outcome>)
      requires Valid()
      modifies this, file
      ensures Valid() && password == old(password)
      ensures r.Some? <==> old(dek).Some? && Requested(pub, old(session), op).Some?
      ensures r.None? ==>
                dek == old(dek) && session == old(session) && envelope == old(envelope)
                  && file.contents == old(file.contents)
      ensures r.Some? && !r.value.Unknown? ==>
                && dek == old(dek) && file.contents.Some?
                && State(file.contents.value, envelope, password, dek.value, session)
                   == Next(pub, State(old(file.contents).value, old(envelope), old(password), old(dek).value,
                       old(session)), Action.Operate(op, nonce, r.value.Replaced?))
      ensures r.Some? ==> (r.value.Replaced? <==> !faults.read && !faults.stage && !faults.sync)
      ensures r == Some(Unknown) ==> dek.None?
      ensures r == Some(Unknown) ==>
                || file.contents == old(file.contents)
                || file.contents == BuildEnvelope(old(envelope), old(dek).value, nonce, old(session),
                     Requested(pub, old(session), op).value)
    {
      if dek.None? { return None; }
      var build := Requested(pub, session, op);
      if build.None? { return None; }
      InstallInverse(pub, session);
      BuildsNewSession(pub, session, op);
      var v := BuildEnvelope(envelope, dek.value, nonce, session, build.value).value;
      NextReopens(pub, State(file.contents.value, envelope, password, dek.value, session),
        Action.Operate(op, nonce, true));
      var outcome := PersistEnvelope(v, faults);
      if outcome.Replaced? { session, envelope := Settled(session, op, build.value), v; }
      return Some(outcome);
    }

    /** Rewraps the data key; the sealed payload is carried over as it is. */
    method ChangePassword(newPassword: string, salt: Bytes, nonce: Bytes, faults: WriteFaults)
      returns (r: Option<Outcome>)
      requires Valid()
      modifies this, file
      ensures Valid() && session == old(session)
      ensures r.Some? <==> old(dek).Some?
      ensures r == Some(Replaced) ==> password == newPassword && dek == old(dek) && file.contents == Some(envelope)
      ensures r == Some(Replaced) ==> envelope == Rewrapped(old(envelope), old(dek).value, newPassword, salt, nonce)
      ensures r != Some(Replaced) ==> password == old(password) && envelope == old(envelope)
      ensures r.None? || r == Some(Failed) ==> dek == old(dek) && file.contents == old(file.contents)
      ensures r.Some? ==> (r.value.Replaced? <==> !faults.read && !faults.stage && !faults.sync)
      ensures r == Some(Unknown) ==> dek.None?
    {
      if dek.None? { return None; }
      var v := Rewrapped(envelope, dek.value, newPassword, salt, nonce);
      NextReopens(pub, State(file.contents.value, envelope, password, dek.value, session),
        Action.ChangePassword(newPassword, salt, nonce, true));
      var outcome := PersistEnvelope(v, faults);
      if outcome.Replaced? {
        envelope := v;
        password := newPassword;
      }
      return Some(outcome);
    }
  }

  /** Opens the file as a session; a container too large to read back does not open. */
  method OpenWallet(contents: Option<Vault>, fits: Vault -> bool, pub: PublicKeys, password: string)
    returns (r: Option<(Bytes, Open)>)
    ensures r.Some? <==>
              contents.Some? && fits(contents.value) && Unlock(contents.value, password).Some?
                && Install(pub, Unlock(contents.value, password).value.1).Some?
    ensures forall w: State | contents == Some(w.disk) && password == w.password && Reopens(pub, w) && fits(w.disk) ::
              r == Some((w.dek, w.session))
  {
    if contents.None? || !fits(contents.value) { return None; }
    var unlocked :- Unlock(contents.value, password);
    var session :- Install(pub, unlocked.1);
    return Some((unlocked.0, session));
  }
}
