/**
 * Threads on one adapter, for one owner: ordinary PUTs against the durable rotation latch, with any
 * number of sessions open on the one wallet file and their writes interleaved.
 */
module WriteGate {
  import opened Prelude
  import opened LatchRegistry

  /** What the thread that holds the owner's lock has done so far, and with which session. */
  datatype Doing =
    | Entered
    | Putting
    | Latching(session: nat, binding: Binding)
    | Latched(session: nat, binding: Binding)
    | Clearing(session: nat, binding: Binding)
    | Cleared(session: nat, binding: Binding)

  datatype OwnerLock = Free | Held(thread: nat, doing: Doing)

  /** How far a write of the file has got: nothing in place, the new bytes put in place, the old ones put back. */
  datatype Phase = Staged | Placed | Restored

  /** previous is what the writer read from the file before it began; target is what it writes. */
  datatype Work = Idle | Writing(previous: Option<Binding>, target: Option<Binding>, phase: Phase)

  /** An open session's own copy of the latched intent, and the write it is in. */
  datatype Session = Session(intent: Option<Binding>, work: Work)

  /**
   * disk is the latched intent in the wallet file. standing is history, read by no step: since the
   * adapter started or a clearing last reported success, a latch write reported success or a
   * confirmation registered an intent.
   */
  datatype World = World(
    lock: OwnerLock,
    slot: Option<Slot>,
    disk: Option<Binding>,
    sessions: map<nat, Session>,
    standing: bool)

  /** What a storage write reports: done, rolled back, or unknown. */
  datatype Outcome = Done | Failed | Unknown

  /** Elsewhere is a latch or a clearing through another adapter, whose registry and lock are its own. */
  datatype Action =
    | Open(session: nat)
    | Close(session: nat)
    | Acquire(thread: nat)
    | Release(thread: nat)
    | StartPut(thread: nat)
    | EndPut(thread: nat)
    | BeginLatch(thread: nat, session: nat, binding: Binding)
    | Mark(thread: nat)
    | BeginClear(thread: nat, session: nat)
    | Unmark(thread: nat)
    | Rewrite(session: nat)
    | Bind(session: nat, environment: string)
    | Elsewhere(session: nat, target: Option<Binding>)
    | Install(session: nat)
    | Restore(session: nat)
    | Report(session: nat, outcome: Outcome)
    | RegisterOnly(binding: Binding)

  predicate Has(w: World, t: nat, d: Doing)
  {
    w.lock == Held(t, d)
  }

  /** The thread that holds the owner's lock is at work on this session. */
  predicate Engaged(w: World, id: nat)
  {
    w.lock.Held? && !w.lock.doing.Entered? && !w.lock.doing.Putting? && w.lock.doing.session == id
  }

  /** Open, and its own lock free: a call on it can begin. */
  predicate Ready(w: World, id: nat)
  {
    id in w.sessions && w.sessions[id].work.Idle? && !Engaged(w, id)
  }

  predicate InWrite(w: World, id: nat)
  {
    id in w.sessions && w.sessions[id].work.Writing?
  }

  /** The session has read the file and goes on to write target. */
  function Begun(w: World, id: nat, target: Option<Binding>): World
    requires id in w.sessions
  {
    w.(sessions := w.sessions[id := w.sessions[id].(work := Writing(w.disk, target, Staged))])
  }

  /** Before anything is in place only failure is reported; once restored, never success. */
  predicate Reportable(phase: Phase, outcome: Outcome)
  {
    match phase
    case Staged => outcome.Failed?
    case Placed => outcome.Done? || outcome.Unknown?
    case Restored => outcome.Failed? || outcome.Unknown?
  }

  function SessionsAfter(w: World, id: nat, outcome: Outcome): map<nat, Session>
    requires InWrite(w, id)
  {
    match outcome
    case Done => w.sessions[id := Session(w.sessions[id].work.target, Idle)]
    case Failed => w.sessions[id := w.sessions[id].(work := Idle)]
    case Unknown => w.sessions - {id}
  }

  /** The end of a write: an unknown outcome locks the session; a latch or a clearing goes on only after success. */
  function Ended(w: World, id: nat, outcome: Outcome): World
    requires InWrite(w, id)
  {
    var v := w.(sessions := SessionsAfter(w, id, outcome));
    if !Engaged(w, id) then v
    else if w.lock.doing.Latching? then
      if outcome.Done? then v.(lock := Held(w.lock.thread, Latched(id, w.lock.doing.binding)), standing := true)
      else v.(lock := Free)
    else if w.lock.doing.Clearing? then
      if outcome.Done? then v.(lock := Held(w.lock.thread, Cleared(id, w.lock.doing.binding)), standing := false)
      else v.(lock := Free)
    else v
  }

  predicate Installs(w: World, id: nat)
  {
    InWrite(w, id) && w.sessions[id].work.phase.Staged?
  }

  predicate InPlace(w: World, id: nat)
  {
    InWrite(w, id) && w.sessions[id].work.phase.Placed?
  }

  /** The file now holds latch; nobody compares it with what was there. */
  function Replaced(w: World, id: nat, latch: Option<Binding>, phase: Phase): World
    requires InWrite(w, id)
  {
    w.(disk := latch, sessions := w.sessions[id := w.sessions[id].(work := w.sessions[id].work.(phase := phase))])
  }

  /** One step; a step that is not possible leaves the world as it is. */
  function Next(w: World, a: Action): World
  {
    match a
    case Open(id) => if id in w.sessions then w else w.(sessions := w.sessions[id := Session(w.disk, Idle)])
    case Close(id) => if Ready(w, id) then w.(sessions := w.sessions - {id}) else w
    case Acquire(t) => if w.lock.Free? then w.(lock := Held(t, Entered)) else w
    case Release(t) => if Has(w, t, Entered) then w.(lock := Free) else w
    case StartPut(t) => if Has(w, t, Entered) && w.slot.None? then w.(lock := Held(t, Putting)) else w
    case EndPut(t) => if Has(w, t, Putting) then w.(lock := Free) else w
    case BeginLatch(t, id, b) =>
      if Has(w, t, Entered) && w.slot.None? && Ready(w, id) && w.sessions[id].intent.None?
      then Begun(w, id, Some(b)).(lock := Held(t, Latching(id, b))) else w
    case Mark(t) =>
      if w.lock.Held? && w.lock.thread == t && w.lock.doing.Latched? then
        var slot := Registered(w.slot, w.lock.doing.binding, true);
        w.(slot := if slot.Some? then slot else w.slot, lock := Free)
      else w
    case BeginClear(t, id) =>
      if Has(w, t, Entered) && Ready(w, id) && w.sessions[id].intent.Some?
        && Clears(w.slot, w.sessions[id].intent.value)
      then Begun(w, id, None).(lock := Held(t, Clearing(id, w.sessions[id].intent.value))) else w
    case Unmark(t) =>
      if w.lock.Held? && w.lock.thread == t && w.lock.doing.Cleared? then
        w.(slot := if Clears(w.slot, w.lock.doing.binding) then None else w.slot, lock := Free)
      else w
    case Rewrite(id) => if Ready(w, id) then Begun(w, id, w.sessions[id].intent) else w
    case Bind(id, environment) =>
      if Ready(w, id) && w.sessions[id].intent.Some? && w.sessions[id].intent.value.environment.None?
      then Begun(w, id, Some(w.sessions[id].intent.value.(environment := Some(environment)))) else w
    case Elsewhere(id, target) =>
      if Ready(w, id) && (target.Some? <==> w.sessions[id].intent.None?) then Begun(w, id, target) else w
    case Install(id) => if Installs(w, id) then Replaced(w, id, w.sessions[id].work.target, Placed) else w
    case Restore(id) => if InPlace(w, id) then Replaced(w, id, w.sessions[id].work.previous, Restored) else w
    case Report(id, outcome) =>
      if InWrite(w, id) && Reportable(w.sessions[id].work.phase, outcome) then Ended(w, id, outcome) else w
    case RegisterOnly(b) =>
      if w.lock.Free? && Registered(w.slot, b, false).Some?
      then w.(slot := Registered(w.slot, b, false), standing := true) else w
  }

  function Run(w: World, actions: seq<Action>): World
    decreases |actions|
  {
    if actions == [] then w else Run(Next(w, actions[0]), actions[1..])
  }

  /** A fresh adapter over a wallet file that may carry a latch from before, and on which sessions may be open. */
  function Start(disk: Option<Binding>, sessions: map<nat, Session>): World
  {
    World(Free, None, disk, sessions, false)
  }

  /** Nothing latched and nothing open. */
  const CLEAN := Start(None, map[])

  // -------------------------------------------------------------- invariant

  /** Registered and not just cleared, or stored and about to be registered. */
  predicate Guarded(w: World)
  {
    || (w.slot.Some? && !(w.lock.Held? && w.lock.doing.Cleared?))
    || (w.lock.Held? && w.lock.doing.Latched?)
  }

  predicate Inv(w: World)
  {
    && (w.standing <==> Guarded(w))
    && (w.lock.Held? && (w.lock.doing.Putting? || w.lock.doing.Latching? || w.lock.doing.Latched?) ==> w.slot.None?)
    && (w.lock.Held? && (w.lock.doing.Clearing? || w.lock.doing.Cleared?) ==> Clears(w.slot, w.lock.doing.binding))
    && (w.lock.Held? && w.lock.doing.Latching? ==>
         && InWrite(w, w.lock.doing.session) && w.sessions[w.lock.doing.session].intent.None?
         && w.sessions[w.lock.doing.session].work.target == Some(w.lock.doing.binding))
    && (w.lock.Held? && w.lock.doing.Clearing? ==>
         InWrite(w, w.lock.doing.session) && w.sessions[w.lock.doing.session].work.target.None?)
    && (w.lock.Held? && (w.lock.doing.Latched? || w.lock.doing.Cleared?) ==>
         w.lock.doing.session in w.sessions && w.sessions[w.lock.doing.session].work.Idle?)
    && (w.lock.Held? && w.lock.doing.Cleared? ==> w.sessions[w.lock.doing.session].intent.None?)
  }

  lemma {:induction false} RunKeeps(w: World, actions: seq<Action>)
    requires Inv(w)
    ensures Inv(Run(w, actions))
    decreases |actions|
  {
    hide Inv, Next;
    if actions != [] {
      NextKeeps(w, actions[0]);
      RunKeeps(Next(w, actions[0]), actions[1..]);
    }
  }

  lemma NextKeeps(w: World, a: Action)
    requires Inv(w)
    ensures Inv(Next(w, a))
  {
    hide Inv, Next;
    if a.Report? { ReportKeeps(w, a); }
    else if OnSession(a) { WriteKeeps(w, a); }
    else { LockKeeps(w, a); }
  }

  predicate OnSession(a: Action)
  {
    a.Install? || a.Restore? || a.Rewrite? || a.Bind? || a.Elsewhere? || a.Open? || a.Close?
  }

  lemma ReportKeeps(w: World, a: Action)
    requires Inv(w) && a.Report?
    ensures Inv(Next(w, a))
  {
  }

  lemma WriteKeeps(w: World, a: Action)
    requires Inv(w) && OnSession(a)
    ensures Inv(Next(w, a))
  {
  }

  lemma LockKeeps(w: World, a: Action)
    requires Inv(w) && !a.Report? && !OnSession(a)
    ensures Inv(Next(w, a))
  {
  }

  /**
   * The write gate. In every interleaving, while an ordinary PUT is under way no latch stands: none
   * whose write reported success, or that a confirmation registered, is still to be cleared.
   */
  lemma NoPutWhileLatched(disk: Option<Binding>, sessions: map<nat, Session>, actions: seq<Action>)
    ensures var w := Run(Start(disk, sessions), actions);
            w.lock.Held? && w.lock.doing.Putting? ==> !w.standing && w.slot.None?
  {
    hide Run;
    RunKeeps(Start(disk, sessions), actions);
  }

  /** Marking a stored latch always succeeds: the owner was unregistered, and the lock was never let go. */
  lemma MarkSucceeds(disk: Option<Binding>, sessions: map<nat, Session>, actions: seq<Action>, t: nat)
    requires var w := Run(Start(disk, sessions), actions); w.lock.Held? && w.lock.thread == t && w.lock.doing.Latched?
    ensures var w := Run(Start(disk, sessions), actions);
            Next(w, Mark(t)) == w.(slot := Some(Slot(w.lock.doing.binding, true)), lock := Free)
  {
    hide Run;
    RunKeeps(Start(disk, sessions), actions);
  }

  // ---------------------------------------------------- where the gate is open

  /** With the lock free, this thread could start an ordinary PUT. */
  predicate CanPut(w: World, t: nat)
  {
    Next(Next(w, Acquire(t)), StartPut(t)).lock == Held(t, Putting)
  }

  /**
   * Whether the latch on disk is one nobody was told of, after one more step. A file write makes it
   * so when it leaves a latch in the file while none stands: a latch write before its report, a
   * session's write of a latch cleared meanwhile, or the restoring of one. So does a clearing that
   * reports success after another write put a latch back. A latch write that reports success, or
   * a confirmation, ends it.
   */
  function Silenced(w: World, silent: bool, a: Action): bool
  {
    match a
    case Install(id) => if Installs(w, id) then w.sessions[id].work.target.Some? && !w.standing else silent
    case Restore(id) => if InPlace(w, id) then w.sessions[id].work.previous.Some? && !w.standing else silent
    case Report(id, Done) =>
      if !InPlace(w, id) || !Engaged(w, id) then silent
      else if w.lock.doing.Latching? then false
      else if w.lock.doing.Clearing? then w.disk.Some?
      else silent
    case RegisterOnly(b) => silent && !w.lock.Free?
    case _ => silent
  }

  /** Read off the run alone; a latch in the file before this adapter started is silent. */
  function Silent(w: World, silent: bool, actions: seq<Action>): bool
    decreases |actions|
  {
    if actions == [] then silent else Silent(Next(w, actions[0]), Silenced(w, silent, actions[0]), actions[1..])
  }

  predicate SilentInv(w: World, silent: bool)
  {
    Inv(w) && (silent <==> w.disk.Some? && !w.standing)
  }

  lemma NextSilent(w: World, silent: bool, a: Action)
    requires SilentInv(w, silent)
    ensures SilentInv(Next(w, a), Silenced(w, silent, a))
  {
    hide Inv, Next, Silenced;
    NextKeeps(w, a);
    if !w.standing && w.lock.Free? { DownIsUnregistered(w); }
    SilentBit(w, silent, a);
  }

  lemma DownIsUnregistered(w: World)
    requires Inv(w) && !w.standing && w.lock.Free?
    ensures w.slot.None?
  {
  }

  lemma SilentBit(w: World, silent: bool, a: Action)
    requires (silent <==> w.disk.Some? && !w.standing) && (!w.standing && w.lock.Free? ==> w.slot.None?)
    ensures Silenced(w, silent, a) <==> Next(w, a).disk.Some? && !Next(w, a).standing
  {
  }

  lemma {:induction false} RunSilent(w: World, silent: bool, actions: seq<Action>)
    requires SilentInv(w, silent)
    ensures SilentInv(Run(w, actions), Silent(w, silent, actions))
    decreases |actions|
  {
    hide SilentInv, Next, Silenced;
    if actions != [] {
      NextSilent(w, silent, actions[0]);
      RunSilent(Next(w, actions[0]), Silenced(w, silent, actions[0]), actions[1..]);
    }
  }

  /**
   * The exact condition. In every run, over a file that carries a latch, an ordinary PUT can
   * start, or is under way, only if that latch is silent; and over a silent latch one can always
   * start. While a latch stands, none in the file is silent.
   */
  lemma GateOpenExactly(disk: Option<Binding>, sessions: map<nat, Session>, actions: seq<Action>, t: nat)
    ensures var w, silent := Run(Start(disk, sessions), actions), Silent(Start(disk, sessions), disk.Some?, actions);
            && (w.lock.Free? && w.disk.Some? ==> (CanPut(w, t) <==> silent))
            && (w.lock.Held? && w.lock.doing.Putting? && w.disk.Some? ==> silent)
            && (w.standing ==> !silent)
  {
    hide Run, Silent;
    RunSilent(Start(disk, sessions), disk.Some?, actions);
  }

  // ------------------------------------------------------ where the gate holds

  /** A latch write whose report is unknown while the file carries a latch. */
  predicate Loses(w: World, a: Action)
  {
    a.Report? && a.outcome.Unknown? && Engaged(w, a.session) && w.lock.doing.Latching? && w.disk.Some?
  }

  /** One session at a time, on this adapter only, and no latch write lost. */
  predicate Orderly(w: World, actions: seq<Action>)
    decreases |actions|
  {
    actions == [] || (!Loses(w, actions[0]) && !actions[0].Elsewhere? && (actions[0].Open? ==> w.sessions == map[])
                      && Orderly(Next(w, actions[0]), actions[1..]))
  }

  /** What the one session knows is what is in the file, but for the write it is in. */
  predicate Follows(w: World, id: nat)
    requires id in w.sessions
  {
    var s := w.sessions[id];
    if s.work.Idle? then s.intent == w.disk
    else
      && s.work.previous == s.intent && w.disk == (if s.work.phase.Placed? then s.work.target else s.intent)
      && (Engaged(w, id) ==>
           if w.lock.doing.Latching? then s.intent.None? else w.lock.doing.Clearing?)
      && (!Engaged(w, id) ==> (s.work.target.Some? <==> s.intent.Some?))
  }

  predicate OrderInv(w: World)
  {
    && Inv(w) && (forall i, j | i in w.sessions && j in w.sessions :: i == j)
    && (forall id | id in w.sessions :: Follows(w, id))
    && (w.disk.Some? ==> w.standing || (w.lock.Held? && w.lock.doing.Latching?))
  }

  lemma OrderStep(w: World, a: Action)
    requires OrderInv(w) && !Loses(w, a) && !a.Elsewhere? && (a.Open? ==> w.sessions == map[])
    ensures OrderInv(Next(w, a))
  {
    hide Inv, Next, OrderInv, Loses;
    if a.Report? { OrderReport(w, a); }
    else if OnSession(a) { OrderWrite(w, a); }
    else { OrderLock(w, a); }
  }

  lemma OrderReport(w: World, a: Action)
    requires OrderInv(w) && !Loses(w, a) && a.Report?
    ensures OrderInv(Next(w, a))
  {
    ReportKeeps(w, a);
  }

  lemma OrderWrite(w: World, a: Action)
    requires OrderInv(w) && OnSession(a) && !a.Elsewhere? && (a.Open? ==> w.sessions == map[])
    ensures OrderInv(Next(w, a))
  {
    hide Inv, Next, OrderInv;
    if a.Install? || a.Restore? { OrderPlace(w, a); } else { OrderBegin(w, a); }
  }

  lemma OrderPlace(w: World, a: Action)
    requires OrderInv(w) && (a.Install? || a.Restore?)
    ensures OrderInv(Next(w, a))
  {
    WriteKeeps(w, a);
  }

  lemma OrderBegin(w: World, a: Action)
    requires OrderInv(w) && OnSession(a) && !a.Install? && !a.Restore? && !a.Elsewhere?
    requires a.Open? ==> w.sessions == map[]
    ensures OrderInv(Next(w, a))
  {
    WriteKeeps(w, a);
  }

  lemma OrderLock(w: World, a: Action)
    requires OrderInv(w) && !a.Report? && !OnSession(a)
    ensures OrderInv(Next(w, a))
  {
    LockKeeps(w, a);
  }

  lemma {:induction false} OrderRuns(w: World, actions: seq<Action>)
    requires OrderInv(w) && Orderly(w, actions)
    ensures OrderInv(Run(w, actions))
    decreases |actions|
  {
    hide OrderInv, Next, Loses;
    if actions != [] {
      OrderStep(w, actions[0]);
      OrderRuns(Next(w, actions[0]), actions[1..]);
    }
  }

  /**
   * From an unlatched file, with one session at a time, one adapter and no latch write whose effect stays while
   * its report is unknown, the gate holds: no PUT starts or runs while the file is latched.
   */
  lemma GateHoldsInOrder(actions: seq<Action>, t: nat)
    requires Orderly(CLEAN, actions)
    ensures var w := Run(CLEAN, actions);
            w.disk.Some? ==> !(w.lock.Held? && w.lock.doing.Putting?) && (w.lock.Free? ==> !CanPut(w, t))
  {
    hide Run, Orderly;
    OrderRuns(CLEAN, actions);
  }

  // ------------------------------------------------------ an open gate stays open

  /** A latch write or a confirmation that makes a latch stand. */
  predicate Registers(w: World, a: Action)
  {
    || a.RegisterOnly?
    || (a.Report? && a.outcome.Done? && Engaged(w, a.session) && w.lock.doing.Latching?)
  }

  predicate NoneRegisters(w: World, actions: seq<Action>)
    decreases |actions|
  {
    actions == [] || (!Registers(w, actions[0]) && NoneRegisters(Next(w, actions[0]), actions[1..]))
  }

  lemma StaysDown(w: World, a: Action)
    requires Inv(w) && !w.standing && !Registers(w, a)
    ensures Inv(Next(w, a)) && !Next(w, a).standing
  {
    NextKeeps(w, a);
  }

  lemma {:induction false} NoneStands(w: World, more: seq<Action>)
    requires Inv(w) && !w.standing && NoneRegisters(w, more)
    ensures Inv(Run(w, more)) && !Run(w, more).standing
    decreases |more|
  {
    hide Inv, Next, Registers;
    if more != [] {
      StaysDown(w, more[0]);
      NoneStands(Next(w, more[0]), more[1..]);
    }
  }

  /** After a silent latch the gate is open over whatever the file holds, until a latch or a confirmation registers. */
  lemma GateStaysOpen(
    disk: Option<Binding>, sessions: map<nat, Session>, actions: seq<Action>, more: seq<Action>, t: nat)
    requires Silent(Start(disk, sessions), disk.Some?, actions)
    requires NoneRegisters(Run(Start(disk, sessions), actions), more)
    ensures var w := Run(Run(Start(disk, sessions), actions), more); w.lock.Free? ==> CanPut(w, t)
  {
    hide Run, Silent, NoneRegisters;
    RunSilent(Start(disk, sessions), disk.Some?, actions);
    NoneStands(Run(Start(disk, sessions), actions), more);
  }

  /** Everything this session has or is writing is a latch. */
  predicate Carries(s: Session)
  {
    s.intent.Some? && (s.work.Writing? ==> s.work.previous.Some? && s.work.target.Some?)
  }

  predicate AllCarry(w: World)
  {
    Inv(w) && w.disk.Some? && !w.standing && forall id | id in w.sessions :: Carries(w.sessions[id])
  }

  lemma CarryStep(w: World, a: Action)
    requires AllCarry(w) && !a.RegisterOnly? && !a.Elsewhere?
    ensures AllCarry(Next(w, a))
  {
    NextKeeps(w, a);
  }

  lemma {:induction false} CarryRuns(w: World, more: seq<Action>)
    requires AllCarry(w) && forall i | 0 <= i < |more| :: !more[i].RegisterOnly? && !more[i].Elsewhere?
    ensures AllCarry(Run(w, more))
    decreases |more|
  {
    hide AllCarry, Next;
    if more != [] {
      assert !more[0].RegisterOnly? && !more[0].Elsewhere?;
      CarryStep(w, more[0]);
      CarryRuns(Next(w, more[0]), more[1..]);
    }
  }

  /**
   * Where every open session carries a latch, a silent one stays in the file and unguarded,
   * whatever else runs on this adapter, until a confirmation registers it.
   */
  lemma LatchStaysUnguarded(
    disk: Option<Binding>, sessions: map<nat, Session>, actions: seq<Action>, more: seq<Action>, t: nat)
    requires Silent(Start(disk, sessions), disk.Some?, actions)
    requires forall i | 0 <= i < |more| :: !more[i].RegisterOnly? && !more[i].Elsewhere?
    requires var w := Run(Start(disk, sessions), actions); forall id | id in w.sessions :: Carries(w.sessions[id])
    ensures var w := Run(Run(Start(disk, sessions), actions), more); w.disk.Some? && (w.lock.Free? ==> CanPut(w, t))
  {
    hide Run, Silent, Carries;
    RunSilent(Start(disk, sessions), disk.Some?, actions);
    CarryRuns(Run(Start(disk, sessions), actions), more);
  }

  // --------------------------------------------------------- runs that open it

  lemma {:induction false} RunConcat(w: World, a: seq<Action>, b: seq<Action>)
    ensures Run(w, a + b) == Run(Run(w, a), b)
    decreases |a|
  {
    hide Next;
    if a == [] {
      assert a + b == b;
    } else {
      assert (a + b)[0] == a[0] && (a + b)[1..] == a[1..] + b;
      RunConcat(Next(w, a[0]), a[1..], b);
    }
  }

  lemma Unroll(w: World, a: Action, rest: seq<Action>)
    ensures Run(w, [a] + rest) == Run(Next(w, a), rest)
  {
    hide Next;
    assert ([a] + rest)[1..] == rest;
  }

  function LatchBy(t: nat, id: nat, b: Binding): seq<Action>
  {
    [Acquire(t), BeginLatch(t, id, b), Install(id), Report(id, Done), Mark(t)]
  }

  function ClearBy(t: nat, id: nat): seq<Action>
  {
    [Acquire(t), BeginClear(t, id), Install(id), Report(id, Done), Unmark(t)]
  }

  function RewriteBy(id: nat): seq<Action>
  {
    [Rewrite(id), Install(id), Report(id, Done)]
  }

  function RollbackBy(id: nat): seq<Action>
  {
    [Install(id), Restore(id), Report(id, Failed)]
  }

  function LossBy(t: nat, id: nat, b: Binding): seq<Action>
  {
    [Acquire(t), BeginLatch(t, id, b), Install(id), Report(id, Unknown)]
  }

  function ElsewhereBy(id: nat, b: Binding): seq<Action>
  {
    [Elsewhere(id, Some(b)), Install(id), Report(id, Done)]
  }

  function PutBy(t: nat): seq<Action>
  {
    [Acquire(t), StartPut(t)]
  }

  /** A write that nobody disturbs: the target in the file and in the session. */
  lemma WriteRuns(w: World, id: nat)
    requires InWrite(w, id) && w.sessions[id].work.phase.Staged?
    ensures var target := w.sessions[id].work.target;
            var placed := Replaced(w, id, target, Placed);
            Run(w, [Install(id), Report(id, Done)]) == Ended(placed, id, Done)
    ensures var target := w.sessions[id].work.target;
            var v := Ended(Replaced(w, id, target, Placed), id, Done);
            v.disk == target && v.sessions == w.sessions[id := Session(target, Idle)] && v.slot == w.slot
  {
    hide Run;
    Unroll(w, Install(id), [Report(id, Done)]);
    assert [Install(id)] + [Report(id, Done)] == [Install(id), Report(id, Done)];
    OneStep(Next(w, Install(id)), Report(id, Done));
  }

  /** An idle session without a latch sets one, undisturbed. */
  lemma LatchRuns(w: World, t: nat, id: nat, b: Binding)
    requires w.lock.Free? && w.slot.None? && id in w.sessions && w.sessions[id] == Session(None, Idle)
    ensures Run(w, LatchBy(t, id, b))
            == World(Free, Some(Slot(b, true)), Some(b), w.sessions[id := Session(Some(b), Idle)], true)
  {
    hide Run;
    var write := [Install(id), Report(id, Done)];
    var begun := Begun(w, id, Some(b)).(lock := Held(t, Latching(id, b)));
    assert LatchBy(t, id, b) == [Acquire(t)] + ([BeginLatch(t, id, b)] + (write + [Mark(t)]));
    Unroll(w, Acquire(t), [BeginLatch(t, id, b)] + (write + [Mark(t)]));
    Unroll(Next(w, Acquire(t)), BeginLatch(t, id, b), write + [Mark(t)]);
    RunConcat(begun, write, [Mark(t)]);
    WriteRuns(begun, id);
    OneStep(Run(begun, write), Mark(t));
  }

  /** An idle session whose latch is registered clears it, undisturbed. */
  lemma ClearRuns(w: World, t: nat, id: nat, b: Binding)
    requires w.lock.Free? && w.slot == Some(Slot(b, true)) && id in w.sessions
    requires w.sessions[id] == Session(Some(b), Idle)
    ensures Run(w, ClearBy(t, id)) == World(Free, None, None, w.sessions[id := Session(None, Idle)], false)
  {
    hide Run;
    var write := [Install(id), Report(id, Done)];
    var begun := Begun(w, id, None).(lock := Held(t, Clearing(id, b)));
    assert ClearBy(t, id) == [Acquire(t)] + ([BeginClear(t, id)] + (write + [Unmark(t)]));
    Unroll(w, Acquire(t), [BeginClear(t, id)] + (write + [Unmark(t)]));
    Unroll(Next(w, Acquire(t)), BeginClear(t, id), write + [Unmark(t)]);
    RunConcat(begun, write, [Unmark(t)]);
    WriteRuns(begun, id);
    OneStep(Run(begun, write), Unmark(t));
  }

  lemma RewriteRuns(w: World, id: nat)
    requires w.lock.Free? && id in w.sessions && w.sessions[id].work.Idle?
    ensures Run(w, RewriteBy(id)) == w.(disk := w.sessions[id].intent)
  {
    hide Run;
    var begun := Begun(w, id, w.sessions[id].intent);
    assert Next(w, Rewrite(id)) == begun;
    Unroll(w, Rewrite(id), [Install(id), Report(id, Done)]);
    assert RewriteBy(id) == [Rewrite(id)] + [Install(id), Report(id, Done)];
    WriteRuns(begun, id);
    assert begun.sessions[id := w.sessions[id]] == w.sessions;
  }

  lemma OpenRuns(w: World, id: nat)
    requires id !in w.sessions
    ensures Run(w, [Open(id)]) == w.(sessions := w.sessions[id := Session(w.disk, Idle)])
  {
    hide Run;
    OneStep(w, Open(id));
  }

  lemma BeginRuns(w: World, id: nat)
    requires w.lock.Free? && id in w.sessions && w.sessions[id].work.Idle?
    ensures Run(w, [Rewrite(id)]) == Begun(w, id, w.sessions[id].intent)
  {
    hide Run;
    OneStep(w, Rewrite(id));
  }

  /** The rest of a session's write that fails once its bytes are in place: what it read at its start is put back. */
  lemma RollbackRuns(w: World, id: nat)
    requires w.lock.Free? && InWrite(w, id) && w.sessions[id].work.phase.Staged?
    ensures Run(w, RollbackBy(id))
            == w.(disk := w.sessions[id].work.previous, sessions := w.sessions[id := w.sessions[id].(work := Idle)])
  {
    hide Run;
    var w1 := Replaced(w, id, w.sessions[id].work.target, Placed);
    var w2 := Replaced(w1, id, w.sessions[id].work.previous, Restored);
    assert RollbackBy(id) == [Install(id)] + ([Restore(id)] + [Report(id, Failed)]);
    Unroll(w, Install(id), [Restore(id)] + [Report(id, Failed)]);
    Unroll(w1, Restore(id), [Report(id, Failed)]);
    OneStep(w2, Report(id, Failed));
  }

  /** A latch write that takes effect and reports an unknown outcome. */
  lemma LossRuns(w: World, t: nat, id: nat, b: Binding)
    requires w.lock.Free? && w.slot.None? && id in w.sessions && w.sessions[id] == Session(None, Idle)
    ensures Run(w, LossBy(t, id, b)) == w.(disk := Some(b), sessions := w.sessions - {id})
  {
    hide Run;
    var w1 := w.(lock := Held(t, Entered));
    var w2 := Begun(w1, id, Some(b)).(lock := Held(t, Latching(id, b)));
    var w3 := Replaced(w2, id, Some(b), Placed);
    assert LossBy(t, id, b)
        == [Acquire(t)] + ([BeginLatch(t, id, b)] + ([Install(id)] + [Report(id, Unknown)]));
    Unroll(w, Acquire(t), [BeginLatch(t, id, b)] + ([Install(id)] + [Report(id, Unknown)]));
    Unroll(w1, BeginLatch(t, id, b), [Install(id)] + [Report(id, Unknown)]);
    Unroll(w2, Install(id), [Report(id, Unknown)]);
    OneStep(w3, Report(id, Unknown));
  }

  lemma ElsewhereRuns(w: World, id: nat, b: Binding)
    requires w.lock.Free? && id in w.sessions && w.sessions[id] == Session(None, Idle)
    ensures Run(w, ElsewhereBy(id, b)) == w.(disk := Some(b), sessions := w.sessions[id := Session(Some(b), Idle)])
  {
    hide Run;
    var begun := Begun(w, id, Some(b));
    assert Next(w, Elsewhere(id, Some(b))) == begun;
    Unroll(w, Elsewhere(id, Some(b)), [Install(id), Report(id, Done)]);
    assert ElsewhereBy(id, b) == [Elsewhere(id, Some(b))] + [Install(id), Report(id, Done)];
    WriteRuns(begun, id);
    assert begun.sessions[id := Session(Some(b), Idle)] == w.sessions[id := Session(Some(b), Idle)];
  }

  lemma PutRuns(w: World, t: nat)
    requires w.lock.Free? && w.slot.None?
    ensures Run(w, PutBy(t)) == w.(lock := Held(t, Putting))
  {
    hide Run;
    assert PutBy(t) == [Acquire(t)] + [StartPut(t)];
    Unroll(w, Acquire(t), [StartPut(t)]);
    OneStep(Next(w, Acquire(t)), StartPut(t));
  }

  lemma OneStep(w: World, a: Action)
    ensures Run(w, [a]) == Next(w, a)
  {
    hide Next;
    assert [a][1..] == [];
  }

  /** A restart leaves the gate open: a fresh adapter knows nothing of the latch in the file. */
  lemma RestartIsUnguarded(b: Binding)
    ensures var w := Run(Start(Some(b), map[]), PutBy(1)); w.lock == Held(1, Putting) && w.disk == Some(b)
  {
    hide Run;
    PutRuns(Start(Some(b), map[]), 1);
  }

  /** A latch write that is installed but reports an unknown outcome leaves the gate open. */
  lemma UnknownLatchIsUnguarded(b: Binding)
    ensures var w := Run(CLEAN, [Open(1)] + LossBy(1, 1, b) + PutBy(2));
            w.lock == Held(2, Putting) && w.disk == Some(b)
  {
    hide Run, Next;
    var a1 := [Open(1)];
    var a2 := a1 + LossBy(1, 1, b);
    OpenRuns(CLEAN, 1);
    RunConcat(CLEAN, a1, LossBy(1, 1, b));
    LossRuns(Run(CLEAN, a1), 1, 1, b);
    RunConcat(CLEAN, a2, PutBy(2));
    PutRuns(Run(CLEAN, a2), 2);
  }

  /** A latch through another adapter is unknown to this one. */
  lemma OtherAdapterIsUnguarded(b: Binding)
    ensures var w := Run(CLEAN, [Open(1)] + ElsewhereBy(1, b) + PutBy(2));
            w.lock == Held(2, Putting) && w.disk == Some(b)
  {
    hide Run, Next;
    var a1 := [Open(1)];
    var a2 := a1 + ElsewhereBy(1, b);
    OpenRuns(CLEAN, 1);
    RunConcat(CLEAN, a1, ElsewhereBy(1, b));
    ElsewhereRuns(Run(CLEAN, a1), 1, b);
    RunConcat(CLEAN, a2, PutBy(2));
    PutRuns(Run(CLEAN, a2), 2);
  }

  /**
   * A second session, opened while the latch stood, writes it back after the first cleared it; no
   * write was lost and the file carried no latch at start.
   */
  lemma PutBackIsUnguarded(b: Binding)
    ensures var w := Run(CLEAN, [Open(1)] + LatchBy(1, 1, b) + [Open(2)] + ClearBy(1, 1) + RewriteBy(2) + PutBy(3));
            w.lock == Held(3, Putting) && w.disk == Some(b)
  {
    hide Run, Next;
    var a1 := [Open(1)];
    var a2 := a1 + LatchBy(1, 1, b);
    var a3 := a2 + [Open(2)];
    var a4 := a3 + ClearBy(1, 1);
    var a5 := a4 + RewriteBy(2);
    OpenRuns(CLEAN, 1);
    RunConcat(CLEAN, a1, LatchBy(1, 1, b));
    LatchRuns(Run(CLEAN, a1), 1, 1, b);
    RunConcat(CLEAN, a2, [Open(2)]);
    OpenRuns(Run(CLEAN, a2), 2);
    RunConcat(CLEAN, a3, ClearBy(1, 1));
    ClearRuns(Run(CLEAN, a3), 1, 1, b);
    RunConcat(CLEAN, a4, RewriteBy(2));
    RewriteRuns(Run(CLEAN, a4), 2);
    RunConcat(CLEAN, a5, PutBy(3));
    PutRuns(Run(CLEAN, a5), 3);
  }

  /**
   * A second session without a latch reads the latched file before its own write; the first clears
   * the latch, the write fails, and rolling it back puts the latch back.
   */
  lemma RollbackIsUnguarded(b: Binding)
    ensures var w := Run(CLEAN, [Open(1)] + [Open(2)] + LatchBy(1, 1, b) + [Rewrite(2)] + ClearBy(1, 1)
                                + RollbackBy(2) + PutBy(3));
            w.lock == Held(3, Putting) && w.disk == Some(b)
  {
    hide Run, Next;
    var a1 := [Open(1)];
    var a2 := a1 + [Open(2)];
    var a3 := a2 + LatchBy(1, 1, b);
    var a4 := a3 + [Rewrite(2)];
    var a5 := a4 + ClearBy(1, 1);
    var a6 := a5 + RollbackBy(2);
    OpenRuns(CLEAN, 1);
    RunConcat(CLEAN, a1, [Open(2)]);
    OpenRuns(Run(CLEAN, a1), 2);
    RunConcat(CLEAN, a2, LatchBy(1, 1, b));
    LatchRuns(Run(CLEAN, a2), 1, 1, b);
    RunConcat(CLEAN, a3, [Rewrite(2)]);
    BeginRuns(Run(CLEAN, a3), 2);
    RunConcat(CLEAN, a4, ClearBy(1, 1));
    ClearRuns(Run(CLEAN, a4), 1, 1, b);
    RunConcat(CLEAN, a5, RollbackBy(2));
    RollbackRuns(Run(CLEAN, a5), 2);
    RunConcat(CLEAN, a6, PutBy(3));
    PutRuns(Run(CLEAN, a6), 3);
  }
}
