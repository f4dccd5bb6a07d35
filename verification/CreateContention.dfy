/** Any number of processes creating one file: interleaved steps, failed syncs and crashes. */
module CreateContention {
  import opened Prelude

  /** How far a contender is in creating the file. */
  datatype Pc =
    | Staged
    | InLock
    | Moved
    | InstallFailed
    | Matched
    | Removed
    | Succeeded
    | Refused
    | OutcomeUnknown
    | Crashed

  /** Whose bytes are at the path; the contents are that contender's own, moved in one piece. */
  datatype World = World(file: Option<nat>, lock: Option<nat>, pcs: map<nat, Pc>)

  /** The bytes each contender wants to install; two may be the same. */
  type Contents = nat -> Bytes

  datatype Action =
    | Join(id: nat, staged: bool)
    | LookAgain(id: nat)
    | LockInstall(id: nat)
    | Install(id: nat)
    | Verify(id: nat, ok: bool)
    | Compare(id: nat, readable: bool)
    | Delete(id: nat, ok: bool)
    | Finish(id: nat, synced: bool)
    | Crash(id: nat)

  predicate At(w: World, id: nat, pc: Pc)
  {
    id in w.pcs && w.pcs[id] == pc
  }

  function Move(w: World, id: nat, pc: Pc): World
  {
    w.(pcs := w.pcs[id := pc])
  }

  function Next(c: Contents, w: World, a: Action): World
  {
    match a
    case Join(id, staged) => if id in w.pcs then w else Move(w, id, if w.file.Some? || !staged then Refused else Staged)
    case LookAgain(id) => if At(w, id, Staged) && w.file.Some? then Move(w, id, Refused) else w
    case LockInstall(id) => if At(w, id, Staged) && w.lock.None? then Move(w, id, InLock).(lock := Some(id)) else w
    case Install(id) =>
      if !At(w, id, InLock) then w
      else if w.file.Some? then Move(w, id, Refused).(lock := None)
      else Move(w, id, Moved).(file := Some(id))
    case Verify(id, ok) =>
      if At(w, id, Moved) then Move(w, id, if ok then Succeeded else InstallFailed).(lock := None) else w
    case Compare(id, readable) =>
      if !At(w, id, InstallFailed) then w
      else if w.file.None? then Move(w, id, Removed)
      else if readable && c(w.file.value) == c(id) then Move(w, id, Matched)
      else Move(w, id, OutcomeUnknown)
    case Delete(id, ok) =>
      if !At(w, id, Matched) then w else if ok then Move(w, id, Removed).(file := None) else Move(w, id, OutcomeUnknown)
    case Finish(id, synced) =>
      if At(w, id, Removed) then Move(w, id, if synced && w.file.None? then Refused else OutcomeUnknown) else w
    case Crash(id) =>
      if id in w.pcs && !w.pcs[id].Succeeded? then
        Move(w, id, Crashed).(lock := if w.lock == Some(id) then None else w.lock) else w
  }

  function Run(c: Contents, w: World, actions: seq<Action>): World
    decreases |actions|
  {
    if actions == [] then w else Run(c, Next(c, w, actions[0]), actions[1..])
  }

  const EMPTY: World := World(None, None, map[])

  /** The file at the path is this contender's own. */
  predicate Owns(pc: Pc)
  {
    pc.Moved? || pc.InstallFailed? || pc.Matched? || pc.Succeeded?
  }

  ghost predicate Inv(w: World)
  {
    && (forall id | id in w.pcs && Owns(w.pcs[id]) :: w.file == Some(id))
    && (forall id | id in w.pcs && (w.pcs[id].InLock? || w.pcs[id].Moved?) :: w.lock == Some(id))
  }

  lemma NextKeeps(c: Contents, w: World, a: Action)
    requires Inv(w)
    ensures Inv(Next(c, w, a))
  {
  }

  lemma {:induction false} RunKeeps(c: Contents, w: World, actions: seq<Action>)
    requires Inv(w)
    ensures Inv(Run(c, w, actions))
    decreases |actions|
  {
    hide Inv, Next;
    if actions != [] {
      NextKeeps(c, w, actions[0]);
      RunKeeps(c, Next(c, w, actions[0]), actions[1..]);
    }
  }

  /** At most one contender succeeds, and the file is then its own, whole. */
  lemma OneWinner(c: Contents, actions: seq<Action>, i: nat, j: nat)
    requires var w := Run(c, EMPTY, actions); At(w, i, Succeeded) && At(w, j, Succeeded)
    ensures i == j && Run(c, EMPTY, actions).file == Some(i)
  {
    hide Run;
    RunKeeps(c, EMPTY, actions);
  }

  /** Whoever removes a file from the path removes its own. */
  lemma DeletesOnlyOwn(c: Contents, actions: seq<Action>, a: Action)
    requires var w := Run(c, EMPTY, actions); w.file.Some? && Next(c, w, a).file != w.file
    ensures var w := Run(c, EMPTY, actions); a.Delete? && w.file == Some(a.id) && At(w, a.id, Matched)
  {
    hide Run;
    RunKeeps(c, EMPTY, actions);
  }

  lemma WinnerStep(c: Contents, w: World, a: Action, i: nat)
    requires Inv(w) && At(w, i, Succeeded)
    ensures At(Next(c, w, a), i, Succeeded)
  {
  }

  lemma {:induction false} WinnerRuns(c: Contents, w: World, more: seq<Action>, i: nat)
    requires Inv(w) && At(w, i, Succeeded)
    ensures Inv(Run(c, w, more)) && At(Run(c, w, more), i, Succeeded)
    decreases |more|
  {
    hide Next, Inv;
    if more != [] {
      NextKeeps(c, w, more[0]);
      WinnerStep(c, w, more[0], i);
      WinnerRuns(c, Next(c, w, more[0]), more[1..], i);
    }
  }

  /** Once a contender has succeeded, the file stays its own through every later run of the others. */
  lemma WinnerStays(c: Contents, actions: seq<Action>, more: seq<Action>, i: nat)
    requires At(Run(c, EMPTY, actions), i, Succeeded)
    ensures var w := Run(c, Run(c, EMPTY, actions), more); At(w, i, Succeeded) && w.file == Some(i)
  {
    hide Run;
    RunKeeps(c, EMPTY, actions);
    WinnerRuns(c, Run(c, EMPTY, actions), more, i);
  }

  /** What an undisturbed contender does. */
  function Alone(id: nat): seq<Action>
  {
    [Join(id, true), LockInstall(id), Install(id), Verify(id, true)]
  }

  /** Over a free path and lock, a contender that joins and is not disturbed succeeds. */
  lemma LoneCreates(c: Contents, w: World, id: nat)
    requires w.file.None? && w.lock.None? && id !in w.pcs
    ensures Run(c, w, Alone(id)) == World(Some(id), None, w.pcs[id := Succeeded])
  {
    var w1 := Next(c, w, Join(id, true));
    var w2 := Next(c, w1, LockInstall(id));
    var w3 := Next(c, w2, Install(id));
    var w4 := Next(c, w3, Verify(id, true));
    assert w4.pcs == w.pcs[id := Succeeded];
    calc {
      Run(c, w, Alone(id));
      Run(c, w1, [LockInstall(id), Install(id), Verify(id, true)]);
      Run(c, w2, [Install(id), Verify(id, true)]);
      Run(c, w3, [Verify(id, true)]);
      Run(c, w4, []);
    }
  }
}
