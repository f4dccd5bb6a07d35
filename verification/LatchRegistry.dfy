/** The in-process registry of latched rotations, by owner. */
module LatchRegistry {
  import opened Prelude

  datatype Binding = Binding(
    environment: Option<string>,
    owner: Bytes,
    predecessorKey: Bytes,
    successorKey: Bytes,
    predecessorHash: Bytes,
    sequence: nat,
    envelopeHash: Bytes)

  /** What is registered for an owner, and whether its dispatch may still run. */
  datatype Slot = Slot(binding: Binding, ready: bool)

  type Registry = map<Bytes, Slot>

  function Current(r: Registry, owner: Bytes): Option<Slot>
  {
    if owner in r then Some(r[owner]) else None
  }

  /** The same binding again, or one that only adds an environment to an unready one. */
  function Registered(current: Option<Slot>, b: Binding, ready: bool): Option<Slot>
  {
    if current.Some? && current.value.binding != b &&
       (|| ready || current.value.ready || current.value.binding.environment.Some? || b.environment.None?
        || current.value.binding.(environment := b.environment) != b)
    then None
    else Some(Slot(b, ready || (current.Some? && current.value.ready)))
  }

  /** What may be registered over what: anything over nothing, the same again, or an environment added while unready. */
  lemma RegisteredExactly(current: Option<Slot>, b: Binding, ready: bool)
    ensures Registered(current, b, ready).Some? <==>
            (|| current.None? || current.value.binding == b
             || (&& !ready && !current.value.ready && b.environment.Some? && current.value.binding.environment.None?
                 && current.value.binding == b.(environment := None)))
    ensures Registered(current, b, ready).Some? ==>
              && Registered(current, b, ready).value.binding == b
              && (Registered(current, b, ready).value.ready <==> ready || (current.Some? && current.value.ready))
  {
  }

  predicate Clears(current: Option<Slot>, b: Binding)
  {
    current.Some? && current.value.binding == b
  }

  class RotationLatches {
    var bindings: Registry

    constructor ()
      ensures bindings == map[]
    {
      bindings := map[];
    }

    method Register(b: Binding, ready: bool) returns (ok: bool)
      modifies this
      ensures var slot := Registered(Current(old(bindings), b.owner), b, ready);
              ok == slot.Some? && bindings == if ok then old(bindings)[b.owner := slot.value] else old(bindings)
    {
      var current := Current(bindings, b.owner);
      if current.Some? && current.value.binding != b {
        var bound := current.value.binding.(environment := b.environment);
        if ready || current.value.ready || current.value.binding.environment.Some? || b.environment.None?
          || bound != b {
          return false;
        }
      }
      var nowReady := ready || (current.Some? && current.value.ready);
      bindings := bindings[b.owner := Slot(b, nowReady)];
      return true;
    }

    method Clear(b: Binding) returns (ok: bool)
      modifies this
      ensures ok == Clears(Current(old(bindings), b.owner), b)
      ensures bindings == if ok then old(bindings) - {b.owner} else old(bindings)
    {
      if b.owner !in bindings || bindings[b.owner].binding != b { return false; }
      bindings := bindings - {b.owner};
      return true;
    }
  }

  // ------------------------------------------------------------------- runs

  datatype Call = Register(binding: Binding, ready: bool) | Clear(binding: Binding)

  function After(r: Registry, call: Call): Registry
  {
    match call
    case Register(b, ready) =>
      var slot := Registered(Current(r, b.owner), b, ready);
      if slot.Some? then r[b.owner := slot.value] else r
    case Clear(b) => if Clears(Current(r, b.owner), b) then r - {b.owner} else r
  }

  function AfterAll(r: Registry, calls: seq<Call>): Registry
    decreases |calls|
  {
    if calls == [] then r else AfterAll(After(r, calls[0]), calls[1..])
  }

  /** A dispatch-ready binding stays exactly as it is, whatever is called, until it is cleared. */
  lemma {:induction false} ReadyStays(r: Registry, b: Binding, calls: seq<Call>)
    requires Current(r, b.owner) == Some(Slot(b, true)) && forall i | 0 <= i < |calls| :: calls[i] != Clear(b)
    ensures Current(AfterAll(r, calls), b.owner) == Some(Slot(b, true))
    decreases |calls|
  {
    if calls != [] {
      assert calls[0] != Clear(b);
      ReadyStays(After(r, calls[0]), b, calls[1..]);
    }
  }

  /** An owner stays registered until one of its own bindings is cleared. */
  lemma {:induction false} OwnerStays(r: Registry, owner: Bytes, calls: seq<Call>)
    requires owner in r && forall i | 0 <= i < |calls| :: !(calls[i].Clear? && calls[i].binding.owner == owner)
    ensures owner in AfterAll(r, calls)
    decreases |calls|
  {
    if calls != [] {
      assert !(calls[0].Clear? && calls[0].binding.owner == owner);
      OwnerStays(After(r, calls[0]), owner, calls[1..]);
    }
  }
}
