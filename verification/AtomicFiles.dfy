/** Compare-and-replace of one file in place, with rollback; every I/O failure is an input. */
module AtomicFiles {
  import opened Prelude

  /** Whether staging a temporary file works, fails cleanly, or leaves the temporary behind. */
  datatype Staging = Staged | NotStaged | LeftBehind

  /** Which of the file operations fail, in the order they are tried. */
  datatype Faults = Faults(
    read: bool,
    stage: Staging,
    move: bool,
    cleanup: bool,
    sync: bool,
    readBack: bool,
    restoreStage: Staging,
    restoreMove: bool,
    restoreSync: bool,
    restoreReadBack: bool)

  /** Rejected: too large or not the expected original. Failed: an ordinary storage failure. */
  datatype Outcome = Replaced | Rejected | Failed | Unknown

  predicate NoFault(f: Faults)
  {
    !f.read && f.stage.Staged? && !f.move && !f.sync && !f.readBack
  }

  /** Nothing stops the original from being put back and seen in place. */
  predicate Restorable(f: Faults)
  {
    f.restoreStage.Staged? && !f.restoreMove && !f.restoreSync && !f.restoreReadBack
  }

  /** A fault after which it is not known what is in place, or what is left beside it. */
  predicate Obscures(f: Faults)
  {
    || f.stage.LeftBehind?
    || (f.stage.Staged? && f.move && f.cleanup)
    || (f.stage.Staged? && !f.move && (f.sync || f.readBack) && !Restorable(f))
  }

  /**
   * What an outcome says about the file: replaced means the new bytes are there; rejected or
   * failed means nothing changed; unknown means the original or the new bytes, and nothing
   * else. Only a file that held the expected original ever changes.
   */
  predicate Permits<B(==)>(r: Outcome, before: Option<B>, after: Option<B>, expected: B, bytes: B)
  {
    match r
    case Replaced => before == Some(expected) && after == Some(bytes)
    case Rejected => after == before
    case Failed => after == before
    case Unknown => before == Some(expected) && (after == Some(expected) || after == Some(bytes))
  }

  class WalletFile<B(==)> {
    /** None when there is no regular file at the path. */
    var contents: Option<B>
    const fits: B -> bool

    constructor (contents: Option<B>, fits: B -> bool)
      ensures this.contents == contents && this.fits == fits
    {
      this.contents := contents;
      this.fits := fits;
    }

    /** The whole replacement, under the lock of the path. */
    method Replace(bytes: B, expected: B, faults: Faults) returns (r: Outcome)
      modifies this
      ensures Permits(r, old(contents), contents, expected, bytes)
      ensures r.Replaced? <==> fits(bytes) && old(contents) == Some(expected) && NoFault(faults)
      ensures r.Rejected? <==>
                !fits(bytes) || (!faults.read && old(contents).Some? && old(contents) != Some(expected))
      ensures r.Unknown? <==> fits(bytes) && !faults.read && old(contents) == Some(expected) && Obscures(faults)
    {
      if !fits(bytes) { return Rejected; }
      if faults.read || contents.None? { return Failed; }
      if contents.value != expected { return Rejected; }
      if !faults.stage.Staged? { return if faults.stage.LeftBehind? then Unknown else Failed; }
      if faults.move { return if faults.cleanup then Unknown else Failed; }
      contents := Some(bytes);
      if faults.sync || faults.readBack {
        var restored := Restore(expected, faults);
        return if restored then Failed else Unknown;
      }
      return Replaced;
    }

    /** Puts the original back; true only when it is seen in place again. */
    method Restore(original: B, faults: Faults) returns (restored: bool)
      modifies this
      ensures restored <==> Restorable(faults)
      ensures contents == if faults.restoreStage.Staged? && !faults.restoreMove then Some(original) else old(contents)
    {
      if !faults.restoreStage.Staged? || faults.restoreMove { return false; }
      contents := Some(original);
      if faults.restoreSync || faults.restoreReadBack { return false; }
      return contents == Some(original);
    }
  }

  /** What the Python writer is told to expect from the file system; None means no file. */
  datatype WriteFaults = WriteFaults(
    read: bool,
    stage: bool,
    sync: bool,
    stat: bool,
    restore: bool,
    readAfter: bool,
    resync: bool,
    readLast: bool)

  /** The previous file can be put back and is seen, twice, to be there. */
  predicate Recoverable(f: WriteFaults)
  {
    !f.stat && !f.readAfter && !f.resync && !f.readLast
  }

  class PlainFile<B(==)> {
    var contents: Option<B>

    constructor (contents: Option<B>)
      ensures this.contents == contents
    {
      this.contents := contents;
    }

    /** Replaces whatever is there, or creates the file. */
    method AtomicWrite(data: B, faults: WriteFaults) returns (r: Outcome)
      modifies this
      ensures !r.Rejected?
      ensures r.Replaced? ==> contents == Some(data)
      ensures r.Failed? ==> contents == old(contents)
      ensures r.Unknown? ==> contents == old(contents) || contents == Some(data)
      ensures r.Replaced? <==> !(faults.read && old(contents).Some?) && !faults.stage && !faults.sync
      ensures r.Unknown? <==>
                && !(faults.read && old(contents).Some?) && !faults.stage && faults.sync
                && !(Recoverable(faults) && (!faults.restore || old(contents) == Some(data)))
    {
      var previous: Option<B> := None;
      if contents.Some? {
        if faults.read { return Failed; }
        previous := contents;
      }
      if faults.stage { return Failed; }
      contents := Some(data);
      if !faults.sync { return Replaced; }
      var restored := RestorePrevious(previous, faults);
      return if restored then Failed else Unknown;
    }

    /** After a failed sync: put the previous file back, or remove the new one. */
    method RestorePrevious(previous: Option<B>, faults: WriteFaults) returns (restored: bool)
      modifies this
      ensures restored <==> Recoverable(faults) && (!faults.restore || old(contents) == previous)
      ensures contents == if !faults.stat && !faults.restore then previous else old(contents)
    {
      if faults.stat { return false; }
      if !faults.restore { contents := previous; }
      if faults.readAfter || contents != previous { return false; }
      if faults.resync || faults.readLast { return false; }
      return contents == previous;
    }
  }
}
