/** The adoption as the procedure it is: it changes the data directory write by write and keeps
    the journal in a variable between writes.
 */
module AdoptionProcedure {
  import opened Common
  import opened StorageTree
  import opened StorageCheck
  import opened Adoption
  import opened AdoptionChain

  /** The data directory, with the number of durable writes the process lives to make. */
  class DataDirectory {
    var tree: Tree
    var writes: nat

    constructor (tree: Tree, writes: nat)
      ensures this.tree == tree && this.writes == writes
    {
      this.tree := tree;
      this.writes := writes;
    }

    /** One durable write, unless the process dies before it. */
    method Commit(next: Tree) returns (alive: bool)
      modifies this
      ensures alive == (old(writes) > 0)
      ensures tree == if alive then next else old(tree)
      ensures writes == if alive then old(writes) - 1 else 0
    {
      alive := writes > 0;
      if alive {
        tree := next;
        writes := writes - 1;
      }
    }

    /** `save_journal`; the journal returned has its step recorded. */
    method Save(journal: Journal) returns (alive: bool, saved: Journal)
      modifies this
      ensures alive == (old(writes) > 0) && saved == Recorded(journal)
      ensures tree == if alive then SaveJournal(old(tree), journal) else old(tree)
      ensures writes == if alive then old(writes) - 1 else 0
    {
      saved := journal;
      if |saved.steps| == 0 || saved.steps[|saved.steps| - 1] != saved.step {
        saved := saved.(steps := saved.steps + [saved.step]);
      }
      alive := Commit(Put(tree, JOURNAL, File(Json(AdoptionJournal(saved)))));
    }

    /** `cleanup_disposable`, then the last journal write. */
    method CleanUp(journal: Journal) returns (outcome: Outcome)
      requires journal.step == HostModeConverted
      modifies this
      ensures Ran(tree, outcome) == Tidy(old(tree), journal, 0, [], old(writes))
    {
      var failed := [];
      for k := 0 to |DISPOSABLE|
        invariant Tidy(tree, journal, k, failed, writes) == Tidy(old(tree), journal, 0, [], old(writes))
      {
        if Removable(tree, DISPOSABLE[k]) {
          var alive := Commit(Remove(tree, [DISPOSABLE[k]]));
          if !alive {
            return Interrupted;
          }
        } else if Lstat(tree, [DISPOSABLE[k]]).Present? {
          failed := failed + [DISPOSABLE[k]];
        }
      }
      var alive, _ := Save(journal.(cleanupFailed := failed, step := Complete));
      outcome := if alive then Finished else Interrupted;
    }

    /** The steps after the vault is confirmed at its place. */
    method Finish(inPlace: bool, prepared: Journal) returns (outcome: Outcome)
      modifies this
      ensures Ran(tree, outcome) == Advance(old(tree), inPlace, prepared, old(writes))
    {
      hide Put, Remove;
      var journal, alive := prepared, true;
      if journal.step == Prepared {
        alive, journal := Save(journal.(step := if inPlace then InPlaceVerified else Renamed));
        if !alive {
          return Interrupted;
        }
      }
      if journal.step == Renamed || journal.step == InPlaceVerified {
        outcome, journal := Convert(journal);
        if outcome != Finished {
          return;
        }
      }
      if journal.step == HostModeConverted {
        outcome := CleanUp(journal);
      } else {
        outcome := Finished;
      }
    }

    /** `convert_host_mode` and the journal write that follows it; `Finished` when both are done. */
    method Convert(journal: Journal) returns (outcome: Outcome, saved: Journal)
      requires journal.step == Renamed || journal.step == InPlaceVerified
      modifies this
      ensures outcome != Finished ==> Ran(tree, outcome) == Settings(old(tree), journal, old(writes))
      ensures outcome == Finished ==>
                saved.step == HostModeConverted && Tidy(tree, saved, 0, [], writes) == Settings(old(tree), journal, old(writes))
    {
      hide Lstat, Put, Remove, Tidy;
      saved := journal;
      var root := Lstat(tree, NEW_ROOT);
      if !root.Present? || ConvertHostMode(root.node).Err? {
        return Refused(StorageUnavailable), saved;
      }
      var (converted, found) := ConvertHostMode(root.node).value;
      var alive := true;
      if converted != root.node {
        alive := Commit(Put(tree, NEW_ROOT, converted));
        if !alive {
          return Interrupted, saved;
        }
      }
      var next := journal.(deviceLabelDropped := found, step := HostModeConverted);
      RecordedTwice(next);
      alive, saved := Save(next);
      outcome := if alive then Finished else Interrupted;
    }

    /** `adopt_with_checkpoints`: the tree and the result are those of a run. */
    method Adopt(dataDir: Path, pepper: bool, luck: Luck) returns (outcome: Outcome)
      modifies this
      ensures Ran(tree, outcome) == Run(dataDir, old(tree), Env(pepper, luck), old(writes))
    {
      hide Lstat, Put, Remove, Admit, LegacyRoot, ReadJournal, Advance;
      var go := Admit(dataDir, tree, luck);
      if go.Stop? {
        return go.outcome;
      }
      if go.inPlace {
        var verified := VerifyTarget();
        if !verified {
          return Refused(StorageUnavailable);
        }
        if !pepper {
          return Refused(PepperUnavailable);
        }
      }
      var journal := NewJournal(go.source);
      var alive := true;
      RecordedTwice(journal);
      if go.journal.Some? {
        journal := go.journal.value;
      } else {
        alive, journal := Save(journal);
        if !alive {
          return Interrupted;
        }
      }
      if go.sourceHas && !go.inPlace {
        if !IsDir(Lstat(tree, FILES)) {
          return Refused(StorageUnavailable);
        }
        alive := Commit(Moved(tree, go.source));
        if !alive {
          return Interrupted;
        }
      }
      if !go.inPlace {
        var verified := VerifyTarget();
        if !verified {
          return Refused(StorageUnavailable);
        }
        if !pepper {
          return Refused(PepperUnavailable);
        }
      }
      outcome := Finish(go.inPlace, journal);
    }

    method VerifyTarget() returns (ok: bool)
      ensures ok == TargetVerified(tree)
    {
      var root := Lstat(tree, NEW_ROOT);
      if root.Present? {
        ok := VerifyStorage(root.node);
      } else {
        ok := false;
      }
    }
  }
}
