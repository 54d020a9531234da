/** A run keeps its decisions in memory from one write to the next. Here it is shown to do the
    same as a process that forgets everything after each write and starts over from the tree:
    every durable state is followed by one next write, and a run follows that chain.
 */
module AdoptionChain {
  import opened Common
  import opened StorageTree
  import opened StorageCheck
  import opened Adoption

  // ---- The chain ------------------------------------------------------------------------

  datatype Action = Halt(outcome: Outcome) | Write(tree: Tree)

  /** The first disposable directory from the `k`-th on that is still there. */
  function FirstRemovable(t: Tree, k: nat): (i: nat)
    requires k <= |DISPOSABLE|
    ensures k <= i <= |DISPOSABLE|
    ensures i < |DISPOSABLE| ==> Removable(t, DISPOSABLE[i])
    ensures forall h :: k <= h < i ==> !Removable(t, DISPOSABLE[h])
    decreases |DISPOSABLE| - k
  {
    if k == |DISPOSABLE| || Removable(t, DISPOSABLE[k]) then k else FirstRemovable(t, k + 1)
  }

  /** The names before the `k`-th whose cleanup fails. */
  function FailedBefore(t: Tree, k: nat): seq<string>
    requires k <= |DISPOSABLE|
  {
    if k == 0 then []
    else FailedBefore(t, k - 1) + if CleanupFails(t, DISPOSABLE[k - 1]) then [DISPOSABLE[k - 1]] else []
  }

  function NextAfterMove(t: Tree, inPlace: bool, j: Journal): Action {
    match j.step
    case Prepared => Write(SaveJournal(t, j.(step := if inPlace then InPlaceVerified else Renamed)))
    case HostModeConverted =>
      var i := FirstRemovable(t, 0);
      if i < |DISPOSABLE| then Write(Remove(t, [DISPOSABLE[i]]))
      else Write(SaveJournal(t, j.(cleanupFailed := FailedBefore(t, |DISPOSABLE|), step := Complete)))
    case Complete => Halt(Finished)
    case _ =>
      if !Lstat(t, NEW_ROOT).Present? then Halt(Refused(StorageUnavailable))
      else
        var root := Lstat(t, NEW_ROOT).node;
        match ConvertHostMode(root)
        case Err(error) => Halt(Refused(error))
        case Ok((converted, found)) =>
          if converted != root then Write(Put(t, NEW_ROOT, converted))
          else Write(SaveJournal(t, j.(deviceLabelDropped := found, step := HostModeConverted)))
  }

  /** The next durable write from a tree, with a pepper and a lucky listing order. */
  ghost function Next(dataDir: Path, t: Tree): Action {
    match Admit(dataDir, t, LUCKY)
    case Stop(outcome) => Halt(outcome)
    case Go(source, inPlace, sourceHas, journal) =>
      if inPlace && !TargetVerified(t) then Halt(Refused(StorageUnavailable))
      else if journal == None then Write(SaveJournal(t, NewJournal(source)))
      else if sourceHas && !inPlace then
        if IsDir(Lstat(t, FILES)) then Write(Moved(t, source)) else Halt(Refused(StorageUnavailable))
      else if !TargetVerified(t) then Halt(Refused(StorageUnavailable))
      else NextAfterMove(t, inPlace, journal.value)
  }

  ghost function Follow(dataDir: Path, t: Tree, writes: nat): Ran
    decreases writes
  {
    match Next(dataDir, t)
    case Halt(outcome) => Ran(t, outcome)
    case Write(next) => if writes == 0 then Ran(t, Interrupted) else Follow(dataDir, next, writes - 1)
  }

  /** What holds between the writes of an adoption: a journal names the configured root, and
      once past its first step the vault is no longer at the source. */
  ghost predicate Sound(dataDir: Path, t: Tree) {
    match Admit(dataDir, t, LUCKY)
    case Stop(_) => true
    case Go(source, inPlace, sourceHas, journal) =>
      journal.Some? ==>
        LegacyRoot(dataDir, t) == Ok(source) && (sourceHas && !inPlace ==> journal.value.step == Prepared)
  }

  /** Bad luck with a listing can only refuse. */
  lemma LuckOnlyRefuses(dataDir: Path, t: Tree, luck: Luck)
    ensures Admit(dataDir, t, luck) == Admit(dataDir, t, LUCKY) || Admit(dataDir, t, luck) == Stop(Refused(StorageUnavailable))
  {
    if LegacyRoot(dataDir, t).Ok? && ReadJournal(t).Ok? {
      var configured, journal := LegacyRoot(dataDir, t).value, ReadJournal(t).value;
      LuckOnlyFailsAtRoot(Lstat(t, configured));
      LuckOnlyFailsAtRoot(Lstat(t, if journal.Some? then journal.value.sourceRoot else configured));
      LuckOnlyFailsAtRoot(Lstat(t, NEW_ROOT));
    }
  }

  // ---- What admission establishes -------------------------------------------------------

  /** A path that keeps clear of the journal and the configuration file. */
  predicate Apart(p: Path) {
    p != [] && p[0] != JOURNAL[0] && p[0] != CONFIG[0]
  }

  /** An admitted source is a proper vault location. */
  ghost predicate Located(dataDir: Path, t: Tree, source: Path) {
    && t.Dir? && Clear(t, NEW_ROOT) && Clear(t, source) && Apart(source)
    && LegacyRoot(dataDir, t) == Ok(source)
    && (source == NEW_ROOT || Unrelated(source, NEW_ROOT))
  }

  lemma SourceApart(dataDir: Path, t: Tree)
    requires Sound(dataDir, t) && Admit(dataDir, t, LUCKY).Go?
    ensures Located(dataDir, t, Admit(dataDir, t, LUCKY).source)
  {
    var source := Admit(dataDir, t, LUCKY).source;
    assert CheckedSource(t, source) == Ok(source);
    if source[0] == JOURNAL[0] {
      ApartFrom(t, source, JOURNAL[0]);
    } else if source[0] == CONFIG[0] {
      ApartFrom(t, source, CONFIG[0]);
    }
    assert [JOURNAL[0]] == JOURNAL && [CONFIG[0]] == CONFIG;
  }

  /** A source at or below a name is only admitted when the name is a directory. */
  lemma ApartFrom(t: Tree, source: Path, name: string)
    requires t.Dir? && source != [] && Clear(t, source) && source[0] == name
    ensures Lstat(t, [name]) == Missing ==> Lstat(t, source) == Missing
    ensures Lstat(t, [name]).Present? && Lstat(t, [name]).node.File? ==>
              source == [name] && ContainsStorage(Lstat(t, source), false) == Fails
  {
    assert [name][1..] == [];
    assert Lstat(t, [name]) == if name in t.entries then Present(t.entries[name]) else Missing;
    assert |source| == 1 ==> source == [name];
    assert Lstat(t, source) == if name in t.entries then Lstat(t.entries[name], source[1..]) else Missing;
    assert name in t.entries ==> Clear(t.entries[name], source[1..]);
  }

  // ---- What each write leaves alone -----------------------------------------------------

  /** `u` looks like `t` at and around `q`. */
  ghost predicate SameAt(t: Tree, u: Tree, q: Path) {
    Lstat(u, q) == Lstat(t, q) && Clear(u, q) == Clear(t, q)
  }

  lemma SavedElsewhere(t: Tree, j: Journal, q: Path)
    requires q != [] && q[0] != JOURNAL[0]
    ensures SameAt(t, SaveJournal(t, j), q)
  {
    PutElsewhere(t, JOURNAL, File(Json(AdoptionJournal(Recorded(j)))), q);
  }

  lemma SavedHere(t: Tree, j: Journal)
    requires t.Dir?
    ensures SaveJournal(t, j).Dir?
    ensures Lstat(SaveJournal(t, j), JOURNAL) == Present(File(Json(AdoptionJournal(Recorded(j)))))
  {
    assert JOURNAL[..0] == [];
    LstatAfterPut(t, JOURNAL, File(Json(AdoptionJournal(Recorded(j)))));
  }

  /** The configured root survives as long as the configuration does and the root stays clear. */
  lemma SameLegacyRoot(dataDir: Path, t: Tree, u: Tree, source: Path)
    requires LegacyRoot(dataDir, t) == Ok(source)
    requires Lstat(u, CONFIG) == Lstat(t, CONFIG) && Clear(u, source)
    ensures LegacyRoot(dataDir, u) == Ok(source)
  {
  }

  lemma LocatedAfter(dataDir: Path, t: Tree, u: Tree, source: Path)
    requires Located(dataDir, t, source)
    requires u.Dir? && Lstat(u, CONFIG) == Lstat(t, CONFIG) && Clear(u, source) && Clear(u, NEW_ROOT)
    ensures Located(dataDir, u, source)
  {
    SameLegacyRoot(dataDir, t, u, source);
  }

  lemma MovedWhere(t: Tree, source: Path)
    requires t.Dir? && Clear(t, NEW_ROOT) && Clear(t, source) && Unrelated(source, NEW_ROOT)
    requires IsDir(Lstat(t, source)) && IsDir(Lstat(t, FILES))
    ensures var u := Moved(t, source);
            && u.Dir? && Clear(u, NEW_ROOT) && Clear(u, source)
            && Lstat(u, NEW_ROOT) == Lstat(t, source) && Lstat(u, source) == Missing
  {
    var cut, vault := Remove(t, source), Lstat(t, source).node;
    assert NEW_ROOT[..1] == FILES;
    FilesStay(t, source);
    RemoveElsewhere(t, source, NEW_ROOT);
    LstatAfterPut(cut, NEW_ROOT, vault);
    PutHere(cut, NEW_ROOT, vault);
    ParentIsDir(t, source);
    RemoveHere(t, source, source);
    PutElsewhere(cut, NEW_ROOT, vault, source);
  }

  lemma FilesStay(t: Tree, source: Path)
    requires Unrelated(source, NEW_ROOT)
    ensures source != [] && IsDir(Lstat(Remove(t, source), FILES)) == IsDir(Lstat(t, FILES))
  {
    assert FILES <= NEW_ROOT;
    if FILES <= source {
      DirAbove(t, source, FILES, Link);
    } else {
      assert !(source <= FILES);
      RemoveElsewhere(t, source, FILES);
    }
  }

  lemma MovedElsewhere(t: Tree, source: Path, q: Path)
    requires source != [] && Unrelated(source, q) && Unrelated(NEW_ROOT, q)
    ensures SameAt(t, Moved(t, source), q)
  {
    if Lstat(t, source).Present? {
      RemoveElsewhere(t, source, q);
      PutElsewhere(Remove(t, source), NEW_ROOT, Lstat(t, source).node, q);
    }
  }

  lemma ConvertedWhere(t: Tree, root: Tree)
    requires t.Dir? && Clear(t, NEW_ROOT) && Lstat(t, NEW_ROOT).Present? && root.Dir?
    ensures var u := Put(t, NEW_ROOT, root);
            u.Dir? && Clear(u, NEW_ROOT) && Lstat(u, NEW_ROOT) == Present(root)
  {
    ParentIsDir(t, NEW_ROOT);
    LstatAfterPut(t, NEW_ROOT, root);
    PutHere(t, NEW_ROOT, root);
  }

  lemma RemovedElsewhere(t: Tree, name: string, q: Path)
    requires t.Dir? && q != []
    ensures Remove(t, [name]).Dir?
    ensures q[0] != name ==> SameAt(t, Remove(t, [name]), q)
    ensures q[0] == name ==> Lstat(Remove(t, [name]), q) == Missing && Clear(Remove(t, [name]), q)
  {
    if q[0] != name {
      RemoveElsewhere(t, [name], q);
    }
  }

  // ---- Admission after each write -------------------------------------------------------

  /** Admission of a journaled adoption comes down to the two probes. */
  lemma AdmitJournaled(dataDir: Path, t: Tree, source: Path, j: Journal)
    requires Located(dataDir, t, source) && ReadJournal(t) == Ok(Some(j)) && j.sourceRoot == source
    ensures var sourceHas, targetHas := ContainsStorage(Lstat(t, source), false), ContainsStorage(Lstat(t, NEW_ROOT), false);
            sourceHas != Fails && targetHas != Fails ==>
              Admit(dataDir, t, LUCKY) == AdmitVault(t, source, sourceHas == Holds, targetHas == Holds, Some(j))
  {
    assert CheckedChild(t, NEW_ROOT).Ok?;
  }

  /** What a go-ahead says about the two roots. */
  lemma GoProbes(dataDir: Path, t: Tree)
    requires Sound(dataDir, t) && Admit(dataDir, t, LUCKY).Go?
    ensures var go := Admit(dataDir, t, LUCKY);
            && ContainsStorage(Lstat(t, go.source), false) == (if go.sourceHas then Holds else Lacks)
            && ContainsStorage(Lstat(t, NEW_ROOT), false) == (if go.sourceHas && !go.inPlace then Lacks else Holds)
            && go.inPlace == (go.source == NEW_ROOT)
            && (go.sourceHas && !go.inPlace ==> EmptyOrMissing(Lstat(t, NEW_ROOT)))
            && (go.journal == None ==> go.sourceHas && ReadJournal(t) == Ok(None))
            && (go.journal.Some? ==>
                  && ReadJournal(t) == Ok(Some(go.journal.value)) && go.journal.value.sourceRoot == go.source
                  && go.journal.value.version == 1 && go.journal.value.targetRoot == NEW_ROOT
                  && (go.journal.value.step == Complete ==> go.sourceHas && !go.inPlace))
  {
  }

  /** Writing a journal for the located source makes it the journal that is read. */
  lemma SavedIsRead(dataDir: Path, t: Tree, source: Path, j: Journal)
    requires Located(dataDir, t, source)
    requires j.version == 1 && j.sourceRoot == source && j.targetRoot == NEW_ROOT
    ensures var u := SaveJournal(t, j);
            && Located(dataDir, u, source) && ReadJournal(u) == Ok(Some(Recorded(j)))
            && SameAt(t, u, source) && SameAt(t, u, NEW_ROOT) && SameAt(t, u, FILES)
  {
    var u := SaveJournal(t, j);
    SavedHere(t, j);
    SavedElsewhere(t, j, source);
    SavedElsewhere(t, j, NEW_ROOT);
    SavedElsewhere(t, j, FILES);
    SavedElsewhere(t, j, CONFIG);
    LocatedAfter(dataDir, t, u, source);
    assert CheckedSource(t, source) == Ok(source);
  }

  lemma AdmitAfterSave(dataDir: Path, t: Tree, j: Journal)
    requires Sound(dataDir, t) && Admit(dataDir, t, LUCKY).Go?
    requires j.version == 1 && j.sourceRoot == Admit(dataDir, t, LUCKY).source && j.targetRoot == NEW_ROOT
    requires Admit(dataDir, t, LUCKY).journal == None ==> j.step == Prepared
    requires Admit(dataDir, t, LUCKY).journal.Some? && j.step == Complete ==>
               Admit(dataDir, t, LUCKY).inPlace || !Admit(dataDir, t, LUCKY).sourceHas
    ensures Admit(dataDir, SaveJournal(t, j), LUCKY) ==
            if j.step == Complete then Stop(Finished) else Admit(dataDir, t, LUCKY).(journal := Some(Recorded(j)))
    ensures SameAt(t, SaveJournal(t, j), NEW_ROOT) && SameAt(t, SaveJournal(t, j), FILES)
    ensures LegacyRoot(dataDir, SaveJournal(t, j)) == Ok(Admit(dataDir, t, LUCKY).source)
  {
    var go, u := Admit(dataDir, t, LUCKY), SaveJournal(t, j);
    SourceApart(dataDir, t);
    GoProbes(dataDir, t);
    SavedIsRead(dataDir, t, go.source, j);
    AdmitJournaled(dataDir, u, go.source, Recorded(j));
  }

  lemma AdmitAfterMove(dataDir: Path, t: Tree)
    requires Sound(dataDir, t) && Admit(dataDir, t, LUCKY).Go?
    requires var go := Admit(dataDir, t, LUCKY); go.journal.Some? && go.sourceHas && !go.inPlace
    requires IsDir(Lstat(t, FILES))
    ensures var go, u := Admit(dataDir, t, LUCKY), Moved(t, Admit(dataDir, t, LUCKY).source);
            && Admit(dataDir, u, LUCKY) == go.(sourceHas := false)
            && LegacyRoot(dataDir, u) == Ok(go.source)
            && Lstat(u, NEW_ROOT) == Lstat(t, go.source)
  {
    var go, u := Admit(dataDir, t, LUCKY), Moved(t, Admit(dataDir, t, LUCKY).source);
    SourceApart(dataDir, t);
    GoProbes(dataDir, t);
    MovedWhere(t, go.source);
    MovedElsewhere(t, go.source, CONFIG);
    MovedElsewhere(t, go.source, JOURNAL);
    LocatedAfter(dataDir, t, u, go.source);
    assert ReadJournal(u) == Ok(Some(go.journal.value));
    AdmitJournaled(dataDir, u, go.source, go.journal.value);
  }

  /** A change inside the target root, or to what is not storage, that both probes overlook. */
  lemma AdmitAfterTouch(dataDir: Path, t: Tree, u: Tree)
    requires Sound(dataDir, t) && Admit(dataDir, t, LUCKY).Go?
    requires var go := Admit(dataDir, t, LUCKY); go.journal.Some? && (go.inPlace || !go.sourceHas)
    requires u.Dir? && SameAt(t, u, CONFIG) && SameAt(t, u, JOURNAL)
    requires Clear(u, NEW_ROOT) && Clear(u, Admit(dataDir, t, LUCKY).source)
    requires ContainsStorage(Lstat(u, NEW_ROOT), false) == Holds
    requires Admit(dataDir, t, LUCKY).inPlace || ContainsStorage(Lstat(u, Admit(dataDir, t, LUCKY).source), false) == Lacks
    ensures Admit(dataDir, u, LUCKY) == Admit(dataDir, t, LUCKY)
    ensures LegacyRoot(dataDir, u) == Ok(Admit(dataDir, t, LUCKY).source)
  {
    var go := Admit(dataDir, t, LUCKY);
    SourceApart(dataDir, t);
    GoProbes(dataDir, t);
    LocatedAfter(dataDir, t, u, go.source);
    assert ReadJournal(u) == Ok(Some(go.journal.value));
    AdmitJournaled(dataDir, u, go.source, go.journal.value);
  }

  // ---- A run follows the chain ----------------------------------------------------------

  /** Past the move, with the vault in place and verified. */
  ghost predicate Placed(dataDir: Path, t: Tree, j: Journal) {
    && Sound(dataDir, t) && TargetVerified(t)
    && var go := Admit(dataDir, t, LUCKY);
       go.Go? && go.journal == Some(j) && (go.inPlace || !go.sourceHas)
  }

  lemma PlacedAfterSave(dataDir: Path, t: Tree, j: Journal, next: Journal)
    requires Placed(dataDir, t, j)
    requires next.version == 1 && next.sourceRoot == j.sourceRoot && next.targetRoot == NEW_ROOT
    ensures next.step != Complete ==>
              && Placed(dataDir, SaveJournal(t, next), Recorded(next))
              && Admit(dataDir, SaveJournal(t, next), LUCKY).inPlace == Admit(dataDir, t, LUCKY).inPlace
    ensures next.step == Complete ==> Admit(dataDir, SaveJournal(t, next), LUCKY) == Stop(Finished)
  {
    GoProbes(dataDir, t);
    AdmitAfterSave(dataDir, t, next);
  }

  lemma PlacedAfterRemove(dataDir: Path, t: Tree, j: Journal, i: nat)
    requires Placed(dataDir, t, j) && i < |DISPOSABLE|
    ensures Placed(dataDir, Remove(t, [DISPOSABLE[i]]), j)
    ensures Admit(dataDir, Remove(t, [DISPOSABLE[i]]), LUCKY) == Admit(dataDir, t, LUCKY)
  {
    var go, name := Admit(dataDir, t, LUCKY), DISPOSABLE[i];
    SourceApart(dataDir, t);
    GoProbes(dataDir, t);
    RemovedElsewhere(t, name, CONFIG);
    RemovedElsewhere(t, name, JOURNAL);
    RemovedElsewhere(t, name, NEW_ROOT);
    RemovedElsewhere(t, name, go.source);
    AdmitAfterTouch(dataDir, t, Remove(t, [name]));
  }

  lemma ConvertedRoot(root: Tree)
    requires ConvertHostMode(root).Ok? && Verified(root)
    ensures var (converted, found) := ConvertHostMode(root).value;
            && Verified(converted) && converted.Dir?
            && ContainsStorage(Present(converted), false) == ContainsStorage(Present(root), false)
            && ConvertHostMode(converted) == Ok((converted, found))
  {
    var (converted, found) := ConvertHostMode(root).value;
    if converted != root {
      OtherEntries(root.entries, IOS_HOST, converted.entries[IOS_HOST], false);
    }
  }

  lemma PlacedAfterConvert(dataDir: Path, t: Tree, j: Journal)
    requires Placed(dataDir, t, j) && ConvertHostMode(Lstat(t, NEW_ROOT).node).Ok?
    ensures var converted := ConvertHostMode(Lstat(t, NEW_ROOT).node).value.0;
            && Placed(dataDir, Put(t, NEW_ROOT, converted), j)
            && Lstat(Put(t, NEW_ROOT, converted), NEW_ROOT) == Present(converted)
            && Admit(dataDir, Put(t, NEW_ROOT, converted), LUCKY) == Admit(dataDir, t, LUCKY)
  {
    var go, root := Admit(dataDir, t, LUCKY), Lstat(t, NEW_ROOT).node;
    var converted := ConvertHostMode(root).value.0;
    SourceApart(dataDir, t);
    GoProbes(dataDir, t);
    ConvertedRoot(root);
    ConvertedWhere(t, converted);
    PutElsewhere(t, NEW_ROOT, converted, CONFIG);
    PutElsewhere(t, NEW_ROOT, converted, JOURNAL);
    if !go.inPlace {
      PutElsewhere(t, NEW_ROOT, converted, go.source);
    }
    AdmitAfterTouch(dataDir, t, Put(t, NEW_ROOT, converted));
  }

  lemma {:induction false} FailedBeforeSame(t: Tree, u: Tree, k: nat)
    requires k <= |DISPOSABLE|
    requires forall h :: 0 <= h < k ==> Lstat(u, [DISPOSABLE[h]]) == Lstat(t, [DISPOSABLE[h]])
    ensures FailedBefore(u, k) == FailedBefore(t, k)
  {
    if k > 0 {
      FailedBeforeSame(t, u, k - 1);
    }
  }

  lemma NextWhenPlaced(dataDir: Path, t: Tree, j: Journal)
    requires Placed(dataDir, t, j)
    ensures t.Dir? && j.version == 1 && j.targetRoot == NEW_ROOT
    ensures Next(dataDir, t) == NextAfterMove(t, Admit(dataDir, t, LUCKY).inPlace, j)
  {
    GoProbes(dataDir, t);
  }

  lemma TidyEnds(dataDir: Path, t: Tree, j: Journal, writes: nat)
    requires Placed(dataDir, t, j) && j.step == HostModeConverted && FirstRemovable(t, 0) == |DISPOSABLE|
    ensures Tidy(t, j, |DISPOSABLE|, FailedBefore(t, |DISPOSABLE|), writes) == Follow(dataDir, t, writes)
  {
    hide Admit, TargetVerified, Lstat, Put, Remove, LegacyRoot;
    NextWhenPlaced(dataDir, t, j);
    var last := j.(cleanupFailed := FailedBefore(t, |DISPOSABLE|), step := Complete);
    PlacedAfterSave(dataDir, t, j, last);
    assert Next(dataDir, t) == Write(SaveJournal(t, last));
    assert writes > 0 ==> Follow(dataDir, SaveJournal(t, last), writes - 1) == Ran(SaveJournal(t, last), Finished);
  }

  lemma {:induction false} TidyFollows(dataDir: Path, t: Tree, j: Journal, k: nat, failed: seq<string>, writes: nat)
    requires Placed(dataDir, t, j) && j.step == HostModeConverted
    requires k <= |DISPOSABLE| && k <= FirstRemovable(t, 0) && failed == FailedBefore(t, k)
    ensures Tidy(t, j, k, failed, writes) == Follow(dataDir, t, writes)
    decreases |DISPOSABLE| - k
  {
    hide Admit, TargetVerified, Lstat, Put, Remove, LegacyRoot;
    if k == |DISPOSABLE| {
      TidyEnds(dataDir, t, j, writes);
    } else if Removable(t, DISPOSABLE[k]) {
      TidyRemoves(dataDir, t, j, k);
      if writes > 0 {
        TidyFollows(dataDir, Remove(t, [DISPOSABLE[k]]), j, k + 1, failed, writes - 1);
      }
    } else {
      assert FirstRemovable(t, 0) >= k + 1;
      var more := if CleanupFails(t, DISPOSABLE[k]) then failed + [DISPOSABLE[k]] else failed;
      TidyFollows(dataDir, t, j, k + 1, more, writes);
    }
  }

  lemma TidyRemoves(dataDir: Path, t: Tree, j: Journal, k: nat)
    requires Placed(dataDir, t, j) && j.step == HostModeConverted
    requires k < |DISPOSABLE| && k <= FirstRemovable(t, 0) && Removable(t, DISPOSABLE[k])
    ensures var u := Remove(t, [DISPOSABLE[k]]);
            && Next(dataDir, t) == Write(u) && Placed(dataDir, u, j)
            && k + 1 <= FirstRemovable(u, 0) && FailedBefore(u, k + 1) == FailedBefore(t, k)
  {
    NextWhenPlaced(dataDir, t, j);
    PlacedAfterRemove(dataDir, t, j, k);
    assert FirstRemovable(t, 0) == k;
    RemovedDisposable(t, k);
  }

  lemma RemovedDisposable(t: Tree, k: nat)
    requires t.Dir? && k < |DISPOSABLE| && FirstRemovable(t, 0) == k
    ensures var u := Remove(t, [DISPOSABLE[k]]);
            FirstRemovable(u, 0) >= k + 1 && FailedBefore(u, k + 1) == FailedBefore(t, k)
  {
    var u := Remove(t, [DISPOSABLE[k]]);
    forall h | 0 <= h < |DISPOSABLE|
      ensures Lstat(u, [DISPOSABLE[h]]) == if h == k then Missing else Lstat(t, [DISPOSABLE[h]])
    {
      RemovedElsewhere(t, DISPOSABLE[k], [DISPOSABLE[h]]);
    }
    FailedBeforeSame(t, u, k);
    var i := FirstRemovable(u, 0);
    assert i < |DISPOSABLE| ==> Removable(u, DISPOSABLE[i]);
  }

  lemma RecordedTwice(j: Journal)
    ensures Recorded(Recorded(j)) == Recorded(j)
    ensures forall t :: SaveJournal(t, Recorded(j)) == SaveJournal(t, j)
  {
  }

  lemma SettingsFollow(dataDir: Path, t: Tree, j: Journal, writes: nat)
    requires Placed(dataDir, t, j) && (j.step == Renamed || j.step == InPlaceVerified)
    ensures Settings(t, j, writes) == Follow(dataDir, t, writes)
  {
    hide Admit, Put, Remove, LegacyRoot;
    GoProbes(dataDir, t);
    var root := Lstat(t, NEW_ROOT).node;
    if ConvertHostMode(root).Ok? {
      var (converted, found) := ConvertHostMode(root).value;
      var next := j.(deviceLabelDropped := found, step := HostModeConverted);
      RecordedTwice(next);
      if converted == root {
        SavedSettingsFollow(dataDir, t, j, next, writes);
      } else {
        var u := Put(t, NEW_ROOT, converted);
        PlacedAfterConvert(dataDir, t, j);
        ConvertedRoot(root);
        assert Next(dataDir, t) == Write(u);
        assert Next(dataDir, u) == Write(SaveJournal(u, next));
        if writes > 0 {
          SavedSettingsFollow(dataDir, u, j, next, writes - 1);
        }
      }
    }
  }

  lemma SavedSettingsFollow(dataDir: Path, t: Tree, j: Journal, next: Journal, writes: nat)
    requires Placed(dataDir, t, j) && Next(dataDir, t) == Write(SaveJournal(t, next))
    requires next.version == 1 && next.sourceRoot == j.sourceRoot && next.targetRoot == NEW_ROOT && next.step == HostModeConverted
    ensures writes > 0 ==>
              AfterSettings(SaveJournal(t, next), Recorded(next), writes - 1) == Follow(dataDir, t, writes)
  {
    hide Admit, TargetVerified, Lstat, Put, Remove, LegacyRoot;
    PlacedAfterSave(dataDir, t, j, next);
    if writes > 0 {
      TidyFollows(dataDir, SaveJournal(t, next), Recorded(next), 0, [], writes - 1);
    }
  }

  lemma AdvanceFollows(dataDir: Path, t: Tree, j: Journal, writes: nat)
    requires Placed(dataDir, t, j)
    ensures Advance(t, Admit(dataDir, t, LUCKY).inPlace, j, writes) == Follow(dataDir, t, writes)
  {
    hide Admit, TargetVerified, Lstat, Put, Remove, LegacyRoot;
    GoProbes(dataDir, t);
    var inPlace := Admit(dataDir, t, LUCKY).inPlace;
    match j.step
    case Prepared =>
      var next := j.(step := if inPlace then InPlaceVerified else Renamed);
      RecordedTwice(next);
      PlacedAfterSave(dataDir, t, j, next);
      if writes > 0 {
        SettingsFollow(dataDir, SaveJournal(t, next), Recorded(next), writes - 1);
      }
    case HostModeConverted =>
      TidyFollows(dataDir, t, j, 0, [], writes);
    case Complete =>
    case _ =>
      SettingsFollow(dataDir, t, j, writes);
  }

  lemma ConfirmFollows(dataDir: Path, t: Tree, j: Journal, writes: nat)
    requires Sound(dataDir, t)
    requires var go := Admit(dataDir, t, LUCKY); go.Go? && go.journal == Some(j) && (go.inPlace || !go.sourceHas)
    requires Admit(dataDir, t, LUCKY).inPlace ==> TargetVerified(t)
    ensures Confirm(t, Admit(dataDir, t, LUCKY).inPlace, j, true, writes) == Follow(dataDir, t, writes)
  {
    hide Admit, TargetVerified, Lstat, Put, Remove, LegacyRoot;
    if TargetVerified(t) {
      AdvanceFollows(dataDir, t, j, writes);
    }
  }

  lemma RelocateFollows(dataDir: Path, t: Tree, j: Journal, writes: nat)
    requires Sound(dataDir, t)
    requires var go := Admit(dataDir, t, LUCKY); go.Go? && go.journal == Some(j)
    requires Admit(dataDir, t, LUCKY).inPlace ==> TargetVerified(t)
    ensures var go := Admit(dataDir, t, LUCKY);
            Relocate(t, go.source, go.inPlace, go.sourceHas, j, true, writes) == Follow(dataDir, t, writes)
  {
    hide Admit, TargetVerified, Lstat, Put, Remove, LegacyRoot;
    var go := Admit(dataDir, t, LUCKY);
    if !go.sourceHas || go.inPlace {
      ConfirmFollows(dataDir, t, j, writes);
    } else if IsDir(Lstat(t, FILES)) {
      MoveFollows(dataDir, t, j, writes);
    }
  }

  lemma MoveFollows(dataDir: Path, t: Tree, j: Journal, writes: nat)
    requires Sound(dataDir, t) && IsDir(Lstat(t, FILES))
    requires var go := Admit(dataDir, t, LUCKY); go.Go? && go.journal == Some(j) && go.sourceHas && !go.inPlace
    ensures Next(dataDir, t) == Write(Moved(t, Admit(dataDir, t, LUCKY).source))
    ensures writes > 0 ==>
              Confirm(Moved(t, Admit(dataDir, t, LUCKY).source), false, j, true, writes - 1) == Follow(dataDir, t, writes)
  {
    hide Admit, TargetVerified, Lstat, Put, Remove, LegacyRoot;
    AdmitAfterMove(dataDir, t);
    if writes > 0 {
      ConfirmFollows(dataDir, Moved(t, Admit(dataDir, t, LUCKY).source), j, writes - 1);
    }
  }

  /** A run, with its decisions in memory, does what starting over after every write would do. */
  lemma RunIsFollow(dataDir: Path, t: Tree, writes: nat)
    requires Sound(dataDir, t)
    ensures Run(dataDir, t, GOOD, writes) == Follow(dataDir, t, writes)
  {
    hide Admit, Put, Remove, LegacyRoot;
    var go := Admit(dataDir, t, LUCKY);
    if go.Go? && !(go.inPlace && !TargetVerified(t)) {
      match go.journal
      case Some(j) =>
        RelocateFollows(dataDir, t, j, writes);
      case None =>
        var j := NewJournal(go.source);
        RecordedTwice(j);
        GoProbes(dataDir, t);
        AdmitAfterSave(dataDir, t, j);
        if writes > 0 {
          RelocateFollows(dataDir, SaveJournal(t, j), Recorded(j), writes - 1);
        }
    }
  }

  /** Every write of the chain keeps the ground the next one stands on. */
  lemma NextIsSound(dataDir: Path, t: Tree)
    requires Sound(dataDir, t) && Next(dataDir, t).Write?
    ensures Sound(dataDir, Next(dataDir, t).tree)
  {
    hide Admit, TargetVerified, Lstat, Put, Remove, LegacyRoot;
    var go := Admit(dataDir, t, LUCKY);
    GoProbes(dataDir, t);
    if go.journal == None {
      AdmitAfterSave(dataDir, t, NewJournal(go.source));
    } else if go.sourceHas && !go.inPlace {
      AdmitAfterMove(dataDir, t);
    } else {
      var j := go.journal.value;
      match j.step
      case Prepared =>
        PlacedAfterSave(dataDir, t, j, j.(step := if go.inPlace then InPlaceVerified else Renamed));
      case HostModeConverted =>
        var i := FirstRemovable(t, 0);
        if i < |DISPOSABLE| {
          PlacedAfterRemove(dataDir, t, j, i);
        } else {
          PlacedAfterSave(dataDir, t, j, j.(cleanupFailed := FailedBefore(t, |DISPOSABLE|), step := Complete));
        }
      case Complete =>
      case _ =>
        var (converted, found) := ConvertHostMode(Lstat(t, NEW_ROOT).node).value;
        PlacedAfterConvert(dataDir, t, j);
        PlacedAfterSave(dataDir, t, j, j.(deviceLabelDropped := found, step := HostModeConverted));
    }
  }
}
