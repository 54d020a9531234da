/** When an adoption completes, what retries may write, and whether the guard on destructive
    actions can be trusted in every tree that adoption runs leave.
 */
module AdoptionGuard {
  import opened Common
  import opened StorageTree
  import opened StorageCheck
  import opened Adoption
  import opened AdoptionChain
  import opened AdoptionWrites
  import opened AdoptionRuns
  import opened AdoptionSafety

  // ---- Completion -----------------------------------------------------------------------

  ghost predicate Completed(t: Tree) {
    JournalOf(t).Some? && JournalOf(t).value.step == Complete
  }

  lemma SavedSteps(t: Tree, j: Journal)
    requires t.Dir?
    ensures var u := SaveJournal(t, j);
            && u.Dir? && JournalOf(u) == Some(Recorded(j)) && Lstat(u, NEW_ROOT) == Lstat(t, NEW_ROOT)
            && (Clear(t, NEW_ROOT) ==> Clear(u, NEW_ROOT)) && SameJunk(t, u)
  {
    SavedHere(t, j);
    SavedElsewhere(t, j, NEW_ROOT);
    forall h | 0 <= h < |DISPOSABLE| ensures Lstat(SaveJournal(t, j), [DISPOSABLE[h]]) == Lstat(t, [DISPOSABLE[h]]) {
      SavedElsewhere(t, j, [DISPOSABLE[h]]);
    }
  }

  /** What cleaning up leaves of a node: directories go, anything else stays. */
  function Tidied(s: Stat): Stat {
    if IsDir(s) then Missing else s
  }

  ghost predicate SameJunk(t: Tree, u: Tree) {
    forall h :: 0 <= h < |DISPOSABLE| ==> Tidied(Lstat(u, [DISPOSABLE[h]])) == Tidied(Lstat(t, [DISPOSABLE[h]]))
  }

  /** The names from the `k`-th on under which something is that is no directory. */
  function Obstructions(t: Tree, k: nat): seq<string>
    requires k <= |DISPOSABLE|
    decreases |DISPOSABLE| - k
  {
    if k == |DISPOSABLE| then []
    else (if Tidied(Lstat(t, [DISPOSABLE[k]])).Present? then [DISPOSABLE[k]] else []) + Obstructions(t, k + 1)
  }

  lemma {:induction false} SameObstructions(t: Tree, u: Tree, k: nat)
    requires k <= |DISPOSABLE|
    requires forall h :: k <= h < |DISPOSABLE| ==> Tidied(Lstat(u, [DISPOSABLE[h]])) == Tidied(Lstat(t, [DISPOSABLE[h]]))
    ensures Obstructions(u, k) == Obstructions(t, k)
    decreases |DISPOSABLE| - k
  {
    hide Lstat, Tidied;
    if k < |DISPOSABLE| {
      SameObstructions(t, u, k + 1);
    }
  }

  /** The last journal of an adoption. */
  ghost predicate ClosedWith(u: Tree, j: Journal, failed: seq<string>) {
    JournalOf(u) == Some(Recorded(j.(cleanupFailed := failed, step := Complete)))
  }

  lemma ObstructionsFrom(t: Tree, k: nat, failed: seq<string>)
    requires k < |DISPOSABLE|
    ensures failed + Obstructions(t, k) ==
            (if CleanupFails(t, DISPOSABLE[k]) then failed + [DISPOSABLE[k]] else failed) + Obstructions(t, k + 1)
  {
    hide Lstat;
  }

  lemma {:induction false} TidyCompletes(t: Tree, j: Journal, k: nat, failed: seq<string>, writes: nat)
    requires t.Dir? && k <= |DISPOSABLE| && writes > |DISPOSABLE| - k
    ensures var ran := Tidy(t, j, k, failed, writes);
            && ran.outcome == Finished && Lstat(ran.tree, NEW_ROOT) == Lstat(t, NEW_ROOT)
            && ClosedWith(ran.tree, j, failed + Obstructions(t, k))
    decreases |DISPOSABLE| - k
  {
    hide Lstat, Put, Remove, Obstructions, Recorded, SaveJournal, ClosedWith;
    if k == |DISPOSABLE| {
      TidyCloses(t, j, failed);
    } else {
      ObstructionsFrom(t, k, failed);
      if Removable(t, DISPOSABLE[k]) {
        var u := Remove(t, [DISPOSABLE[k]]);
        RemovedElsewhere(t, DISPOSABLE[k], NEW_ROOT);
        RemovedJunk(t, k);
        SameObstructions(t, u, k + 1);
        TidyCompletes(u, j, k + 1, failed, writes - 1);
      } else {
        TidyCompletes(t, j, k + 1, if CleanupFails(t, DISPOSABLE[k]) then failed + [DISPOSABLE[k]] else failed, writes);
      }
    }
  }

  lemma TidyCloses(t: Tree, j: Journal, failed: seq<string>)
    requires t.Dir?
    ensures var u := SaveJournal(t, j.(cleanupFailed := failed, step := Complete));
            && Lstat(u, NEW_ROOT) == Lstat(t, NEW_ROOT)
            && ClosedWith(u, j, failed + Obstructions(t, |DISPOSABLE|))
  {
    SavedSteps(t, j.(cleanupFailed := failed, step := Complete));
    assert failed + [] == failed;
  }

  lemma RemovedJunk(t: Tree, k: nat)
    requires t.Dir? && k < |DISPOSABLE|
    ensures var u := Remove(t, [DISPOSABLE[k]]);
            && u.Dir? && Lstat(u, [DISPOSABLE[k]]) == Missing
            && forall h :: 0 <= h < |DISPOSABLE| && h != k ==> Lstat(u, [DISPOSABLE[h]]) == Lstat(t, [DISPOSABLE[h]])
  {
    forall h | 0 <= h < |DISPOSABLE|
      ensures Lstat(Remove(t, [DISPOSABLE[k]]), [DISPOSABLE[h]]) == if h == k then Missing else Lstat(t, [DISPOSABLE[h]])
    {
      RemovedElsewhere(t, DISPOSABLE[k], [DISPOSABLE[h]]);
    }
    RemovedElsewhere(t, DISPOSABLE[k], NEW_ROOT);
  }

  /** And under each name nothing but what was no directory. */
  lemma {:induction false} TidyTidies(t: Tree, j: Journal, k: nat, failed: seq<string>, writes: nat)
    requires t.Dir? && k <= |DISPOSABLE| && writes > |DISPOSABLE| - k
    ensures var u := Tidy(t, j, k, failed, writes).tree;
            forall h :: 0 <= h < |DISPOSABLE| ==>
              Lstat(u, [DISPOSABLE[h]]) == if h < k then Lstat(t, [DISPOSABLE[h]]) else Tidied(Lstat(t, [DISPOSABLE[h]]))
    decreases |DISPOSABLE| - k
  {
    hide Lstat, Put, Remove;
    if k == |DISPOSABLE| {
      var last := j.(cleanupFailed := failed, step := Complete);
      forall h | 0 <= h < |DISPOSABLE| ensures Lstat(SaveJournal(t, last), [DISPOSABLE[h]]) == Lstat(t, [DISPOSABLE[h]]) {
        SavedElsewhere(t, last, [DISPOSABLE[h]]);
      }
    } else if Removable(t, DISPOSABLE[k]) {
      RemovedJunk(t, k);
      TidyTidies(Remove(t, [DISPOSABLE[k]]), j, k + 1, failed, writes - 1);
    } else {
      TidyTidies(t, j, k + 1, if CleanupFails(t, DISPOSABLE[k]) then failed + [DISPOSABLE[k]] else failed, writes);
    }
  }

  /** How a run from `t` ends once the vault is verified at its place. */
  ghost predicate Ends(ran: Ran, t: Tree, vault: Tree) {
    match ConvertHostMode(vault)
    case Ok((converted, found)) =>
      && ran.outcome == Finished && Completed(ran.tree) && Lstat(ran.tree, NEW_ROOT) == Present(converted)
      && JournalOf(ran.tree).value.deviceLabelDropped == found
      && JournalOf(ran.tree).value.cleanupFailed == Obstructions(t, 0)
      && (forall h :: 0 <= h < |DISPOSABLE| ==> Lstat(ran.tree, [DISPOSABLE[h]]) == Tidied(Lstat(t, [DISPOSABLE[h]])))
    case Err(error) =>
      ran.outcome == Refused(error) && !Completed(ran.tree) && Lstat(ran.tree, NEW_ROOT) == Present(vault)
  }

  lemma EndsBefore(ran: Ran, t: Tree, u: Tree, vault: Tree)
    requires Ends(ran, u, vault) && SameJunk(t, u)
    ensures Ends(ran, t, vault)
  {
    hide Lstat;
    SameObstructions(t, u, 0);
  }

  lemma ConvertedJunk(t: Tree, converted: Tree)
    ensures SameJunk(t, Put(t, NEW_ROOT, converted))
  {
    forall h | 0 <= h < |DISPOSABLE|
      ensures Lstat(Put(t, NEW_ROOT, converted), [DISPOSABLE[h]]) == Lstat(t, [DISPOSABLE[h]])
    {
      assert [DISPOSABLE[h]][0][0] != NEW_ROOT[0][0];
      PutElsewhere(t, NEW_ROOT, converted, [DISPOSABLE[h]]);
    }
  }

  lemma SettingsComplete(t: Tree, j: Journal, vault: Tree, writes: nat)
    requires t.Dir? && Clear(t, NEW_ROOT) && Lstat(t, NEW_ROOT) == Present(vault) && writes >= 6
    requires (j.step == Renamed || j.step == InPlaceVerified) && JournalOf(t) == Some(j)
    ensures Ends(Settings(t, j, writes), t, vault)
  {
    hide Lstat, Put, Remove, Tidy;
    if ConvertHostMode(vault).Ok? {
      var (converted, found) := ConvertHostMode(vault).value;
      if converted == vault {
        SavedSettingsComplete(t, j, vault, converted, found, writes - 1);
      } else {
        var u := Put(t, NEW_ROOT, converted);
        ConvertedWhere(t, converted);
        ConvertedJunk(t, converted);
        SavedSettingsComplete(u, j, vault, converted, found, writes - 2);
        EndsBefore(Settings(t, j, writes), t, u, vault);
      }
    }
  }

  lemma SavedSettingsComplete(t: Tree, j: Journal, vault: Tree, converted: Tree, found: bool, writes: nat)
    requires t.Dir? && Lstat(t, NEW_ROOT) == Present(converted) && ConvertHostMode(vault) == Ok((converted, found)) && writes >= 4
    ensures var next := Recorded(j.(deviceLabelDropped := found, step := HostModeConverted));
            Ends(AfterSettings(SaveJournal(t, next), next, writes), t, vault)
  {
    hide Lstat, Put, Remove, Tidy, SaveJournal, ConvertHostMode;
    var next := Recorded(j.(deviceLabelDropped := found, step := HostModeConverted));
    var u := SaveJournal(t, next);
    SavedSteps(t, next);
    TidyCompletes(u, next, 0, [], writes);
    TidyTidies(u, next, 0, [], writes);
    assert [] + Obstructions(u, 0) == Obstructions(u, 0);
    EndsBefore(AfterSettings(u, next, writes), t, u, vault);
  }

  lemma AdvanceCompletes(t: Tree, inPlace: bool, j: Journal, vault: Tree, writes: nat)
    requires t.Dir? && Clear(t, NEW_ROOT) && Lstat(t, NEW_ROOT) == Present(vault) && j.step == Prepared && writes >= 7
    ensures Ends(Advance(t, inPlace, j, writes), t, vault)
  {
    hide Lstat, Put, Remove, Ends, SaveJournal;
    var next := Recorded(j.(step := if inPlace then InPlaceVerified else Renamed));
    SavedSteps(t, next);
    RecordedTwice(next);
    SettingsComplete(SaveJournal(t, next), next, vault, writes - 1);
    EndsBefore(Advance(t, inPlace, j, writes), t, SaveJournal(t, next), vault);
  }

  /** What a vault must be like to be adopted. */
  ghost predicate Adoptable(t: Tree, source: Path, vault: Tree) {
    Verified(vault) && (source == NEW_ROOT || IsDir(Lstat(t, FILES)))
  }

  /** Moving the vault out of a disposable directory leaves a directory or nothing. */
  lemma MovedJunk(t: Tree, source: Path)
    requires t.Dir? && Clear(t, NEW_ROOT) && Clear(t, source) && Unrelated(source, NEW_ROOT)
    requires IsDir(Lstat(t, source)) && IsDir(Lstat(t, FILES))
    ensures SameJunk(t, Moved(t, source))
  {
    forall h | 0 <= h < |DISPOSABLE|
      ensures Tidied(Lstat(Moved(t, source), [DISPOSABLE[h]])) == Tidied(Lstat(t, [DISPOSABLE[h]]))
    {
      var q := [DISPOSABLE[h]];
      if source == q {
        MovedWhere(t, source);
      } else if q <= source {
        DirAbove(t, source, q, Link);
        DirsAbove(t, source, q);
        PutElsewhere(Remove(t, source), NEW_ROOT, Lstat(t, source).node, q);
      } else {
        MovedElsewhere(t, source, q);
      }
    }
  }

  lemma RelocateCompletes(dataDir: Path, t: Tree, source: Path, vault: Tree, j: Journal, writes: nat)
    requires Located(dataDir, t, source) && Lstat(t, source) == Present(vault) && vault.Dir?
    requires JournalOf(t) == Some(j) && j.step == Prepared && writes >= 8
    ensures var ran := Relocate(t, source, source == NEW_ROOT, true, j, true, writes);
            if Adoptable(t, source, vault) then Ends(ran, t, vault)
            else source != NEW_ROOT ==> ran.outcome == Refused(StorageUnavailable) && !Completed(ran.tree)
  {
    hide Lstat, Put, Remove, LegacyRoot, Verified, Clear, Ends, SameJunk;
    if source == NEW_ROOT {
      if Verified(vault) {
        AdvanceCompletes(t, true, j, vault, writes);
      }
    } else if IsDir(Lstat(t, FILES)) {
      MovedWhere(t, source);
      MovedElsewhere(t, source, JOURNAL);
      if Verified(vault) {
        var u := Moved(t, source);
        AdvanceCompletes(u, false, j, vault, writes - 1);
        MovedJunk(t, source);
        EndsBefore(Advance(u, false, j, writes - 1), t, u, vault);
      }
    }
  }

  lemma FirstRunEnds(dataDir: Path, t: Tree, source: Path, vault: Tree)
    requires Start(dataDir, t, source, vault)
    ensures var ran := Run(dataDir, t, GOOD, ENOUGH);
            if Adoptable(t, source, vault) then Ends(ran, t, vault)
            else ran.outcome == Refused(StorageUnavailable) && !Completed(ran.tree)
  {
    hide Lstat, Put, Remove, LegacyRoot, Verified, Clear, Admit, Ends, SameJunk;
    StartAdmits(dataDir, t, source, vault);
    StartIsKept(dataDir, t, source, vault);
    VaultIsDir(dataDir, t, source, vault);
    if source != NEW_ROOT || Verified(vault) {
      var j := NewJournal(source);
      RecordedTwice(j);
      SavedHere(t, j);
      SavedSteps(t, j);
      SavedIsRead(dataDir, t, source, j);
      RelocateCompletes(dataDir, SaveJournal(t, j), source, vault, Recorded(j), ENOUGH - 1);
      if Adoptable(t, source, vault) {
        EndsBefore(Run(dataDir, t, GOOD, ENOUGH), t, SaveJournal(t, j), vault);
      }
    }
  }

  lemma VaultIsDir(dataDir: Path, t: Tree, source: Path, vault: Tree)
    requires Start(dataDir, t, source, vault)
    ensures vault.Dir?
  {
  }

  // ---- Any listing order ----------------------------------------------------------------

  lemma FormatFirst(entries: map<string, Tree>, unlucky: bool)
    requires "format.version" in entries && !entries["format.version"].Link?
    ensures ContainsStorage(Present(Dir(entries)), unlucky) == Holds
  {
    assert MARKERS[0] == "format.version";
  }

  /** For a vault that verifies, the listing order decides nothing. */
  lemma AnyOrderAdmits(dataDir: Path, t: Tree, source: Path, vault: Tree, luck: Luck)
    requires Kept(dataDir, t, source, vault) && LegacyRoot(dataDir, t) == Ok(source) && Verified(vault)
    ensures Admit(dataDir, t, luck) == Admit(dataDir, t, LUCKY)
  {
    hide LegacyRoot, Lstat, ProbeMarkers;
    if AtSource(t, source, vault) {
      FormatFirst(vault.entries, luck.source);
      FormatFirst(vault.entries, false);
      EmptyLacks(t);
      LacksAnyway(Lstat(t, NEW_ROOT));
    } else {
      FormatFirst(Lstat(t, NEW_ROOT).node.entries, luck.source);
      FormatFirst(Lstat(t, NEW_ROOT).node.entries, luck.target);
      FormatFirst(Lstat(t, NEW_ROOT).node.entries, false);
    }
  }

  /** So convergence needs no luck: with a pepper, any order ends as a run that was never
      interrupted. */
  lemma ConvergesInAnyOrder(dataDir: Path, t0: Tree, source: Path, vault: Tree, attempts: seq<Attempt>, luck: Luck)
    requires Start(dataDir, t0, source, vault) && Verified(vault)
    ensures Run(dataDir, AfterAttempts(dataDir, t0, attempts), Env(true, luck), ENOUGH) == Run(dataDir, t0, GOOD, ENOUGH)
  {
    hide AfterAttempts, Run, Admit, Kept, Lstat, LegacyRoot, Verified;
    AttemptsKeep(dataDir, t0, source, vault, attempts);
    AttemptsKeepConfiguration(dataDir, t0, source, vault, attempts);
    CrashConvergence(dataDir, t0, attempts, luck);
    AnyOrderAdmits(dataDir, AfterAttempts(dataDir, t0, attempts), source, vault, luck);
  }

  // ---- When it completes ----------------------------------------------------------------

  /** The host settings of a vault: none, or ones that parse, with no link in place of the iOS
      settings. */
  predicate Convertible(vault: Tree)
    requires vault.Dir?
  {
    TAURI_HOST in vault.entries ==>
      && vault.entries[TAURI_HOST].File? && vault.entries[TAURI_HOST].data.Json?
      && vault.entries[TAURI_HOST].data.document.TauriHost?
      && (IOS_HOST in vault.entries ==> !vault.entries[IOS_HOST].Link?)
  }

  /** Conversion succeeds exactly then. It copies the Tauri settings where there are no iOS ones
      and changes nothing otherwise. */
  lemma ConvertsExactly(vault: Tree)
    requires vault.Dir?
    ensures ConvertHostMode(vault).Ok? <==> Convertible(vault)
    ensures ConvertHostMode(vault).Err? ==> ConvertHostMode(vault).error == StorageUnavailable
    ensures ConvertHostMode(vault).Ok? ==>
              && ConvertHostMode(vault).value.1 == ("mobile_host_mode.json" in vault.entries)
              && if "mobile_host_mode.json" in vault.entries && "ios_host_mode.json" !in vault.entries
                 then var tauri := vault.entries["mobile_host_mode.json"].data.document;
                      ConvertHostMode(vault).value.0 == Dir(vault.entries["ios_host_mode.json" :=
                        File(Json(IosHost(tauri.relay, tauri.enabled, tauri.updatedAt)))])
                 else ConvertHostMode(vault).value.0 == vault
  {
  }

  /** Completion once reached is where every run leads. */
  lemma CompletedIsTheEnd(dataDir: Path, t0: Tree, source: Path, vault: Tree, attempts: seq<Attempt>)
    requires Start(dataDir, t0, source, vault) && Completed(AfterAttempts(dataDir, t0, attempts))
    ensures Run(dataDir, t0, GOOD, ENOUGH).tree == AfterAttempts(dataDir, t0, attempts)
  {
    hide AfterAttempts, Run, Admit, Lstat, LegacyRoot;
    var t := AfterAttempts(dataDir, t0, attempts);
    AttemptsKeep(dataDir, t0, source, vault, attempts);
    CompletedIsMoved(dataDir, t, source, vault);
    RetriesAreReadOnly(dataDir, t, GOOD, ENOUGH);
    CrashConvergence(dataDir, t0, attempts, LUCKY);
  }

  /** After any runs, one undisturbed run with a pepper, in any listing order, completes the
      adoption exactly when the vault verifies, there is a directory to move it into, and its
      host settings can be converted. Then the target is the vault, with iOS settings made of the
      Tauri ones if it had none, and the source is gone. */
  lemma CompletesExactly(dataDir: Path, t0: Tree, source: Path, vault: Tree, attempts: seq<Attempt>, luck: Luck)
    requires Start(dataDir, t0, source, vault)
    ensures vault.Dir?
    ensures var ran := Run(dataDir, AfterAttempts(dataDir, t0, attempts), Env(true, luck), ENOUGH);
            && (Completed(ran.tree) <==> Adoptable(t0, source, vault) && Convertible(vault))
            && (Completed(ran.tree) ==>
                  && ran.outcome == Finished
                  && (source != NEW_ROOT ==> Lstat(ran.tree, source) == Missing)
                  && (if "mobile_host_mode.json" in vault.entries && "ios_host_mode.json" !in vault.entries
                      then var tauri := vault.entries["mobile_host_mode.json"].data.document;
                           Lstat(ran.tree, NEW_ROOT) == Present(Dir(vault.entries["ios_host_mode.json" :=
                             File(Json(IosHost(tauri.relay, tauri.enabled, tauri.updatedAt)))]))
                      else Lstat(ran.tree, NEW_ROOT) == Present(vault))
                  && JournalOf(ran.tree).value.deviceLabelDropped == ("mobile_host_mode.json" in vault.entries))
            && (Adoptable(t0, source, vault) && !Convertible(vault) ==> ran.outcome == Refused(StorageUnavailable))
  {
    VaultIsDir(dataDir, t0, source, vault);
    ConvertsExactly(vault);
    FirstRunEnds(dataDir, t0, source, vault);
    FirstRunKeeps(dataDir, t0, source, vault);
    hide AfterAttempts, Run, Lstat, Start, ConvertHostMode, Completed, Kept, Adoptable;
    assert Adoptable(t0, source, vault) ==> Verified(vault) by { AdoptableVerifies(t0, source, vault); }
    if Verified(vault) {
      ConvergesInAnyOrder(dataDir, t0, source, vault, attempts, luck);
    } else {
      NotCompletedUnverified(dataDir, t0, source, vault, attempts, luck);
    }
  }

  /** And of the disposable directories nothing is left but what was no directory, which the
      journal lists. */
  lemma CompletionCleansUp(dataDir: Path, t0: Tree, source: Path, vault: Tree, attempts: seq<Attempt>, luck: Luck)
    requires Start(dataDir, t0, source, vault) && Adoptable(t0, source, vault) && vault.Dir? && Convertible(vault)
    ensures var u := Run(dataDir, AfterAttempts(dataDir, t0, attempts), Env(true, luck), ENOUGH).tree;
            && (forall name :: name in ["logs", "app_webview", "cache"] ==>
                  Lstat(u, [name]) == if IsDir(Lstat(t0, [name])) then Missing else Lstat(t0, [name]))
            && JournalOf(u).Some?
            && JournalOf(u).value.cleanupFailed ==
                 (if Lstat(u, ["logs"]).Present? then ["logs"] else [])
                 + (if Lstat(u, ["app_webview"]).Present? then ["app_webview"] else [])
                 + (if Lstat(u, ["cache"]).Present? then ["cache"] else [])
  {
    ConvertsExactly(vault);
    FirstRunEnds(dataDir, t0, source, vault);
    AdoptableVerifies(t0, source, vault);
    hide AfterAttempts, Run, Lstat, Start, ConvertHostMode, Kept, Adoptable, JournalOf, Verified, Convertible;
    ConvergesInAnyOrder(dataDir, t0, source, vault, attempts, luck);
    ThreeNames(t0, Run(dataDir, t0, GOOD, ENOUGH).tree);
  }

  lemma ThreeNames(t: Tree, u: Tree)
    requires forall h :: 0 <= h < |DISPOSABLE| ==> Lstat(u, [DISPOSABLE[h]]) == Tidied(Lstat(t, [DISPOSABLE[h]]))
    ensures forall name :: name in ["logs", "app_webview", "cache"] ==>
              Lstat(u, [name]) == if IsDir(Lstat(t, [name])) then Missing else Lstat(t, [name])
    ensures Obstructions(t, 0) ==
              (if Lstat(u, ["logs"]).Present? then ["logs"] else [])
              + (if Lstat(u, ["app_webview"]).Present? then ["app_webview"] else [])
              + (if Lstat(u, ["cache"]).Present? then ["cache"] else [])
  {
    hide Lstat;
    assert DISPOSABLE[0] == "logs" && DISPOSABLE[1] == "app_webview" && DISPOSABLE[2] == "cache";
    assert Obstructions(t, 2) == if Lstat(u, ["cache"]).Present? then ["cache"] else [];
    assert Obstructions(t, 1) == (if Lstat(u, ["app_webview"]).Present? then ["app_webview"] else []) + Obstructions(t, 2);
    assert Obstructions(t, 0) == (if Lstat(u, ["logs"]).Present? then ["logs"] else []) + Obstructions(t, 1);
  }

  lemma AdoptableVerifies(t: Tree, source: Path, vault: Tree)
    ensures Adoptable(t, source, vault) ==> Verified(vault)
  {
  }

  lemma FirstRunKeeps(dataDir: Path, t0: Tree, source: Path, vault: Tree)
    requires Start(dataDir, t0, source, vault)
    ensures var t := Run(dataDir, t0, GOOD, ENOUGH).tree;
            Completed(t) && source != NEW_ROOT ==> Lstat(t, source) == Missing
  {
    hide Kept, Run, Start, Completed;
    StartIsKept(dataDir, t0, source, vault);
    RunKeeps(dataDir, t0, GOOD, ENOUGH, source, vault);
    if Completed(Run(dataDir, t0, GOOD, ENOUGH).tree) {
      CompletedIsMoved(dataDir, Run(dataDir, t0, GOOD, ENOUGH).tree, source, vault);
    }
  }

  lemma NotCompletedUnverified(dataDir: Path, t0: Tree, source: Path, vault: Tree, attempts: seq<Attempt>, luck: Luck)
    requires Start(dataDir, t0, source, vault) && !Verified(vault)
    ensures !Completed(Run(dataDir, AfterAttempts(dataDir, t0, attempts), Env(true, luck), ENOUGH).tree)
  {
    FirstRunEnds(dataDir, t0, source, vault);
    hide Run, Start, Completed, Verified;
    var more := attempts + [Attempt(Env(true, luck), ENOUGH, None)];
    assert more[..|attempts|] == attempts;
    if Completed(AfterAttempts(dataDir, t0, more)) {
      CompletedIsTheEnd(dataDir, t0, source, vault, more);
    }
  }

  lemma CompletedIsMoved(dataDir: Path, t: Tree, source: Path, vault: Tree)
    requires Kept(dataDir, t, source, vault) && Completed(t)
    ensures AtTarget(t, source, vault) && (source != NEW_ROOT ==> Lstat(t, source) == Missing)
    ensures ReadJournal(t) == Ok(JournalOf(t)) && JournalOf(t).value.sourceRoot == source
  {
  }

  /** Settings that do not convert stop the adoption of a good vault, at every attempt. */
  lemma BadSettingsBlock(dataDir: Path, t0: Tree, source: Path, vault: Tree, attempts: seq<Attempt>, luck: Luck)
    requires Start(dataDir, t0, source, vault) && Adoptable(t0, source, vault)
    requires vault.Dir? && !Convertible(vault)
    ensures Run(dataDir, AfterAttempts(dataDir, t0, attempts), Env(true, luck), ENOUGH).outcome == Refused(StorageUnavailable)
    ensures !Completed(AfterAttempts(dataDir, t0, attempts))
  {
    hide AfterAttempts, Run, Lstat, Start, Adoptable, Convertible, Completed, ConvertHostMode;
    CompletesExactly(dataDir, t0, source, vault, attempts, luck);
    CompletesExactly(dataDir, t0, source, vault, [], LUCKY);
    assert AfterAttempts(dataDir, t0, []) == t0 by { NoAttempts(dataDir, t0); }
    if Completed(AfterAttempts(dataDir, t0, attempts)) {
      CompletedIsTheEnd(dataDir, t0, source, vault, attempts);
    }
  }

  lemma NoAttempts(dataDir: Path, t: Tree)
    ensures AfterAttempts(dataDir, t, []) == t
  {
  }

  lemma AtName(t: Tree, name: string)
    requires t.Dir?
    ensures Lstat(t, [name]) == if name in t.entries then Present(t.entries[name]) else Missing
    ensures Clear(t, [name]) <==> name in t.entries ==> !t.entries[name].Link?
  {
    assert [name][1..] == [];
  }

  /** A vault at Tauri's default root, without a configuration or a journal, and Air's directory
      still without a root: a start. */
  lemma DefaultRootStarts(dataDir: Path, t: Tree, vault: Tree)
    requires t.Dir? && "storage" in t.entries && t.entries["storage"] == vault && Verified(vault)
    requires "files" in t.entries && t.entries["files"].Dir? && "ChromVoidAir" !in t.entries["files"].entries
    requires "storage.json" !in t.entries && "air-adoption.json" !in t.entries
    ensures Start(dataDir, t, DEFAULT_ROOT, vault) && Adoptable(t, DEFAULT_ROOT, vault)
  {
    AtName(t, "air-adoption.json");
    AtName(t, "storage.json");
    AtName(t, "storage");
    AtName(t, "files");
    AtName(t.entries["files"], "ChromVoidAir");
    assert NEW_ROOT[1..] == ["ChromVoidAir"];
    assert Lstat(t, NEW_ROOT) == Missing && Clear(t, NEW_ROOT);
    assert DEFAULT_ROOT[0] == "storage" && KEYSTORE[0] == "no_backup" && NEW_ROOT[0] == "files";
    assert "storage"[0] != "no_backup"[0] && "storage"[0] != "files"[0];
    assert CheckedSource(t, DEFAULT_ROOT) == Ok(DEFAULT_ROOT);
    VerifiedIsStorage(vault, false);
  }

  /** The smallest vault: a format file and an empty chunk directory. */
  const SMALLEST := map["format.version" := File(Json(Format(2, "sharded", 1))), "chunks" := Dir(map[])]

  /** A data directory with nothing but a vault at the default root and a place to move it to. */
  function Fresh(vault: Tree): Tree {
    Dir(map["storage" := vault, "files" := Dir(map[])])
  }

  lemma FreshStarts(dataDir: Path, vault: Tree)
    requires Verified(vault)
    ensures Start(dataDir, Fresh(vault), DEFAULT_ROOT, vault) && Adoptable(Fresh(vault), DEFAULT_ROOT, vault)
  {
    hide Start, Adoptable, Lstat, Verified;
    assert |"storage.json"| != |"storage"| && |"air-adoption.json"| != |"storage"|;
    assert |"storage.json"| != |"files"| && |"air-adoption.json"| != |"files"| && |"storage"| != |"files"|;
    DefaultRootStarts(dataDir, Fresh(vault), vault);
  }

  lemma SmallestVerifies(name: string, node: Tree)
    requires name != "format.version" && name != "chunks" && name !in MARKERS
    ensures Verified(Dir(SMALLEST)) && Verified(Dir(SMALLEST[name := node]))
  {
    assert MARKERS[1] == "salt" && MARKERS[2] == "master.salt" && MARKERS[3] == "master.verify";
    assert SMALLEST["chunks"] == Dir(map[]);
  }

  lemma SettingsAreNoMarker()
    ensures TAURI_HOST != "format.version" && TAURI_HOST != "chunks" && TAURI_HOST !in MARKERS
  {
    assert forall i :: 0 <= i < |MARKERS| ==> |MARKERS[i]| != |TAURI_HOST|;
    assert |TAURI_HOST| != |"chunks"|;
  }

  /** It is adopted, whatever interrupts it, in any listing order. */
  lemma SmallestIsAdopted(dataDir: Path, attempts: seq<Attempt>, luck: Luck)
    ensures var t := Fresh(Dir(SMALLEST));
            && Start(dataDir, t, DEFAULT_ROOT, Dir(SMALLEST))
            && Completed(Run(dataDir, AfterAttempts(dataDir, t, attempts), Env(true, luck), ENOUGH).tree)
  {
    SettingsAreNoMarker();
    SmallestVerifies(TAURI_HOST, Link);
    assert Convertible(Dir(SMALLEST)) by { assert TAURI_HOST !in SMALLEST; }
    hide AfterAttempts, Run, Start, Adoptable, Lstat, Verified, Convertible, Completed, Fresh, ConvertHostMode;
    FreshStarts(dataDir, Dir(SMALLEST));
    CompletesExactly(dataDir, Fresh(Dir(SMALLEST)), DEFAULT_ROOT, Dir(SMALLEST), attempts, luck);
  }

  /** With settings that are not a document it is not adopted, however often it is tried. */
  lemma UnreadableSettingsBlock(dataDir: Path, bytes: seq<Byte>, attempts: seq<Attempt>, luck: Luck)
    ensures var t := Fresh(Dir(SMALLEST[TAURI_HOST := File(Raw(bytes))]));
            && Run(dataDir, AfterAttempts(dataDir, t, attempts), Env(true, luck), ENOUGH).outcome == Refused(StorageUnavailable)
            && !Completed(AfterAttempts(dataDir, t, attempts))
  {
    var vault := Dir(SMALLEST[TAURI_HOST := File(Raw(bytes))]);
    SettingsAreNoMarker();
    SmallestVerifies(TAURI_HOST, File(Raw(bytes)));
    assert !Convertible(vault);
    hide AfterAttempts, Run, Start, Adoptable, Lstat, Verified, Convertible, Completed, Fresh, ConvertHostMode;
    FreshStarts(dataDir, vault);
    BadSettingsBlock(dataDir, Fresh(vault), DEFAULT_ROOT, vault, attempts, luck);
  }

  // ---- Refusals and retries -------------------------------------------------------------

  /** A run that leaves no journal leaves everything as it was. */
  lemma NoJournalNoChange(dataDir: Path, t: Tree, env: Env, writes: nat)
    requires Lstat(Run(dataDir, t, env, writes).tree, JOURNAL) == Missing
    ensures Run(dataDir, t, env, writes).tree == t
  {
    hide Run, Leads, Admit;
    RunLeads(dataDir, t, env, writes);
    if Admit(dataDir, t, env.luck).Go? {
      LeadsAdvances(Admit(dataDir, t, env.luck).source, t, Run(dataDir, t, env, writes).tree, writes);
    }
  }

  /** With the vault at its place, a failing verification or a missing pepper changes nothing,
      however often the run is tried; and a completed journal makes runs read-only. */
  lemma RetriesAreReadOnly(dataDir: Path, t: Tree, env: Env, writes: nat)
    ensures var go := Admit(dataDir, t, env.luck);
            go.Go? && (go.inPlace || (!go.sourceHas && go.journal.Some?)) && (!TargetVerified(t) || !env.pepper) ==>
              Run(dataDir, t, env, writes) == Ran(t, Refused(if TargetVerified(t) then PepperUnavailable else StorageUnavailable))
    ensures var journal := ReadJournal(t);
            journal.Ok? && journal.value.Some? && journal.value.value.step == Complete
            && (journal.value.value.sourceRoot == NEW_ROOT
                || ContainsStorage(Lstat(t, journal.value.value.sourceRoot), false) == Lacks) ==>
              Run(dataDir, t, env, writes).tree == t
  {
    hide TargetVerified, Put, Remove;
    var journal := ReadJournal(t);
    if journal.Ok? && journal.value.Some? {
      LuckOnlyFailsAtRoot(Lstat(t, journal.value.value.sourceRoot));
      LacksAnyway(Lstat(t, journal.value.value.sourceRoot));
    }
  }

  /** An answer that nothing is there does not depend on the listing order. */
  lemma LacksAnyway(root: Stat)
    ensures ContainsStorage(root, false) == Lacks <==> ContainsStorage(root, true) == Lacks
  {
    match root
    case Present(Dir(entries)) => LacksAnywayFrom(entries, 0);
    case _ =>
  }

  lemma {:induction false} LacksAnywayFrom(entries: map<string, Tree>, k: nat)
    requires k <= |MARKERS|
    ensures ProbeMarkers(entries, k, false) == Lacks <==> ProbeMarkers(entries, k, true) == Lacks
    decreases |MARKERS| - k
  {
    if k < |MARKERS| {
      LacksAnywayFrom(entries, k + 1);
    }
  }

  // ---- The guard ------------------------------------------------------------------------

  /** A vault still at its source is never given up: before the journal names it the
      configuration does, and from then on the configuration may say anything, between the runs
      as well as after them. */
  lemma GuardRefuses(dataDir: Path, t0: Tree, source: Path, vault: Tree, turns: seq<Turn>, luck: Luck)
    requires Start(dataDir, t0, source, vault)
    requires AtSource(AfterTurns(dataDir, t0, turns), source, vault)
    ensures !DestructiveAllowed(dataDir, AfterTurns(dataDir, t0, turns), luck)
  {
    VaultConservation(dataDir, t0, source, vault, turns);
    RefusesAtSource(dataDir, AfterTurns(dataDir, t0, turns), source, vault, luck);
  }

  lemma RefusesAtSource(dataDir: Path, t: Tree, source: Path, vault: Tree, luck: Luck)
    requires Kept(dataDir, t, source, vault) && AtSource(t, source, vault)
    requires ContainsStorage(Present(vault), false) == Holds
    ensures !DestructiveAllowed(dataDir, t, luck)
  {
    hide LegacyRoot, ProbeMarkers;
    LacksAnyway(Present(vault));
  }

  /** Once the adoption is complete the guard allows exactly when the configuration, whatever it
      says by then, names a root that holds no other vault. */
  lemma GuardAllows(dataDir: Path, t0: Tree, source: Path, vault: Tree, turns: seq<Turn>, luck: Luck)
    requires Start(dataDir, t0, source, vault)
    requires Completed(AfterTurns(dataDir, t0, turns))
    ensures var t := AfterTurns(dataDir, t0, turns);
            DestructiveAllowed(dataDir, t, luck) <==>
              LegacyRoot(dataDir, t).Ok? && NoVaultAt(t, LegacyRoot(dataDir, t).value, false)
  {
    VaultConservation(dataDir, t0, source, vault, turns);
    AllowsWhenComplete(dataDir, AfterTurns(dataDir, t0, turns), source, vault, luck);
  }

  /** Left alone, the configuration names the vault's own source, and the guard allows. */
  lemma GuardAllowsAfterAttempts(dataDir: Path, t0: Tree, source: Path, vault: Tree, attempts: seq<Attempt>, luck: Luck)
    requires Start(dataDir, t0, source, vault)
    requires Completed(AfterAttempts(dataDir, t0, attempts))
    ensures DestructiveAllowed(dataDir, AfterAttempts(dataDir, t0, attempts), luck)
  {
    hide AfterAttempts, LegacyRoot;
    AttemptsKeep(dataDir, t0, source, vault, attempts);
    AttemptsKeepConfiguration(dataDir, t0, source, vault, attempts);
    AllowsWhenComplete(dataDir, AfterAttempts(dataDir, t0, attempts), source, vault, luck);
    CompletedIsMoved(dataDir, AfterAttempts(dataDir, t0, attempts), source, vault);
  }

  lemma AllowsWhenComplete(dataDir: Path, t: Tree, source: Path, vault: Tree, luck: Luck)
    requires Kept(dataDir, t, source, vault) && Completed(t)
    ensures DestructiveAllowed(dataDir, t, luck) <==>
              LegacyRoot(dataDir, t).Ok? && NoVaultAt(t, LegacyRoot(dataDir, t).value, false)
  {
    hide LegacyRoot, SameVault, ProbeMarkers;
    CompletedIsMoved(dataDir, t, source, vault);
    if LegacyRoot(dataDir, t).Ok? {
      LacksAnyway(Lstat(t, LegacyRoot(dataDir, t).value));
    }
  }
}
