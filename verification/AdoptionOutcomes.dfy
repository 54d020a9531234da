/** What a run answers when it does not move a vault, said without the functions that decide it,
    and which configurations lead where.
 */
module AdoptionOutcomes {
  import opened Common
  import opened Text
  import opened StorageTree
  import opened StorageCheck
  import opened Adoption
  import opened AdoptionChain
  import opened AdoptionWrites
  import opened AdoptionRuns
  import opened AdoptionSafety
  import opened AdoptionGuard

  // ---- Nothing to do --------------------------------------------------------------------

  /** A data directory in which the configuration, if any, resolves to a root beside Air's own. */
  ghost predicate Resolves(dataDir: Path, t: Tree, root: Path) {
    && t.Dir? && Clear(t, NEW_ROOT) && LegacyRoot(dataDir, t) == Ok(root)
    && (root == NEW_ROOT || Unrelated(root, NEW_ROOT))
  }

  /** Without a vault and without a journal a run has nothing to do and says so, under any
      conditions and wherever it would be cut. */
  lemma NothingToAdopt(dataDir: Path, t: Tree, root: Path, env: Env, writes: nat)
    requires Resolves(dataDir, t, root) && Lstat(t, JOURNAL) == Missing && HoldsNothing(Lstat(t, root))
    requires ContainsStorage(Lstat(t, NEW_ROOT), env.luck.target) != Fails
    ensures Run(dataDir, t, env, writes) == Ran(t, Finished)
  {
    hide LegacyRoot, Lstat, ContainsStorage;
    LacksExactly(Lstat(t, root), env.luck.source);
    assert CheckedChild(t, NEW_ROOT).Ok?;
  }

  /** And it says so without a journal only then. */
  lemma FinishedWithoutJournal(dataDir: Path, t: Tree, env: Env, writes: nat)
    requires Lstat(t, JOURNAL) == Missing && Run(dataDir, t, env, writes) == Ran(t, Finished)
    ensures exists root :: Resolves(dataDir, t, root) && HoldsNothing(Lstat(t, root))
    ensures ContainsStorage(Lstat(t, NEW_ROOT), env.luck.target) != Fails
  {
    hide LegacyRoot, Lstat, ContainsStorage, Relocate, SaveJournal;
    var go := Admit(dataDir, t, env.luck);
    if go.Go? {
      NotFinishedAtOnce(dataDir, t, env, writes);
    } else {
      var root := LegacyRoot(dataDir, t).value;
      LacksExactly(Lstat(t, root), env.luck.source);
      assert Resolves(dataDir, t, root);
    }
  }

  lemma NotFinishedAtOnce(dataDir: Path, t: Tree, env: Env, writes: nat)
    requires Lstat(t, JOURNAL) == Missing && Admit(dataDir, t, env.luck).Go?
    ensures Run(dataDir, t, env, writes) != Ran(t, Finished)
  {
    hide Admit, Relocate, Lstat, SaveJournal, Leads;
    var go := Admit(dataDir, t, env.luck);
    GoAdmits(dataDir, t, env.luck);
    var j := Recorded(NewJournal(go.source));
    if writes > 0 && !(go.inPlace && (!TargetVerified(t) || !env.pepper)) {
      var u := SaveJournal(t, j);
      SavedHere(t, j);
      AdmittedAfterSave(t, go.source, true, j);
      RelocateLeads(go.source, u, true, j, env.pepper, writes - 1);
      LeadsAdvances(go.source, u, Run(dataDir, t, env, writes).tree, writes - 1);
      RecordedTwice(NewJournal(go.source));
    }
  }

  /** A fresh installation. */
  lemma FreshInstallation(dataDir: Path, env: Env, writes: nat)
    ensures var t := Dir(map["files" := Dir(map[])]); Run(dataDir, t, env, writes) == Ran(t, Finished)
  {
    var t := Dir(map["files" := Dir(map[])]);
    assert |"storage.json"| != |"files"| && |"air-adoption.json"| != |"files"| && |"storage"| != |"files"|;
    AtName(t, "air-adoption.json");
    AtName(t, "storage.json");
    AtName(t, "storage");
    AtName(t, "files");
    AtName(Dir(map[]), "ChromVoidAir");
    assert NEW_ROOT[1..] == ["ChromVoidAir"];
    assert Lstat(t, NEW_ROOT) == Missing && Clear(t, NEW_ROOT);
    DefaultIsSafe(t);
    NothingToAdopt(dataDir, t, DEFAULT_ROOT, env, writes);
  }

  lemma DefaultIsSafe(t: Tree)
    requires Clear(t, DEFAULT_ROOT)
    ensures CheckedSource(t, DEFAULT_ROOT) == Ok(DEFAULT_ROOT) && Unrelated(DEFAULT_ROOT, NEW_ROOT)
  {
    assert DEFAULT_ROOT[0] == "storage" && KEYSTORE[0] == "no_backup" && NEW_ROOT[0] == "files";
    assert "storage"[0] != "no_backup"[0] && "storage"[0] != "files"[0];
  }

  // ---- Refusals -------------------------------------------------------------------------

  /** Two vaults: neither is touched. */
  lemma TwoVaultsBlock(dataDir: Path, t: Tree, root: Path, env: Env, writes: nat)
    requires Resolves(dataDir, t, root) && Lstat(t, JOURNAL) == Missing && root != NEW_ROOT
    requires HasMarker(Lstat(t, root)) && HasMarker(Lstat(t, NEW_ROOT))
    ensures Run(dataDir, t, env, writes) == Ran(t, Refused(Blocked))
  {
    hide LegacyRoot, Lstat, ContainsStorage;
    HoldsByMarker(Lstat(t, root), env.luck.source);
    HoldsByMarker(Lstat(t, NEW_ROOT), env.luck.target);
    assert CheckedChild(t, NEW_ROOT).Ok?;
  }

  /** A target with something unknown in it is never replaced. */
  lemma UnknownTargetRefused(dataDir: Path, t: Tree, root: Path, env: Env, writes: nat)
    requires Resolves(dataDir, t, root) && Lstat(t, JOURNAL) == Missing && root != NEW_ROOT
    requires HasMarker(Lstat(t, root)) && IsDir(Lstat(t, NEW_ROOT)) && Lstat(t, NEW_ROOT).node.entries != map[]
    requires HoldsNothing(Lstat(t, NEW_ROOT))
    ensures Run(dataDir, t, env, writes) == Ran(t, Refused(StorageUnavailable))
  {
    hide LegacyRoot, Lstat, ContainsStorage;
    HoldsByMarker(Lstat(t, root), env.luck.source);
    LacksExactly(Lstat(t, NEW_ROOT), env.luck.target);
    assert CheckedChild(t, NEW_ROOT).Ok?;
  }

  /** A root above Air's own, or below it, is no source. */
  lemma OverlapRefused(dataDir: Path, t: Tree, root: Path, env: Env, writes: nat)
    requires t.Dir? && Clear(t, NEW_ROOT) && LegacyRoot(dataDir, t) == Ok(root) && Lstat(t, JOURNAL) == Missing
    requires root != NEW_ROOT && (root <= NEW_ROOT || NEW_ROOT <= root)
    ensures Run(dataDir, t, env, writes) == Ran(t, Refused(LegacyRootUnavailable))
  {
    hide LegacyRoot, Lstat, ContainsStorage;
    assert CheckedChild(t, NEW_ROOT).Ok?;
  }

  /** A readable journal of this adoption. */
  ghost predicate Journaled(t: Tree, j: Journal) {
    && Lstat(t, JOURNAL) == Present(File(Json(AdoptionJournal(j)))) && j.version == 1 && j.targetRoot == NEW_ROOT
    && SafeRoot(t, j.sourceRoot) && (j.sourceRoot == NEW_ROOT || Unrelated(j.sourceRoot, NEW_ROOT))
  }

  /** While a journal names one vault, a configuration that names another blocks. */
  lemma OtherVaultBlocks(dataDir: Path, t: Tree, root: Path, j: Journal, env: Env, writes: nat)
    requires Resolves(dataDir, t, root) && Journaled(t, j) && root != j.sourceRoot && root != NEW_ROOT
    requires HasMarker(Lstat(t, root))
    ensures Run(dataDir, t, env, writes) == Ran(t, Refused(Blocked))
  {
    hide LegacyRoot, Lstat, ContainsStorage;
    HoldsByMarker(Lstat(t, root), env.luck.configured);
    assert CheckedChild(t, NEW_ROOT).Ok?;
  }

  /** With the configuration on the journal's root, on Air's own, or on one that holds nothing,
      the journal decides. */
  ghost predicate Undisturbed(dataDir: Path, t: Tree, j: Journal) {
    && t.Dir? && Clear(t, NEW_ROOT) && Journaled(t, j)
    && LegacyRoot(dataDir, t).Ok?
    && var root := LegacyRoot(dataDir, t).value;
       root == j.sourceRoot || root == NEW_ROOT || HoldsNothing(Lstat(t, root))
  }

  /** A completed adoption is finished for good. */
  lemma CompletedFinishes(dataDir: Path, t: Tree, j: Journal, env: Env, writes: nat)
    requires Undisturbed(dataDir, t, j) && j.step == Complete && j.sourceRoot != NEW_ROOT && HoldsNothing(Lstat(t, j.sourceRoot))
    requires ContainsStorage(Lstat(t, NEW_ROOT), env.luck.target) != Fails
    ensures Run(dataDir, t, env, writes) == Ran(t, Finished)
  {
    hide LegacyRoot, Lstat, ContainsStorage;
    LacksExactly(Lstat(t, j.sourceRoot), env.luck.source);
    LacksExactly(Lstat(t, LegacyRoot(dataDir, t).value), env.luck.configured);
    assert CheckedChild(t, NEW_ROOT).Ok?;
  }

  /** A vault that the journal says exists but neither root has is an error. */
  lemma LostVaultRefused(dataDir: Path, t: Tree, j: Journal, env: Env, writes: nat)
    requires Undisturbed(dataDir, t, j) && j.step != Complete
    requires HoldsNothing(Lstat(t, j.sourceRoot)) && HoldsNothing(Lstat(t, NEW_ROOT))
    ensures Run(dataDir, t, env, writes) == Ran(t, Refused(StorageUnavailable))
  {
    hide LegacyRoot, Lstat, ContainsStorage;
    LacksExactly(Lstat(t, j.sourceRoot), env.luck.source);
    LacksExactly(Lstat(t, NEW_ROOT), env.luck.target);
    LacksExactly(Lstat(t, LegacyRoot(dataDir, t).value), env.luck.configured);
    assert CheckedChild(t, NEW_ROOT).Ok?;
  }

  /** A journal that is there but is no document of version 1 for Air's own root is an error. */
  lemma UnreadableJournalRefused(dataDir: Path, t: Tree, env: Env, writes: nat)
    requires t.Dir? && Clear(t, NEW_ROOT) && LegacyRoot(dataDir, t).Ok? && Lstat(t, ["air-adoption.json"]) != Missing
    requires forall j :: Lstat(t, ["air-adoption.json"]) == Present(File(Json(AdoptionJournal(j)))) ==>
                           j.version != 1 || j.targetRoot != ["files", "ChromVoidAir"]
    ensures Run(dataDir, t, env, writes) == Ran(t, Refused(StorageUnavailable))
  {
    hide LegacyRoot, Lstat, Clear;
    assert CheckedChild(t, NEW_ROOT).Ok?;
  }

  /** So is one that names a root no run may have. */
  lemma UnsafeJournalRefused(dataDir: Path, t: Tree, j: Journal, env: Env, writes: nat)
    requires t.Dir? && Clear(t, NEW_ROOT) && LegacyRoot(dataDir, t).Ok?
    requires Lstat(t, JOURNAL) == Present(File(Json(AdoptionJournal(j)))) && j.version == 1 && j.targetRoot == NEW_ROOT
    requires !SafeRoot(t, j.sourceRoot)
    ensures Run(dataDir, t, env, writes) == Ran(t, Refused(LegacyRootUnavailable))
  {
    hide LegacyRoot, Lstat, Clear;
    assert CheckedChild(t, NEW_ROOT).Ok?;
  }

  /** Neither a directory nor missing. */
  ghost predicate NoDirectory(root: Stat) {
    root.Present? && !root.node.Dir?
  }

  /** A file, or anything but a directory, in place of a root is an error: of the source or the
      target, and, when a journal names another source, of the configured root. */
  lemma NoRootRefused(dataDir: Path, t: Tree, root: Path, env: Env, writes: nat)
    requires Resolves(dataDir, t, root)
    ensures Lstat(t, JOURNAL) == Missing && (NoDirectory(Lstat(t, root)) || NoDirectory(Lstat(t, NEW_ROOT))) ==>
              Run(dataDir, t, env, writes) == Ran(t, Refused(StorageUnavailable))
    ensures forall j :: Journaled(t, j) && root != j.sourceRoot && root != NEW_ROOT && NoDirectory(Lstat(t, root)) ==>
              Run(dataDir, t, env, writes) == Ran(t, Refused(StorageUnavailable))
  {
    hide LegacyRoot, Lstat, Clear;
    assert CheckedChild(t, NEW_ROOT).Ok?;
  }

  lemma NoDirectoryRefused(dataDir: Path, t: Tree, env: Env, writes: nat)
    requires !t.Dir? || !Clear(t, NEW_ROOT)
    ensures Run(dataDir, t, env, writes) == Ran(t, Refused(LegacyRootUnavailable))
  {
  }

  // ---- The guard ------------------------------------------------------------------------

  /** For any tree: the guard allows exactly when the configuration resolves to Air's own root or
      one that holds nothing, and there is no journal, or a readable one whose root is Air's own
      or holds nothing. */
  lemma GuardAllowsExactly(dataDir: Path, t: Tree, luck: Luck)
    ensures DestructiveAllowed(dataDir, t, luck) <==>
              && t.Dir? && Clear(t, NEW_ROOT)
              && LegacyRoot(dataDir, t).Ok?
              && (LegacyRoot(dataDir, t).value == NEW_ROOT || HoldsNothing(Lstat(t, LegacyRoot(dataDir, t).value)))
              && (Lstat(t, JOURNAL) == Missing
                  || exists j :: ReadableAndEmpty(t, j))
  {
    hide LegacyRoot, Lstat, ContainsStorage;
    assert Clear(t, NEW_ROOT) <==> CheckedChild(t, NEW_ROOT).Ok?;
    if LegacyRoot(dataDir, t).Ok? {
      LacksExactly(Lstat(t, LegacyRoot(dataDir, t).value), luck.configured);
    }
    match Lstat(t, JOURNAL)
    case Present(File(Json(AdoptionJournal(j)))) =>
      LacksExactly(Lstat(t, j.sourceRoot), luck.source);
      assert ReadableAndEmpty(t, j) <==>
        t.Dir? && Clear(t, NEW_ROOT) && ReadJournal(t) == Ok(Some(j)) && NoVaultAt(t, j.sourceRoot, luck.source) by {
        if Clear(t, NEW_ROOT) { ReadableExactly(t, j); }
      }
      assert forall k :: ReadableAndEmpty(t, k) ==> k == j;
    case _ =>
  }

  ghost predicate ReadableAndEmpty(t: Tree, j: Journal) {
    && t.Dir? && Clear(t, NEW_ROOT)
    && Lstat(t, JOURNAL) == Present(File(Json(AdoptionJournal(j)))) && j.version == 1 && j.targetRoot == NEW_ROOT
    && SafeRoot(t, j.sourceRoot) && (j.sourceRoot == NEW_ROOT || HoldsNothing(Lstat(t, j.sourceRoot)))
  }

  lemma ReadableExactly(t: Tree, j: Journal)
    requires Lstat(t, JOURNAL) == Present(File(Json(AdoptionJournal(j)))) && Clear(t, NEW_ROOT)
    ensures ReadJournal(t) == Ok(Some(j)) <==> j.version == 1 && j.targetRoot == NEW_ROOT && SafeRoot(t, j.sourceRoot)
  {
    hide Lstat, Clear;
    assert CheckedChild(t, NEW_ROOT).Ok?;
  }

  // ---- Configurations -------------------------------------------------------------------

  /** The components of an absolute path as text. */
  function Spelled(parts: Path): string {
    if parts == [] then [] else Spelled(parts[..|parts| - 1]) + ['/'] + parts[|parts| - 1]
  }

  ghost predicate Proper(part: string) {
    part != [] && '/' !in part && part != "." && part != ".."
  }

  ghost predicate EndsIn(s: string, c: char) {
    s != [] && s[|s| - 1] == c
  }

  lemma {:induction false} SplitSpelled(front: string, part: string)
    requires '/' !in part
    ensures Split(front + ['/'] + part, '/') == Split(front, '/') + [part]
    decreases |front|
  {
    if front == [] {
      assert front + ['/'] + part == ['/'] + part && (['/'] + part)[1..] == part;
      SplitNone(part);
      assert [[]] + [part] == Split(front, '/') + [part];
    } else {
      var s := front + ['/'] + part;
      assert s[1..] == front[1..] + ['/'] + part && s[0] == front[0];
      SplitSpelled(front[1..], part);
      var rest := Split(front[1..], '/');
      assert (rest + [part])[0] == rest[0] && (rest + [part])[1..] == rest[1..] + [part];
    }
  }

  lemma {:induction false} SplitNone(s: string)
    requires '/' !in s
    ensures Split(s, '/') == [s]
  {
    if s != [] {
      assert s[0] in s && s == [s[0]] + s[1..];
      SplitNone(s[1..]);
    }
  }

  lemma {:induction false} SpelledParts(parts: Path)
    requires forall i :: 0 <= i < |parts| ==> Proper(parts[i])
    ensures Split(Spelled(parts), '/') == [[]] + parts
  {
    if parts == [] {
      assert [[]] + parts == [[]];
    } else {
      var n := |parts| - 1;
      SpelledParts(parts[..n]);
      SplitSpelled(Spelled(parts[..n]), parts[n]);
      assert [[]] + parts == [[]] + parts[..n] + [parts[n]];
    }
  }

  lemma {:induction false} NothingDropped(parts: Path)
    requires forall i :: 0 <= i < |parts| ==> parts[i] != []
    ensures NonEmptyParts(parts) == parts
  {
    if parts != [] {
      NothingDropped(parts[1..]);
      assert parts == [parts[0]] + parts[1..];
    }
  }

  /** Every proper root below the data directory that is reached without links and does not hold
      the keystore is found when the configuration spells it, white space around it or not. */
  lemma SpelledRootIsFound(dataDir: Path, t: Tree, root: Path, front: string, back: string, end: char)
    requires forall i :: 0 <= i < |dataDir| ==> Proper(dataDir[i])
    requires forall i :: 0 <= i < |root| ==> Proper(root[i])
    requires root != [] && Clear(t, root) && !(root <= KEYSTORE)
    requires Blank(front) && Blank(back) && EndsIn(root[|root| - 1], end) && !IsSpace(end)
    requires Lstat(t, CONFIG) == Present(File(Json(StorageConfig(front + Spelled(dataDir + root) + back))))
    ensures LegacyRoot(dataDir, t) == Ok(root)
  {
    hide Split, NonEmptyParts, Lstat, Clear, Trim, Spelled;
    var parts := dataDir + root;
    var text := Spelled(parts);
    forall i | 0 <= i < |parts| ensures Proper(parts[i]) {
      assert parts[i] == if i < |dataDir| then dataDir[i] else root[i - |dataDir|];
    }
    assert parts[|parts| - 1] == root[|root| - 1];
    SpelledEnds(parts, end);
    TrimPads(front, text, back);
    SpelledParts(parts);
    NothingDropped(parts);
    assert NonEmptyParts([[]] + parts) == parts by { DropFirst(parts); }
    assert parts[|dataDir|..] == root;
    NoTraversal(parts);
    NoTraversal(root);
  }

  lemma DropFirst(parts: Path)
    requires NonEmptyParts(parts) == parts
    ensures NonEmptyParts([[]] + parts) == parts
  {
    assert ([[]] + parts)[1..] == parts;
  }

  lemma NoTraversal(parts: Path)
    requires forall i :: 0 <= i < |parts| ==> Proper(parts[i])
    ensures !HasTraversal(parts) && !HasTraversal([[]] + parts) && "" !in parts
  {
    forall part | part in [[]] + parts ensures part != "." && part != ".." {
      assert part == [] || part in parts;
    }
    assert forall part :: part in parts ==> part != "";
  }

  lemma SpelledEnds(parts: Path, end: char)
    requires parts != [] && EndsIn(parts[|parts| - 1], end)
    ensures "/" <= Spelled(parts) && !IsSpace('/') && EndsIn(Spelled(parts), end)
  {
    SpelledStarts(parts);
  }

  lemma {:induction false} SpelledStarts(parts: Path)
    requires parts != []
    ensures Spelled(parts) != [] && Spelled(parts)[0] == '/'
  {
    if |parts| > 1 {
      SpelledStarts(parts[..|parts| - 1]);
    }
  }

  /** A configuration that does not resolve refuses, with the reason. */
  lemma UnresolvedRefuses(dataDir: Path, t: Tree, error: Error, env: Env, writes: nat)
    requires t.Dir? && Clear(t, NEW_ROOT) && LegacyRoot(dataDir, t) == Err(error)
    ensures Run(dataDir, t, env, writes) == Ran(t, Refused(error))
  {
    hide LegacyRoot, Lstat, ContainsStorage, Clear;
    assert CheckedChild(t, NEW_ROOT).Ok?;
  }

  /** The path a configuration gives. */
  ghost predicate Configured(t: Tree, path: string) {
    && Lstat(t, ["storage.json"]).Present? && Lstat(t, ["storage.json"]).node.File? && Lstat(t, ["storage.json"]).node.data.Json?
    && Lstat(t, ["storage.json"]).node.data.document.StorageConfig? && Trim(Lstat(t, ["storage.json"]).node.data.document.root) == path
    && path != []
  }

  /** Without a usable path, and without a link in its place, Tauri's own default is meant. */
  lemma DefaultWithoutPath(dataDir: Path, t: Tree)
    requires Lstat(t, ["storage.json"]) != Present(Link) && !exists path :: Configured(t, path)
    ensures LegacyRoot(dataDir, t) == if Clear(t, ["storage"]) then Ok(["storage"]) else Err(LegacyRootUnavailable)
  {
    hide Lstat, Clear, Trim;
    assert CheckedSource(t, DEFAULT_ROOT) == LegacyRoot(dataDir, t) by {
      match Lstat(t, ["storage.json"])
      case Present(File(Json(StorageConfig(root)))) => assert Trim(root) != [] ==> Configured(t, Trim(root));
      case _ =>
    }
    if Clear(t, DEFAULT_ROOT) {
      DefaultIsSafe(t);
    }
  }

  lemma LinkedConfigurationRefused(dataDir: Path, t: Tree, env: Env, writes: nat)
    requires t.Dir? && Clear(t, NEW_ROOT) && Lstat(t, ["storage.json"]) == Present(Link)
    ensures Run(dataDir, t, env, writes) == Ran(t, Refused(LegacyRootUnavailable))
  {
    hide Run, Lstat, Clear;
    UnresolvedRefuses(dataDir, t, LegacyRootUnavailable, env, writes);
  }

  lemma RelativePathRefused(dataDir: Path, t: Tree, path: string, env: Env, writes: nat)
    requires t.Dir? && Clear(t, NEW_ROOT) && Configured(t, path) && path[0] != '/'
    ensures Run(dataDir, t, env, writes) == Ran(t, Refused(LegacyRootOutsideDataDir))
  {
    hide Run, Lstat, Clear, Split, NonEmptyParts, Trim;
    UnresolvedRefuses(dataDir, t, LegacyRootOutsideDataDir, env, writes);
  }

  lemma TraversalRefused(dataDir: Path, t: Tree, path: string, env: Env, writes: nat)
    requires t.Dir? && Clear(t, NEW_ROOT) && Configured(t, path) && path[0] == '/'
    requires "." in Split(path, '/') || ".." in Split(path, '/')
    ensures Run(dataDir, t, env, writes) == Ran(t, Refused(LegacyRootUnavailable))
  {
    hide Run, Lstat, Clear, Split, NonEmptyParts, Trim;
    assert "/" <= path;
    UnresolvedRefuses(dataDir, t, LegacyRootUnavailable, env, writes);
  }

  lemma SpelledComponents(parts: Path, end: char)
    requires parts != [] && EndsIn(parts[|parts| - 1], end) && forall i :: 0 <= i < |parts| ==> Proper(parts[i])
    ensures "/" <= Spelled(parts) && !HasTraversal(Split(Spelled(parts), '/'))
    ensures NonEmptyParts(Split(Spelled(parts), '/')) == parts
  {
    hide Split, NonEmptyParts, Spelled;
    SpelledEnds(parts, end);
    SpelledParts(parts);
    NothingDropped(parts);
    DropFirst(parts);
    NoTraversal(parts);
  }

  /** A path beside the data directory, and one to the keystore or above it. */
  lemma ForbiddenPathRefused(dataDir: Path, t: Tree, parts: Path, end: char, env: Env, writes: nat)
    requires t.Dir? && Clear(t, NEW_ROOT) && Configured(t, Spelled(parts))
    requires parts != [] && EndsIn(parts[|parts| - 1], end) && forall i :: 0 <= i < |parts| ==> Proper(parts[i])
    ensures !(dataDir <= parts) ==> Run(dataDir, t, env, writes) == Ran(t, Refused(LegacyRootOutsideDataDir))
    ensures dataDir <= parts && parts[|dataDir|..] <= ["no_backup", "chromvoid-keystore"] ==>
              Run(dataDir, t, env, writes) == Ran(t, Refused(LegacyRootUnavailable))
  {
    hide Run, Lstat, Clear, Split, NonEmptyParts, Trim, Spelled;
    SpelledComponents(parts, end);
    if !(dataDir <= parts) {
      UnresolvedRefuses(dataDir, t, LegacyRootOutsideDataDir, env, writes);
    } else if parts[|dataDir|..] <= ["no_backup", "chromvoid-keystore"] {
      UnresolvedRefuses(dataDir, t, LegacyRootUnavailable, env, writes);
    }
  }
}
