/** One-time adoption of a Tauri storage root: a journaled, resumable move of the vault into the
    root Air uses. A run is a function of the tree it starts from, of what it finds outside the
    tree, and of how many durable writes it makes before the process dies.
 */
module Adoption {
  import opened Common
  import opened Text
  import opened StorageTree
  import opened StorageCheck

  const JOURNAL: Path := ["air-adoption.json"]
  const CONFIG: Path := ["storage.json"]
  const DEFAULT_ROOT: Path := ["storage"]
  /** The fixed root, two levels below the data directory. */
  const FILES: Path := ["files"]
  const NEW_ROOT: Path := ["files", "ChromVoidAir"]
  const KEYSTORE: Path := ["no_backup", "chromvoid-keystore"]
  const DISPOSABLE := ["logs", "app_webview", "cache"]

  datatype Error =
    | Blocked | LegacyRootOutsideDataDir | LegacyRootUnavailable
    | PepperUnavailable | StorageUnavailable | ActionForbidden

  datatype Result<T> = Ok(value: T) | Err(error: Error)

  // ---- Paths ----------------------------------------------------------------------------

  function NonEmptyParts(parts: seq<string>): Path {
    if parts == [] then []
    else (if parts[0] == [] then [] else [parts[0]]) + NonEmptyParts(parts[1..])
  }

  predicate HasTraversal(parts: seq<string>) {
    "." in parts || ".." in parts
  }

  /** A path relative to the data directory, accepted when it is proper, strictly below it, and
      meets no link on the way. */
  function CheckedChild(t: Tree, p: Path): Result<Path> {
    if HasTraversal(p) || "" in p || p == [] || !Clear(t, p) then Err(LegacyRootUnavailable) else Ok(p)
  }

  function CheckedSource(t: Tree, p: Path): Result<Path> {
    var child := CheckedChild(t, p);
    if child.Ok? && p <= KEYSTORE then Err(LegacyRootUnavailable) else child
  }

  /** An absolute path in text, below the data directory given by its components. */
  function CheckedOverride(dataDir: Path, t: Tree, text: string): Result<Path> {
    var parts := Split(text, '/');
    var components := NonEmptyParts(parts);
    if !("/" <= text) then Err(LegacyRootOutsideDataDir)
    else if HasTraversal(parts) then Err(LegacyRootUnavailable)
    else if !(dataDir <= components) then Err(LegacyRootOutsideDataDir)
    else CheckedSource(t, components[|dataDir|..])
  }

  /** `legacy_root`: the configured root, or Tauri's default without a usable configuration. */
  function LegacyRoot(dataDir: Path, t: Tree): Result<Path> {
    match Lstat(t, CONFIG)
    case Present(Link) => Err(LegacyRootUnavailable)
    case Present(File(Json(StorageConfig(root)))) =>
      if Trim(root) == [] then CheckedSource(t, DEFAULT_ROOT) else CheckedOverride(dataDir, t, Trim(root))
    case _ => CheckedSource(t, DEFAULT_ROOT)
  }

  // ---- The journal ----------------------------------------------------------------------

  function ReadJournal(t: Tree): Result<Option<Journal>> {
    match Lstat(t, JOURNAL)
    case Missing => Ok(None)
    case Present(File(Json(AdoptionJournal(journal)))) =>
      if journal.version != 1 || journal.targetRoot != NEW_ROOT then Err(StorageUnavailable)
      else
        var source := CheckedSource(t, journal.sourceRoot);
        var target := CheckedChild(t, NEW_ROOT);
        if source.Err? then Err(source.error)
        else if target.Err? then Err(target.error)
        else Ok(Some(journal))
    case _ => Err(StorageUnavailable)
  }

  /** What `save_journal` writes: the step is appended unless it is the last one recorded. */
  function Recorded(j: Journal): Journal {
    if j.steps != [] && j.steps[|j.steps| - 1] == j.step then j else j.(steps := j.steps + [j.step])
  }

  function SaveJournal(t: Tree, j: Journal): Tree {
    Put(t, JOURNAL, File(Json(AdoptionJournal(Recorded(j)))))
  }

  function NewJournal(source: Path): Journal {
    Journal(1, source, NEW_ROOT, Prepared, [], false, [])
  }

  // ---- Admission ------------------------------------------------------------------------

  /** How the listings of the three probed roots turn out, should the order matter. */
  datatype Luck = Luck(configured: bool, source: bool, target: bool)

  const LUCKY := Luck(false, false, false)

  datatype Outcome = Finished | Refused(error: Error) | Interrupted

  datatype Admission =
    | Stop(outcome: Outcome)
    | Go(source: Path, inPlace: bool, sourceHas: bool, journal: Option<Journal>)

  function EmptyOrMissing(s: Stat): bool {
    s == Missing || s == Present(Dir(map[]))
  }

  /** Everything the adoption decides before it writes. */
  function Admit(dataDir: Path, t: Tree, luck: Luck): Admission {
    var configured, journal := LegacyRoot(dataDir, t), ReadJournal(t);
    if !t.Dir? then Stop(Refused(LegacyRootUnavailable))
    else if CheckedChild(t, NEW_ROOT).Err? then Stop(Refused(CheckedChild(t, NEW_ROOT).error))
    else if configured.Err? then Stop(Refused(configured.error))
    else if journal.Err? then Stop(Refused(journal.error))
    else AdmitRoots(t, configured.value, journal.value, luck)
  }

  function AdmitRoots(t: Tree, configured: Path, journal: Option<Journal>, luck: Luck): Admission {
    var source := if journal.Some? then journal.value.sourceRoot else configured;
    var other := if configured == source || configured == NEW_ROOT then Lacks
                 else ContainsStorage(Lstat(t, configured), luck.configured);
    var inPlace := source == NEW_ROOT;
    if other == Fails then Stop(Refused(StorageUnavailable))
    else if other == Holds then Stop(Refused(Blocked))
    else if !inPlace && (source <= NEW_ROOT || NEW_ROOT <= source) then Stop(Refused(LegacyRootUnavailable))
    else
      var sourceHas := ContainsStorage(Lstat(t, source), luck.source);
      var targetHas := ContainsStorage(Lstat(t, NEW_ROOT), luck.target);
      if sourceHas == Fails || targetHas == Fails then Stop(Refused(StorageUnavailable))
      else AdmitVault(t, source, sourceHas == Holds, targetHas == Holds, journal)
  }

  function AdmitVault(t: Tree, source: Path, sourceHas: bool, targetHas: bool, journal: Option<Journal>): Admission {
    var inPlace := source == NEW_ROOT;
    if !inPlace && sourceHas && targetHas then Stop(Refused(Blocked))
    else if !sourceHas && journal == None then Stop(Finished)
    else if journal.Some? && journal.value.step == Complete && (!sourceHas || inPlace) then Stop(Finished)
    else if !inPlace && sourceHas && !EmptyOrMissing(Lstat(t, NEW_ROOT)) then Stop(Refused(StorageUnavailable))
    else if !sourceHas && !targetHas then Stop(Refused(StorageUnavailable))
    else Go(source, inPlace, sourceHas, journal)
  }

  // ---- The phases of a run --------------------------------------------------------------

  /** What a run leaves behind and how it ended. */
  datatype Ran = Ran(tree: Tree, outcome: Outcome)

  /** The vault moved; the rename is one durable write. */
  function Moved(t: Tree, source: Path): Tree {
    if source == [] || !Lstat(t, source).Present? then t
    else Put(Remove(t, source), NEW_ROOT, Lstat(t, source).node)
  }

  ghost predicate TargetVerified(t: Tree) {
    Lstat(t, NEW_ROOT).Present? && Verified(Lstat(t, NEW_ROOT).node)
  }

  const TAURI_HOST := "mobile_host_mode.json"
  const IOS_HOST := "ios_host_mode.json"

  /** `convert_host_mode`: the root afterwards, and whether settings were found. Existing iOS
      settings are kept. */
  function ConvertHostMode(root: Tree): Result<(Tree, bool)> {
    if !root.Dir? then Err(StorageUnavailable)
    else if TAURI_HOST !in root.entries then Ok((root, false))
    else
      match root.entries[TAURI_HOST]
      case File(Json(TauriHost(relay, enabled, updatedAt))) =>
        if IOS_HOST !in root.entries then
          Ok((Dir(root.entries[IOS_HOST := File(Json(IosHost(relay, enabled, updatedAt)))]), true))
        else if root.entries[IOS_HOST].Link? then Err(StorageUnavailable)
        else Ok((root, true))
      case _ => Err(StorageUnavailable)
  }

  /** A disposable directory that can be removed; anything else of that name is left alone. */
  predicate Removable(t: Tree, name: string) {
    IsDir(Lstat(t, [name]))
  }

  predicate CleanupFails(t: Tree, name: string) {
    Lstat(t, [name]).Present? && !Removable(t, name)
  }

  /** `cleanup_disposable` from the `k`-th name on, then the last journal write. Removing one
      directory is one durable write. */
  function Tidy(t: Tree, j: Journal, k: nat, failed: seq<string>, writes: nat): Ran
    requires k <= |DISPOSABLE|
    decreases |DISPOSABLE| - k
  {
    if k == |DISPOSABLE| then
      if writes == 0 then Ran(t, Interrupted)
      else Ran(SaveJournal(t, j.(cleanupFailed := failed, step := Complete)), Finished)
    else if Removable(t, DISPOSABLE[k]) then
      if writes == 0 then Ran(t, Interrupted)
      else Tidy(Remove(t, [DISPOSABLE[k]]), j, k + 1, failed, writes - 1)
    else
      Tidy(t, j, k + 1, if CleanupFails(t, DISPOSABLE[k]) then failed + [DISPOSABLE[k]] else failed, writes)
  }

  function AfterSettings(t: Tree, j: Journal, writes: nat): Ran {
    if j.step == HostModeConverted then Tidy(t, j, 0, [], writes) else Ran(t, Finished)
  }

  function Settings(t: Tree, j: Journal, writes: nat): Ran {
    if j.step != Renamed && j.step != InPlaceVerified then AfterSettings(t, j, writes)
    else if !Lstat(t, NEW_ROOT).Present? then Ran(t, Refused(StorageUnavailable))
    else
      var root := Lstat(t, NEW_ROOT).node;
      match ConvertHostMode(root)
      case Err(error) => Ran(t, Refused(error))
      case Ok((converted, found)) =>
        var next := Recorded(j.(deviceLabelDropped := found, step := HostModeConverted));
        if converted == root then
          if writes == 0 then Ran(t, Interrupted)
          else AfterSettings(SaveJournal(t, next), next, writes - 1)
        else if writes == 0 then Ran(t, Interrupted)
        else if writes == 1 then Ran(Put(t, NEW_ROOT, converted), Interrupted)
        else AfterSettings(SaveJournal(Put(t, NEW_ROOT, converted), next), next, writes - 2)
  }

  function Advance(t: Tree, inPlace: bool, j: Journal, writes: nat): Ran {
    if j.step != Prepared then Settings(t, j, writes)
    else if writes == 0 then Ran(t, Interrupted)
    else
      var next := Recorded(j.(step := if inPlace then InPlaceVerified else Renamed));
      Settings(SaveJournal(t, next), next, writes - 1)
  }

  /** The moved vault is verified before anything else is written. */
  ghost function Confirm(t: Tree, inPlace: bool, j: Journal, pepper: bool, writes: nat): Ran {
    if !inPlace && !TargetVerified(t) then Ran(t, Refused(StorageUnavailable))
    else if !inPlace && !pepper then Ran(t, Refused(PepperUnavailable))
    else Advance(t, inPlace, j, writes)
  }

  ghost function Relocate(t: Tree, source: Path, inPlace: bool, sourceHas: bool, j: Journal, pepper: bool, writes: nat): Ran {
    if !sourceHas || inPlace then Confirm(t, inPlace, j, pepper, writes)
    else if !IsDir(Lstat(t, FILES)) then Ran(t, Refused(StorageUnavailable))
    else if writes == 0 then Ran(t, Interrupted)
    else Confirm(Moved(t, source), inPlace, j, pepper, writes - 1)
  }

  ghost function Begin(t: Tree, source: Path, inPlace: bool, sourceHas: bool, journal: Option<Journal>,
                       pepper: bool, writes: nat): Ran
  {
    match journal
    case Some(j) => Relocate(t, source, inPlace, sourceHas, j, pepper, writes)
    case None =>
      var j := Recorded(NewJournal(source));
      if writes == 0 then Ran(t, Interrupted)
      else Relocate(SaveJournal(t, j), source, inPlace, sourceHas, j, pepper, writes - 1)
  }

  /** What a run meets outside the tree. */
  datatype Env = Env(pepper: bool, luck: Luck)

  const GOOD := Env(true, LUCKY)

  /** More writes than any run makes. */
  const ENOUGH: nat := 9

  /** One adoption run, cut short after `writes` durable writes. Interrupting it at a checkpoint
      of the source is one of these cuts. */
  ghost function Run(dataDir: Path, t: Tree, env: Env, writes: nat): Ran {
    match Admit(dataDir, t, env.luck)
    case Stop(outcome) => Ran(t, outcome)
    case Go(source, inPlace, sourceHas, journal) =>
      if inPlace && !TargetVerified(t) then Ran(t, Refused(StorageUnavailable))
      else if inPlace && !env.pepper then Ran(t, Refused(PepperUnavailable))
      else Begin(t, source, inPlace, sourceHas, journal, env.pepper, writes)
  }

  // ---- The guard ------------------------------------------------------------------------

  /** A legacy root that is not Air's own must be shown to hold no storage. */
  predicate NoVaultAt(t: Tree, root: Path, unlucky: bool) {
    root == NEW_ROOT || ContainsStorage(Lstat(t, root), unlucky) == Lacks
  }

  /** `check_destructive_allowed`. */
  predicate DestructiveAllowed(dataDir: Path, t: Tree, luck: Luck) {
    && t.Dir?
    && CheckedChild(t, NEW_ROOT).Ok?
    && LegacyRoot(dataDir, t).Ok? && NoVaultAt(t, LegacyRoot(dataDir, t).value, luck.configured)
    && ReadJournal(t).Ok?
    && (ReadJournal(t).value.Some? ==> NoVaultAt(t, ReadJournal(t).value.value.sourceRoot, luck.source))
  }
}
