/** What every tree reached by adoption runs has in common with the one they started from: the
    vault, the journal's history, and everything the adoption has no business with.
 */
module AdoptionSafety {
  import opened Common
  import opened Text
  import opened StorageTree
  import opened StorageCheck
  import opened Adoption
  import opened AdoptionChain
  import opened AdoptionWrites
  import opened AdoptionRuns

  // ---- The invariant --------------------------------------------------------------------

  /** One vault at the configured root, an empty or missing target, and no journal yet. */
  ghost predicate Start(dataDir: Path, t: Tree, source: Path, vault: Tree) {
    && t.Dir? && Lstat(t, JOURNAL) == Missing && Clear(t, NEW_ROOT)
    && LegacyRoot(dataDir, t) == Ok(source)
    && (source == NEW_ROOT || Unrelated(source, NEW_ROOT))
    && (source == NEW_ROOT || Lstat(t, NEW_ROOT) == Missing || Lstat(t, NEW_ROOT) == Present(Dir(map[])))
    && Lstat(t, source) == Present(vault) && ContainsStorage(Present(vault), false) == Holds
  }

  /** Every entry of the vault is there, unchanged, and at most the iOS settings are new. */
  ghost predicate SameVault(w: Tree, vault: Tree) {
    && w.Dir? && vault.Dir?
    && (forall name :: name in vault.entries ==> name in w.entries && w.entries[name] == vault.entries[name])
    && (forall name :: name in w.entries ==> name in vault.entries || name == IOS_HOST)
  }

  ghost predicate AtSource(t: Tree, source: Path, vault: Tree) {
    source != NEW_ROOT && Lstat(t, source) == Present(vault) && EmptyOrMissing(Lstat(t, NEW_ROOT))
  }

  ghost predicate AtTarget(t: Tree, source: Path, vault: Tree) {
    && (source != NEW_ROOT ==> Lstat(t, source) == Missing)
    && Lstat(t, NEW_ROOT).Present? && SameVault(Lstat(t, NEW_ROOT).node, vault)
  }

  /** The history that leads to a step. */
  function Track(step: Step, inPlace: bool): seq<Step> {
    var placed := if inPlace then InPlaceVerified else Renamed;
    match step
    case Prepared => [Prepared]
    case Renamed => [Prepared, placed]
    case InPlaceVerified => [Prepared, placed]
    case HostModeConverted => [Prepared, placed, HostModeConverted]
    case Complete => [Prepared, placed, HostModeConverted, Complete]
  }

  ghost predicate GoodJournal(j: Journal, source: Path) {
    && j.version == 1 && j.sourceRoot == source && j.targetRoot == NEW_ROOT
    && j.steps == Track(j.step, source == NEW_ROOT)
    && (j.step == Renamed ==> source != NEW_ROOT)
    && (j.step == InPlaceVerified ==> source == NEW_ROOT)
  }

  /** A place a vault can be in and be moved from. */
  ghost predicate Placeable(t: Tree, source: Path) {
    && t.Dir? && Clear(t, NEW_ROOT) && CheckedSource(t, source) == Ok(source) && Apart(source)
    && (source == NEW_ROOT || Unrelated(source, NEW_ROOT))
  }

  /** The vault is in exactly one place, and the journal tells a true story about it. Without a
      journal the configuration still names the vault. */
  ghost predicate Kept(dataDir: Path, t: Tree, source: Path, vault: Tree) {
    && Placeable(t, source)
    && (AtSource(t, source, vault) || AtTarget(t, source, vault))
    && (Lstat(t, JOURNAL) == Missing ==> LegacyRoot(dataDir, t) == Ok(source))
    && (Lstat(t, JOURNAL) != Missing ==> JournalOf(t).Some? && GoodJournal(JournalOf(t).value, source))
    && (source != NEW_ROOT && AtTarget(t, source, vault) ==> JournalOf(t).Some?)
    && (AtSource(t, source, vault) && JournalOf(t).Some? ==> JournalOf(t).value.step == Prepared)
  }

  // ---- It holds at the start ------------------------------------------------------------

  lemma StartAdmits(dataDir: Path, t: Tree, source: Path, vault: Tree)
    requires Start(dataDir, t, source, vault)
    ensures Admit(dataDir, t, LUCKY) == Go(source, source == NEW_ROOT, true, None)
  {
    assert CheckedSource(t, source) == Ok(source);
    assert CheckedChild(t, NEW_ROOT).Ok?;
    if source != NEW_ROOT {
      EmptyLacks(t);
    }
  }

  lemma EmptyLacks(t: Tree)
    requires EmptyOrMissing(Lstat(t, NEW_ROOT))
    ensures ContainsStorage(Lstat(t, NEW_ROOT), false) == Lacks
  {
    NothingThere(0);
  }

  lemma {:induction false} NothingThere(k: nat)
    requires k <= |MARKERS|
    ensures ProbeMarkers(map[], k, false) == Lacks
    decreases |MARKERS| - k
  {
    if k < |MARKERS| {
      NothingThere(k + 1);
    }
  }

  lemma StartIsKept(dataDir: Path, t: Tree, source: Path, vault: Tree)
    requires Start(dataDir, t, source, vault)
    ensures Sound(dataDir, t) && Kept(dataDir, t, source, vault) && Located(dataDir, t, source)
  {
    StartAdmits(dataDir, t, source, vault);
    SourceApart(dataDir, t);
  }

  // ---- Every write keeps it -------------------------------------------------------------

  lemma SaveKeeps(dataDir: Path, t: Tree, source: Path, vault: Tree, j: Journal)
    requires Kept(dataDir, t, source, vault) && GoodJournal(Recorded(j), source)
    requires AtSource(t, source, vault) ==> j.step == Prepared
    ensures Kept(dataDir, SaveJournal(t, j), source, vault)
  {
    hide LegacyRoot, Put, SameVault;
    SavedHere(t, j);
    SavedElsewhere(t, j, source);
    SavedElsewhere(t, j, NEW_ROOT);
  }

  lemma MoveKeeps(dataDir: Path, t: Tree, source: Path, vault: Tree)
    requires Kept(dataDir, t, source, vault) && Moves(source, t, Moved(t, source))
    ensures Kept(dataDir, Moved(t, source), source, vault)
  {
    hide LegacyRoot, Put, Remove;
    MovedWhere(t, source);
    MovedElsewhere(t, source, JOURNAL);
  }

  lemma ConvertKeeps(dataDir: Path, t: Tree, source: Path, vault: Tree, converted: Tree)
    requires Kept(dataDir, t, source, vault) && HasFormat(t) && JournalOf(t).Some?
    requires ConvertHostMode(Lstat(t, NEW_ROOT).node).Ok? && converted == ConvertHostMode(Lstat(t, NEW_ROOT).node).value.0
    ensures Kept(dataDir, Put(t, NEW_ROOT, converted), source, vault)
    ensures SameVault(converted, vault)
  {
    hide LegacyRoot, Put;
    ConvertedWhere(t, converted);
    PutElsewhere(t, NEW_ROOT, converted, JOURNAL);
    if source != NEW_ROOT {
      PutElsewhere(t, NEW_ROOT, converted, source);
    }
  }

  lemma RemoveKeeps(dataDir: Path, t: Tree, source: Path, vault: Tree, name: string)
    requires Kept(dataDir, t, source, vault) && AtTarget(t, source, vault) && JournalOf(t).Some? && name in DISPOSABLE
    ensures Kept(dataDir, Remove(t, [name]), source, vault)
  {
    hide LegacyRoot, Remove;
    RemovedElsewhere(t, name, JOURNAL);
    RemovedElsewhere(t, name, NEW_ROOT);
    RemovedElsewhere(t, name, source);
  }

  lemma FormatIsAtTarget(dataDir: Path, t: Tree, source: Path, vault: Tree)
    requires Kept(dataDir, t, source, vault) && HasFormat(t)
    ensures AtTarget(t, source, vault) && !AtSource(t, source, vault)
  {
  }

  lemma ChangeKeeps(dataDir: Path, t: Tree, u: Tree, source: Path, vault: Tree)
    requires Kept(dataDir, t, source, vault) && Change(source, t, u)
    ensures Kept(dataDir, u, source, vault)
  {
    hide AtTarget, AtSource, Lstat, Put, Remove, LegacyRoot, Placeable;
    if Creates(source, t, u) {
      SaveKeeps(dataDir, t, source, vault, NewJournal(source));
    } else if Moves(source, t, u) {
      MoveKeeps(dataDir, t, source, vault);
    } else if Saves(source, t, u) {
      FormatIsAtTarget(dataDir, t, source, vault);
      var k :| SavesAs(source, t, u, k);
      SaveKeeps(dataDir, t, source, vault, k);
    } else if Converts(t, u) {
      ConvertKeeps(dataDir, t, source, vault, ConvertHostMode(Lstat(t, NEW_ROOT).node).value.0);
    } else {
      FormatIsAtTarget(dataDir, t, source, vault);
      var i: nat :| RemovesAt(t, u, i);
      RemoveKeeps(dataDir, t, source, vault, DISPOSABLE[i]);
    }
  }

  lemma {:induction false} LeadsKeeps(dataDir: Path, t: Tree, u: Tree, source: Path, vault: Tree, n: nat)
    requires Kept(dataDir, t, source, vault) && Leads(source, t, u, n)
    ensures Kept(dataDir, u, source, vault)
    decreases n
  {
    hide Kept, Change;
    if t != u {
      var between :| Change(source, t, between) && Leads(source, between, u, n - 1);
      ChangeKeeps(dataDir, t, between, source, vault);
      LeadsKeeps(dataDir, between, u, source, vault, n - 1);
    }
  }

  /** A run is admitted, if at all, for the source the vault came from. */
  lemma SameSource(dataDir: Path, t: Tree, source: Path, vault: Tree, luck: Luck)
    requires Kept(dataDir, t, source, vault) && Admit(dataDir, t, luck).Go?
    ensures Admit(dataDir, t, luck).source == source
  {
    hide Admit, Admitted;
    GoAdmits(dataDir, t, luck);
  }

  lemma RunKeeps(dataDir: Path, t: Tree, env: Env, writes: nat, source: Path, vault: Tree)
    requires Kept(dataDir, t, source, vault)
    ensures Kept(dataDir, Run(dataDir, t, env, writes).tree, source, vault)
  {
    hide Kept, Admit, Run, Leads;
    RunLeads(dataDir, t, env, writes);
    if Admit(dataDir, t, env.luck).Go? {
      SameSource(dataDir, t, source, vault, env.luck);
      LeadsKeeps(dataDir, t, Run(dataDir, t, env, writes).tree, source, vault, writes);
    }
  }

  // ---- Runs, torn removals and a configuration that changes -----------------------------

  /** The tree with its configuration file replaced or removed behind the adoption's back. */
  function Repointed(t: Tree, config: Option<Tree>): Tree {
    if config.Some? then Put(t, CONFIG, config.value) else Remove(t, CONFIG)
  }

  lemma RepointedElsewhere(t: Tree, config: Option<Tree>, q: Path)
    requires t.Dir? && q != [] && q[0] != CONFIG[0]
    ensures Repointed(t, config).Dir? && SameAt(t, Repointed(t, config), q)
  {
    if config.Some? {
      PutElsewhere(t, CONFIG, config.value, q);
    } else {
      RemoveElsewhere(t, CONFIG, q);
    }
  }

  /** One thing after another that can happen to a data directory: a run, cut anywhere; a removal
      that began and left some of a disposable directory; and, once there is a journal, any
      change of `storage.json`. */
  datatype Turn =
    | Attempted(env: Env, writes: nat)
    | Tear(name: string, left: Tree)
    | Repoint(config: Option<Tree>)

  ghost predicate CanTear(t: Tree, name: string, left: Tree) {
    && JournalOf(t).Some? && JournalOf(t).value.step == HostModeConverted && HasFormat(t)
    && t.Dir? && name in DISPOSABLE && name in t.entries && left.Dir? && Pruned(left, t.entries[name])
  }

  ghost function AfterTurn(dataDir: Path, t: Tree, turn: Turn): Tree {
    match turn
    case Attempted(env, writes) => Run(dataDir, t, env, writes).tree
    case Tear(name, left) => if CanTear(t, name, left) then Dir(t.entries[name := left]) else t
    case Repoint(config) => if t.Dir? && JournalOf(t).Some? then Repointed(t, config) else t
  }

  ghost function AfterTurns(dataDir: Path, t: Tree, turns: seq<Turn>): Tree {
    if turns == [] then t
    else AfterTurn(dataDir, AfterTurns(dataDir, t, turns[..|turns| - 1]), turns[|turns| - 1])
  }

  lemma TearKeeps(dataDir: Path, t: Tree, source: Path, vault: Tree, name: string, left: Tree)
    requires Kept(dataDir, t, source, vault) && CanTear(t, name, left)
    ensures Kept(dataDir, Dir(t.entries[name := left]), source, vault)
  {
    hide LegacyRoot;
    var u := Dir(t.entries[name := left]);
    FormatIsAtTarget(dataDir, t, source, vault);
    assert TornTo(t, u, name, left);
    TornElsewhere(t, u, name, left, JOURNAL);
    TornElsewhere(t, u, name, left, NEW_ROOT);
    TornElsewhere(t, u, name, left, source);
    if source[0] == name {
      PrunedAt(left, t.entries[name], source[1..]);
    }
  }

  lemma RepointKeeps(dataDir: Path, t: Tree, source: Path, vault: Tree, config: Option<Tree>)
    requires Kept(dataDir, t, source, vault) && JournalOf(t).Some?
    ensures Kept(dataDir, Repointed(t, config), source, vault)
  {
    hide LegacyRoot, Repointed;
    RepointedElsewhere(t, config, source);
    RepointedElsewhere(t, config, JOURNAL);
    RepointedElsewhere(t, config, NEW_ROOT);
  }

  lemma TurnKeeps(dataDir: Path, t: Tree, source: Path, vault: Tree, turn: Turn)
    requires Kept(dataDir, t, source, vault)
    ensures Kept(dataDir, AfterTurn(dataDir, t, turn), source, vault)
  {
    hide Kept, Run, Repointed, CanTear, Lstat;
    match turn
    case Attempted(env, writes) => RunKeeps(dataDir, t, env, writes, source, vault);
    case Tear(name, left) => if CanTear(t, name, left) { TearKeeps(dataDir, t, source, vault, name, left); }
    case Repoint(config) => if t.Dir? && JournalOf(t).Some? { RepointKeeps(dataDir, t, source, vault, config); }
  }

  /** Vault conservation: in every tree that any number of runs, cut anywhere, with the
      configuration repointed at will once there is a journal, can leave, the vault is in exactly
      one root with every entry unchanged. */
  lemma {:induction false} VaultConservation(dataDir: Path, t0: Tree, source: Path, vault: Tree, turns: seq<Turn>)
    requires Start(dataDir, t0, source, vault)
    ensures Kept(dataDir, AfterTurns(dataDir, t0, turns), source, vault)
    decreases |turns|
  {
    hide Kept, AfterTurn;
    if turns == [] {
      StartIsKept(dataDir, t0, source, vault);
    } else {
      VaultConservation(dataDir, t0, source, vault, turns[..|turns| - 1]);
      TurnKeeps(dataDir, AfterTurns(dataDir, t0, turns[..|turns| - 1]), source, vault, turns[|turns| - 1]);
    }
  }

  /** Attempts as they were cut, with the removals they tore, are such turns. */
  lemma {:induction false} AttemptsAreTurns(dataDir: Path, t0: Tree, attempts: seq<Attempt>) returns (turns: seq<Turn>)
    ensures AfterTurns(dataDir, t0, turns) == AfterAttempts(dataDir, t0, attempts)
    ensures forall turn :: turn in turns ==> !turn.Repoint?
    decreases |attempts|
  {
    hide Run;
    turns := [];
    if attempts != [] {
      var a := attempts[|attempts| - 1];
      turns := AttemptsAreTurns(dataDir, t0, attempts[..|attempts| - 1]);
      var t := AfterAttempts(dataDir, t0, attempts[..|attempts| - 1]);
      turns := OneMore(dataDir, t0, turns, Attempted(a.env, a.writes));
      var u := Run(dataDir, t, a.env, a.writes).tree;
      if AfterAttempt(dataDir, t, a) != u {
        var j, i: nat :| Torn(dataDir, u, a.torn.value, j, i);
        var left := TornIsTear(dataDir, u, a.torn.value, j, i);
        turns := OneMore(dataDir, t0, turns, Tear(DISPOSABLE[i], left));
      }
    }
  }

  lemma OneMore(dataDir: Path, t0: Tree, turns: seq<Turn>, turn: Turn) returns (more: seq<Turn>)
    ensures more == turns + [turn]
    ensures AfterTurns(dataDir, t0, more) == AfterTurn(dataDir, AfterTurns(dataDir, t0, turns), turn)
  {
    more := turns + [turn];
    assert more[..|turns|] == turns;
  }

  lemma TornIsTear(dataDir: Path, t: Tree, u: Tree, j: Journal, i: nat) returns (left: Tree)
    requires Torn(dataDir, t, u, j, i)
    ensures CanTear(t, DISPOSABLE[i], left) && u == Dir(t.entries[DISPOSABLE[i] := left])
  {
    GoProbes(dataDir, t);
    left :| TornTo(t, u, DISPOSABLE[i], left);
  }

  /** So conservation holds after any attempts. */
  lemma AttemptsKeep(dataDir: Path, t0: Tree, source: Path, vault: Tree, attempts: seq<Attempt>)
    requires Start(dataDir, t0, source, vault)
    ensures Kept(dataDir, AfterAttempts(dataDir, t0, attempts), source, vault)
  {
    hide Kept, Start;
    var turns := AttemptsAreTurns(dataDir, t0, attempts);
    VaultConservation(dataDir, t0, source, vault, turns);
  }

  // ---- Journals only advance ------------------------------------------------------------

  ghost function StepsOf(t: Tree): seq<Step> {
    if JournalOf(t).Some? then JournalOf(t).value.steps else []
  }

  lemma ChangeAdvances(source: Path, t: Tree, u: Tree)
    requires Change(source, t, u)
    ensures StepsOf(t) <= StepsOf(u) && JournalOf(u).Some?
  {
    hide Put, Remove, Lstat;
    forall j ensures JournalOf(SaveJournal(t, j)) == Some(Recorded(j)) {
      SavedHere(t, j);
    }
    if Moves(source, t, u) {
      MovedElsewhere(t, source, JOURNAL);
    } else if Saves(source, t, u) {
      var k :| SavesAs(source, t, u, k);
    } else if Converts(t, u) {
      PutElsewhere(t, NEW_ROOT, ConvertHostMode(Lstat(t, NEW_ROOT).node).value.0, JOURNAL);
    } else if Removes(t, u) {
      var i: nat :| RemovesAt(t, u, i);
      RemovedElsewhere(t, DISPOSABLE[i], JOURNAL);
    }
  }

  lemma {:induction false} LeadsAdvances(source: Path, t: Tree, u: Tree, n: nat)
    requires Leads(source, t, u, n)
    ensures StepsOf(t) <= StepsOf(u)
    ensures t == u || JournalOf(u).Some?
    decreases n
  {
    hide Change, StepsOf;
    if t != u {
      var between :| Change(source, t, between) && Leads(source, between, u, n - 1);
      ChangeAdvances(source, t, between);
      LeadsAdvances(source, between, u, n - 1);
    }
  }

  lemma TurnAdvances(dataDir: Path, t: Tree, turn: Turn)
    ensures StepsOf(t) <= StepsOf(AfterTurn(dataDir, t, turn))
  {
    hide Run, Repointed, Leads, Lstat, Admit;
    match turn
    case Attempted(env, writes) =>
      RunLeads(dataDir, t, env, writes);
      if Admit(dataDir, t, env.luck).Go? {
        LeadsAdvances(Admit(dataDir, t, env.luck).source, t, Run(dataDir, t, env, writes).tree, writes);
      }
    case Tear(name, left) =>
      if CanTear(t, name, left) {
        assert TornTo(t, Dir(t.entries[name := left]), name, left);
        TornElsewhere(t, Dir(t.entries[name := left]), name, left, JOURNAL);
      }
    case Repoint(config) =>
      if t.Dir? {
        RepointedElsewhere(t, config, JOURNAL);
      }
  }

  /** From any tree, whatever happens, a journal is never lost or rewound: the steps recorded
      later continue those recorded before. */
  lemma {:induction false} JournalsAdvance(dataDir: Path, t0: Tree, turns: seq<Turn>, more: seq<Turn>)
    ensures StepsOf(AfterTurns(dataDir, t0, turns)) <= StepsOf(AfterTurns(dataDir, t0, turns + more))
    decreases |more|
  {
    hide StepsOf, AfterTurn;
    if more == [] {
      assert turns + more == turns;
    } else {
      var less := more[..|more| - 1];
      assert (turns + more)[..|turns + more| - 1] == turns + less;
      JournalsAdvance(dataDir, t0, turns, less);
      TurnAdvances(dataDir, AfterTurns(dataDir, t0, turns + less), more[|more| - 1]);
    }
  }

  // ---- What the adoption has no business with -------------------------------------------

  /** A path apart from the target, the journal and the disposable directories. */
  predicate Foreign(q: Path) {
    Unrelated(q, NEW_ROOT) && q != [] && q[0] != JOURNAL[0] && q[0] !in DISPOSABLE
  }

  lemma ChangeSpares(source: Path, t: Tree, u: Tree, q: Path)
    requires Change(source, t, u) && Foreign(q) && (Moves(source, t, u) ==> Unrelated(q, source))
    ensures Lstat(u, q) == Lstat(t, q)
  {
    hide Put, Remove, Lstat;
    forall j ensures Lstat(SaveJournal(t, j), q) == Lstat(t, q) {
      SavedElsewhere(t, j, q);
    }
    if Moves(source, t, u) {
      MovedElsewhere(t, source, q);
    } else if Saves(source, t, u) {
      var k :| SavesAs(source, t, u, k);
    } else if Converts(t, u) {
      PutElsewhere(t, NEW_ROOT, ConvertHostMode(Lstat(t, NEW_ROOT).node).value.0, q);
    } else if Removes(t, u) {
      var i: nat :| RemovesAt(t, u, i);
      RemovedElsewhere(t, DISPOSABLE[i], q);
    }
  }

  lemma {:induction false} LeadsSpares(source: Path, t: Tree, u: Tree, n: nat, q: Path)
    requires Leads(source, t, u, n) && Foreign(q) && Unrelated(q, source)
    ensures Lstat(u, q) == Lstat(t, q)
    decreases n
  {
    hide Change, Lstat;
    if t != u {
      var between :| Change(source, t, between) && Leads(source, between, u, n - 1);
      ChangeSpares(source, t, between, q);
      LeadsSpares(source, between, u, n - 1, q);
    }
  }

  /** Torn removals and repointed configurations happen elsewhere too. */
  lemma OtherTurnsSpare(dataDir: Path, t: Tree, turn: Turn, q: Path)
    requires Foreign(q) && !turn.Attempted? && (turn.Repoint? ==> q[0] != CONFIG[0])
    ensures Lstat(AfterTurn(dataDir, t, turn), q) == Lstat(t, q)
  {
    hide Repointed, Lstat;
    match turn
    case Tear(name, left) =>
      if CanTear(t, name, left) {
        assert TornTo(t, Dir(t.entries[name := left]), name, left);
        TornElsewhere(t, Dir(t.entries[name := left]), name, left, q);
      }
    case Repoint(config) =>
      if t.Dir? {
        RepointedElsewhere(t, config, q);
      }
  }

  /** Nothing else in the data directory ever changes. */
  lemma {:induction false} ForeignDataIsSpared(dataDir: Path, t0: Tree, source: Path, vault: Tree, turns: seq<Turn>, q: Path)
    requires Start(dataDir, t0, source, vault) && Foreign(q) && Unrelated(q, source)
    requires q[0] != CONFIG[0] || forall turn :: turn in turns ==> !turn.Repoint?
    ensures Lstat(AfterTurns(dataDir, t0, turns), q) == Lstat(t0, q)
    decreases |turns|
  {
    hide Start, AfterTurn, Lstat, Kept, Foreign;
    if turns != [] {
      var t, turn := AfterTurns(dataDir, t0, turns[..|turns| - 1]), turns[|turns| - 1];
      ForeignDataIsSpared(dataDir, t0, source, vault, turns[..|turns| - 1], q);
      VaultConservation(dataDir, t0, source, vault, turns[..|turns| - 1]);
      assert turn in turns;
      if turn.Attempted? {
        RunSpares(dataDir, t, turn.env, turn.writes, source, vault, q);
      } else {
        OtherTurnsSpare(dataDir, t, turn, q);
      }
    }
  }

  lemma RunSpares(dataDir: Path, t: Tree, env: Env, writes: nat, source: Path, vault: Tree, q: Path)
    requires Kept(dataDir, t, source, vault) && Foreign(q) && Unrelated(q, source)
    ensures Lstat(AfterTurn(dataDir, t, Attempted(env, writes)), q) == Lstat(t, q)
  {
    hide Kept, Admit, Run, Leads, Lstat, Foreign;
    RunLeads(dataDir, t, env, writes);
    if Admit(dataDir, t, env.luck).Go? {
      SameSource(dataDir, t, source, vault, env.luck);
      LeadsSpares(source, t, Run(dataDir, t, env, writes).tree, writes, q);
    }
  }

  /** Attempts leave the configuration alone, so the vault's source stays the configured root. */
  lemma AttemptsKeepConfiguration(dataDir: Path, t0: Tree, source: Path, vault: Tree, attempts: seq<Attempt>)
    requires Start(dataDir, t0, source, vault)
    ensures LegacyRoot(dataDir, AfterAttempts(dataDir, t0, attempts)) == Ok(source)
  {
    hide AfterAttempts, AfterTurns, Lstat;
    StartIsKept(dataDir, t0, source, vault);
    var turns := AttemptsAreTurns(dataDir, t0, attempts);
    VaultConservation(dataDir, t0, source, vault, turns);
    ForeignDataIsSpared(dataDir, t0, source, vault, turns, CONFIG);
    SameLegacyRoot(dataDir, t0, AfterAttempts(dataDir, t0, attempts), source);
  }

  // ---- Paths ----------------------------------------------------------------------------

  /** Strictly below the data directory, free of traversal, reached through no link, and neither
      the keystore directory nor above it. */
  ghost predicate SafeRoot(t: Tree, root: Path) {
    root != [] && "" !in root && !HasTraversal(root) && Clear(t, root) && !(root <= KEYSTORE)
  }

  /** The configured root, the root a journal names, and so the source of every run, are safe. */
  lemma RootsAreSafe(dataDir: Path, t: Tree, luck: Luck)
    ensures LegacyRoot(dataDir, t).Ok? ==> SafeRoot(t, LegacyRoot(dataDir, t).value)
    ensures ReadJournal(t).Ok? && ReadJournal(t).value.Some? ==> SafeRoot(t, ReadJournal(t).value.value.sourceRoot)
    ensures Admit(dataDir, t, luck).Go? ==> SafeRoot(t, Admit(dataDir, t, luck).source)
  {
    hide Admit, Clear, Lstat, Split, Trim;
    if Admit(dataDir, t, luck).Go? {
      GoAdmits(dataDir, t, luck);
    }
  }

  /** What a configuration spells is the data directory followed by the root. */
  lemma ConfiguredRootIsSpelled(dataDir: Path, t: Tree)
    requires LegacyRoot(dataDir, t).Ok?
    ensures match Lstat(t, CONFIG)
            case Present(File(Json(StorageConfig(text)))) =>
              && (Trim(text) == [] ==> LegacyRoot(dataDir, t).value == DEFAULT_ROOT)
              && (Trim(text) != [] ==> NonEmptyParts(Split(Trim(text), '/')) == dataDir + LegacyRoot(dataDir, t).value)
            case _ => LegacyRoot(dataDir, t).value == DEFAULT_ROOT
  {
    match Lstat(t, CONFIG)
    case Present(File(Json(StorageConfig(text)))) =>
      var components := NonEmptyParts(Split(Trim(text), '/'));
      if Trim(text) != [] {
        assert components == dataDir + components[|dataDir|..];
      }
    case _ =>
  }

  lemma PepperIsForeign(t: Tree, source: Path, pepper: Path)
    requires CheckedSource(t, source) == Ok(source) && IsDir(Lstat(t, source))
    requires |pepper| == |KEYSTORE| + 1 && KEYSTORE <= pepper && Lstat(t, pepper).Present? && Lstat(t, pepper).node.File?
    ensures Unrelated(pepper, source)
  {
    assert source <= pepper ==> |source| == |pepper|;
    if pepper <= source && pepper != source {
      DirsAbove(t, source, pepper);
    }
  }

  lemma {:induction false} DirsAbove(t: Tree, p: Path, q: Path)
    requires q <= p && q != p && Lstat(t, p).Present?
    ensures IsDir(Lstat(t, q))
  {
    if q != [] {
      assert q[1..] <= p[1..];
      DirsAbove(t.entries[p[0]], p[1..], q[1..]);
    }
  }

  lemma {:induction false} LeadsSparesPepper(source: Path, t: Tree, u: Tree, n: nat, pepper: Path)
    requires Leads(source, t, u, n) && Foreign(pepper)
    requires |pepper| == |KEYSTORE| + 1 && KEYSTORE <= pepper && Lstat(t, pepper).Present? && Lstat(t, pepper).node.File?
    ensures Lstat(u, pepper) == Lstat(t, pepper)
    decreases n
  {
    hide Change, Lstat;
    if t != u {
      var between :| Change(source, t, between) && Leads(source, between, u, n - 1);
      if Moves(source, t, between) {
        PepperIsForeign(t, source, pepper);
      }
      ChangeSpares(source, t, between, pepper);
      LeadsSparesPepper(source, between, u, n - 1, pepper);
    }
  }

  /** A file in the keystore directory stays where it is, from any tree, whatever root the
      configuration or a journal already there names. */
  lemma {:induction false} PepperStays(dataDir: Path, t0: Tree, turns: seq<Turn>, name: string)
    requires Lstat(t0, KEYSTORE + [name]).Present? && Lstat(t0, KEYSTORE + [name]).node.File?
    ensures Lstat(AfterTurns(dataDir, t0, turns), KEYSTORE + [name]) == Lstat(t0, KEYSTORE + [name])
    decreases |turns|
  {
    hide AfterTurn, Lstat, Foreign;
    if turns != [] {
      PepperStays(dataDir, t0, turns[..|turns| - 1], name);
      TurnSparesPepper(dataDir, AfterTurns(dataDir, t0, turns[..|turns| - 1]), turns[|turns| - 1], KEYSTORE + [name]);
    }
  }

  lemma TurnSparesPepper(dataDir: Path, t: Tree, turn: Turn, pepper: Path)
    requires |pepper| == |KEYSTORE| + 1 && KEYSTORE <= pepper && Lstat(t, pepper).Present? && Lstat(t, pepper).node.File?
    ensures Lstat(AfterTurn(dataDir, t, turn), pepper) == Lstat(t, pepper)
  {
    hide Run, Leads, Lstat, Admit;
    assert pepper[0] == KEYSTORE[0];
    assert Foreign(pepper) && pepper[0] != CONFIG[0];
    if turn.Attempted? {
      RunLeads(dataDir, t, turn.env, turn.writes);
      if Admit(dataDir, t, turn.env.luck).Go? {
        LeadsSparesPepper(Admit(dataDir, t, turn.env.luck).source, t, Run(dataDir, t, turn.env, turn.writes).tree, turn.writes, pepper);
      }
    } else {
      OtherTurnsSpare(dataDir, t, turn, pepper);
    }
  }
}
