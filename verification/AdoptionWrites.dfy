/** The kinds of durable write an adoption makes. Every run, from any tree and under any
    conditions, is a series of them.
 */
module AdoptionWrites {
  import opened Common
  import opened StorageTree
  import opened StorageCheck
  import opened Adoption
  import opened AdoptionChain

  ghost function JournalOf(t: Tree): Option<Journal> {
    match Lstat(t, JOURNAL)
    case Present(File(Json(AdoptionJournal(j)))) => Some(j)
    case _ => None
  }

  /** The target root has what verification asks for first. */
  ghost predicate HasFormat(t: Tree) {
    IsDir(Lstat(t, NEW_ROOT)) && "format.version" in Lstat(t, NEW_ROOT).node.entries
  }

  // ---- The kinds of write ---------------------------------------------------------------

  ghost predicate Creates(source: Path, t: Tree, u: Tree) {
    Lstat(t, JOURNAL) == Missing && u == SaveJournal(t, NewJournal(source))
  }

  ghost predicate Moves(source: Path, t: Tree, u: Tree) {
    && JournalOf(t).Some? && Unrelated(source, NEW_ROOT) && source[0] != JOURNAL[0]
    && CheckedSource(t, source) == Ok(source) && Clear(t, NEW_ROOT)
    && IsDir(Lstat(t, source)) && IsDir(Lstat(t, FILES)) && EmptyOrMissing(Lstat(t, NEW_ROOT))
    && u == Moved(t, source)
  }

  /** The step after the one recorded. */
  ghost predicate Successor(source: Path, j: Journal, k: Journal) {
    && k.version == j.version && k.sourceRoot == j.sourceRoot && k.targetRoot == j.targetRoot && k.steps == j.steps
    && match j.step
       case Prepared => k.step == if source == NEW_ROOT then InPlaceVerified else Renamed
       case HostModeConverted => k.step == Complete
       case Complete => false
       case _ => k.step == HostModeConverted
  }

  ghost predicate SavesAs(source: Path, t: Tree, u: Tree, k: Journal) {
    HasFormat(t) && JournalOf(t).Some? && Successor(source, JournalOf(t).value, k) && u == SaveJournal(t, k)
  }

  ghost predicate Saves(source: Path, t: Tree, u: Tree) {
    exists k :: SavesAs(source, t, u, k)
  }

  ghost predicate Converts(t: Tree, u: Tree) {
    && HasFormat(t) && JournalOf(t).Some? && Clear(t, NEW_ROOT)
    && ConvertHostMode(Lstat(t, NEW_ROOT).node).Ok?
    && u == Put(t, NEW_ROOT, ConvertHostMode(Lstat(t, NEW_ROOT).node).value.0)
  }

  ghost predicate RemovesAt(t: Tree, u: Tree, i: nat) {
    HasFormat(t) && JournalOf(t).Some? && i < |DISPOSABLE| && u == Remove(t, [DISPOSABLE[i]])
  }

  ghost predicate Removes(t: Tree, u: Tree) {
    exists i :: RemovesAt(t, u, i)
  }

  ghost predicate Change(source: Path, t: Tree, u: Tree) {
    t.Dir? && (Creates(source, t, u) || Moves(source, t, u) || Saves(source, t, u) || Converts(t, u) || Removes(t, u))
  }

  /** `u` comes of `t` by at most `n` of these writes. */
  ghost predicate Leads(source: Path, t: Tree, u: Tree, n: nat)
    decreases n
  {
    t == u || (n > 0 && exists between :: Change(source, t, between) && Leads(source, between, u, n - 1))
  }

  lemma LeadsOn(source: Path, t: Tree, between: Tree, u: Tree, n: nat)
    requires n > 0 && Change(source, t, between) && Leads(source, between, u, n - 1)
    ensures Leads(source, t, u, n)
  {
  }

  // ---- Every run is a series of them ----------------------------------------------------

  /** What a run past its confirmation can rely on. */
  ghost predicate Ready(source: Path, t: Tree, j: Journal) {
    t.Dir? && Clear(t, NEW_ROOT) && HasFormat(t) && JournalOf(t) == Some(j) && j.sourceRoot == source
  }

  lemma ReadyAfterSave(source: Path, t: Tree, j: Journal, k: Journal)
    requires Ready(source, t, j) && Successor(source, j, k)
    ensures Ready(source, SaveJournal(t, k), Recorded(k)) && Change(source, t, SaveJournal(t, k))
  {
    SavedHere(t, k);
    SavedElsewhere(t, k, NEW_ROOT);
    assert SavesAs(source, t, SaveJournal(t, k), k);
  }

  lemma ReadyAfterRemove(source: Path, t: Tree, j: Journal, i: nat)
    requires Ready(source, t, j) && i < |DISPOSABLE|
    ensures var u := Remove(t, [DISPOSABLE[i]]); Ready(source, u, j) && Change(source, t, u)
  {
    var u := Remove(t, [DISPOSABLE[i]]);
    RemovedElsewhere(t, DISPOSABLE[i], JOURNAL);
    RemovedElsewhere(t, DISPOSABLE[i], NEW_ROOT);
    assert RemovesAt(t, u, i);
  }

  lemma ReadyAfterConvert(source: Path, t: Tree, j: Journal)
    requires Ready(source, t, j) && ConvertHostMode(Lstat(t, NEW_ROOT).node).Ok?
    ensures var u := Put(t, NEW_ROOT, ConvertHostMode(Lstat(t, NEW_ROOT).node).value.0);
            Ready(source, u, j) && Change(source, t, u)
  {
    var converted := ConvertHostMode(Lstat(t, NEW_ROOT).node).value.0;
    ConvertedWhere(t, converted);
    PutElsewhere(t, NEW_ROOT, converted, JOURNAL);
  }

  lemma {:induction false} TidyLeads(source: Path, t: Tree, j: Journal, k: nat, failed: seq<string>, writes: nat)
    requires Ready(source, t, j) && j.step == HostModeConverted && k <= |DISPOSABLE|
    ensures Leads(source, t, Tidy(t, j, k, failed, writes).tree, writes)
    decreases |DISPOSABLE| - k
  {
    hide Ready, Change, Removable;
    if k == |DISPOSABLE| {
      if writes > 0 {
        var last := j.(cleanupFailed := failed, step := Complete);
        ReadyAfterSave(source, t, j, last);
        LeadsOn(source, t, SaveJournal(t, last), SaveJournal(t, last), writes);
      }
    } else if Removable(t, DISPOSABLE[k]) {
      if writes > 0 {
        var u := Remove(t, [DISPOSABLE[k]]);
        ReadyAfterRemove(source, t, j, k);
        TidyLeads(source, u, j, k + 1, failed, writes - 1);
        LeadsOn(source, t, u, Tidy(t, j, k, failed, writes).tree, writes);
      }
    } else {
      TidyLeads(source, t, j, k + 1, if CleanupFails(t, DISPOSABLE[k]) then failed + [DISPOSABLE[k]] else failed, writes);
    }
  }

  lemma SavedSettingsLead(source: Path, t: Tree, j: Journal, found: bool, writes: nat)
    requires Ready(source, t, j) && (j.step == Renamed || j.step == InPlaceVerified) && writes > 0
    ensures var next := Recorded(j.(deviceLabelDropped := found, step := HostModeConverted));
            Leads(source, t, AfterSettings(SaveJournal(t, next), next, writes - 1).tree, writes)
  {
    hide Ready, Change, Tidy, SaveJournal, Leads;
    var next := j.(deviceLabelDropped := found, step := HostModeConverted);
    RecordedTwice(next);
    ReadyAfterSave(source, t, j, next);
    var u := SaveJournal(t, next);
    TidyLeads(source, u, Recorded(next), 0, [], writes - 1);
    LeadsOn(source, t, u, Tidy(u, Recorded(next), 0, [], writes - 1).tree, writes);
  }

  lemma SettingsLead(source: Path, t: Tree, j: Journal, writes: nat)
    requires Ready(source, t, j)
    ensures Leads(source, t, Settings(t, j, writes).tree, writes)
  {
    hide Change, Lstat, Put, Tidy, SaveJournal, Leads;
    NoneNeeded(source, t, writes);
    if j.step == Renamed || j.step == InPlaceVerified {
      var root := Lstat(t, NEW_ROOT).node;
      if ConvertHostMode(root).Ok? && writes > 0 {
        var (converted, found) := ConvertHostMode(root).value;
        if converted == root {
          SavedSettingsLead(source, t, j, found, writes);
        } else {
          var u := Put(t, NEW_ROOT, converted);
          ReadyAfterConvert(source, t, j);
          NoneNeeded(source, u, writes - 1);
          if writes > 1 {
            SavedSettingsLead(source, u, j, found, writes - 1);
          }
          LeadsOn(source, t, u, Settings(t, j, writes).tree, writes);
        }
      }
    } else if j.step == HostModeConverted {
      TidyLeads(source, t, j, 0, [], writes);
    }
  }

  lemma NoneNeeded(source: Path, t: Tree, n: nat)
    ensures Leads(source, t, t, n)
  {
  }

  lemma AdvanceLeads(source: Path, t: Tree, j: Journal, writes: nat)
    requires Ready(source, t, j)
    ensures Leads(source, t, Advance(t, source == NEW_ROOT, j, writes).tree, writes)
  {
    hide Ready, Change, SaveJournal, Leads, Settings;
    NoneNeeded(source, t, writes);
    if j.step != Prepared {
      SettingsLead(source, t, j, writes);
    } else if writes > 0 {
      var next := j.(step := if source == NEW_ROOT then InPlaceVerified else Renamed);
      RecordedTwice(next);
      ReadyAfterSave(source, t, j, next);
      var u := SaveJournal(t, next);
      SettingsLead(source, u, Recorded(next), writes - 1);
      LeadsOn(source, t, u, Settings(u, Recorded(next), writes - 1).tree, writes);
    }
  }

  lemma ConfirmLeads(source: Path, t: Tree, j: Journal, pepper: bool, writes: nat)
    requires t.Dir? && Clear(t, NEW_ROOT) && JournalOf(t) == Some(j) && j.sourceRoot == source
    requires source == NEW_ROOT ==> TargetVerified(t)
    ensures Leads(source, t, Confirm(t, source == NEW_ROOT, j, pepper, writes).tree, writes)
  {
    hide Change, Leads, Advance;
    NoneNeeded(source, t, writes);
    if TargetVerified(t) && (source == NEW_ROOT || pepper) {
      AdvanceLeads(source, t, j, writes);
    }
  }

  /** What a go-ahead establishes about the source, from any tree. */
  ghost predicate Admitted(t: Tree, source: Path, sourceHas: bool) {
    && t.Dir? && Clear(t, NEW_ROOT) && CheckedSource(t, source) == Ok(source)
    && (source == NEW_ROOT || Unrelated(source, NEW_ROOT)) && source[0] != JOURNAL[0]
    && (sourceHas ==> IsDir(Lstat(t, source)))
    && (sourceHas && source != NEW_ROOT ==> EmptyOrMissing(Lstat(t, NEW_ROOT)))
  }

  lemma RelocateLeads(source: Path, t: Tree, sourceHas: bool, j: Journal, pepper: bool, writes: nat)
    requires Admitted(t, source, sourceHas) && JournalOf(t) == Some(j) && j.sourceRoot == source
    requires source == NEW_ROOT ==> TargetVerified(t)
    ensures Leads(source, t, Relocate(t, source, source == NEW_ROOT, sourceHas, j, pepper, writes).tree, writes)
  {
    hide Leads, Confirm, TargetVerified, Lstat, Clear;
    NoneNeeded(source, t, writes);
    if !sourceHas || source == NEW_ROOT {
      ConfirmLeads(source, t, j, pepper, writes);
    } else if IsDir(Lstat(t, FILES)) && writes > 0 {
      var u := Moved(t, source);
      MovedWhere(t, source);
      MovedElsewhere(t, source, JOURNAL);
      ConfirmLeads(source, u, j, pepper, writes - 1);
      assert Change(source, t, u);
      LeadsOn(source, t, u, Confirm(u, false, j, pepper, writes - 1).tree, writes);
    }
  }

  lemma AdmittedAfterSave(t: Tree, source: Path, sourceHas: bool, j: Journal)
    requires Admitted(t, source, sourceHas)
    ensures Admitted(SaveJournal(t, j), source, sourceHas)
    ensures TargetVerified(t) ==> TargetVerified(SaveJournal(t, j))
  {
    SavedHere(t, j);
    SavedElsewhere(t, j, source);
    SavedElsewhere(t, j, NEW_ROOT);
  }

  /** A source is never the journal, nor at or below it. */
  lemma GoAdmits(dataDir: Path, t: Tree, luck: Luck)
    requires Admit(dataDir, t, luck).Go?
    ensures var go := Admit(dataDir, t, luck);
            && Admitted(t, go.source, go.sourceHas) && go.inPlace == (go.source == NEW_ROOT)
            && (go.journal == None ==>
                  Lstat(t, JOURNAL) == Missing && go.sourceHas && LegacyRoot(dataDir, t) == Ok(go.source))
            && (go.journal.Some? ==> JournalOf(t) == go.journal && go.journal.value.sourceRoot == go.source)
  {
    LuckOnlyRefuses(dataDir, t, luck);
    var go := Admit(dataDir, t, luck);
    assert CheckedSource(t, go.source) == Ok(go.source);
    assert [JOURNAL[0]] == JOURNAL;
    if go.source[0] == JOURNAL[0] {
      ApartFrom(t, go.source, JOURNAL[0]);
    }
  }

  /** From any tree and under any conditions, wherever it is cut, a run makes only these writes,
      no more than it was given, and all for one source. */
  lemma RunLeads(dataDir: Path, t: Tree, env: Env, writes: nat)
    ensures var go := Admit(dataDir, t, env.luck);
            if go.Stop? then Run(dataDir, t, env, writes).tree == t
            else Leads(go.source, t, Run(dataDir, t, env, writes).tree, writes)
  {
    hide Admit, Admitted, Leads, TargetVerified, Relocate, SaveJournal, Lstat;
    var go := Admit(dataDir, t, env.luck);
    if go.Go? {
      GoAdmits(dataDir, t, env.luck);
      NoneNeeded(go.source, t, writes);
      if !(go.inPlace && (!TargetVerified(t) || !env.pepper)) {
        match go.journal
        case Some(j) =>
          RelocateLeads(go.source, t, go.sourceHas, j, env.pepper, writes);
        case None =>
          if writes > 0 {
            FirstWriteLeads(t, go.source, env.pepper, writes);
          }
      }
    }
  }

  lemma FirstWriteLeads(t: Tree, source: Path, pepper: bool, writes: nat)
    requires Admitted(t, source, true) && Lstat(t, JOURNAL) == Missing && writes > 0
    requires source == NEW_ROOT ==> TargetVerified(t)
    ensures var j := Recorded(NewJournal(source));
            Leads(source, t, Relocate(SaveJournal(t, j), source, source == NEW_ROOT, true, j, pepper, writes - 1).tree, writes)
  {
    hide Leads, TargetVerified, Relocate, Lstat, Clear;
    var j := NewJournal(source);
    RecordedTwice(j);
    var u := SaveJournal(t, j);
    SavedHere(t, j);
    AdmittedAfterSave(t, source, true, j);
    RelocateLeads(source, u, true, Recorded(j), pepper, writes - 1);
    assert Change(source, t, u);
    LeadsOn(source, t, u, Relocate(u, source, source == NEW_ROOT, true, Recorded(j), pepper, writes - 1).tree, writes);
  }
}
