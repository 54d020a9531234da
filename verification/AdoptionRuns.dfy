/** Any number of adoption runs, each cut short anywhere: where they can leave the tree, and
    that one uninterrupted run from there ends as if nothing had ever been interrupted.
 */
module AdoptionRuns {
  import opened Common
  import opened StorageTree
  import opened StorageCheck
  import opened Adoption
  import opened AdoptionChain

  // ---- A run under any conditions -------------------------------------------------------

  lemma NoWritesNoChange(t: Tree, inPlace: bool, j: Journal, k: nat, failed: seq<string>)
    requires k <= |DISPOSABLE|
    ensures Tidy(t, j, k, failed, 0).tree == t
    ensures Advance(t, inPlace, j, 0).tree == t
    decreases |DISPOSABLE| - k
  {
    TidyNothing(t, j, 0, []);
    TidyNothing(t, j, k, failed);
  }

  lemma {:induction false} TidyNothing(t: Tree, j: Journal, k: nat, failed: seq<string>)
    requires k <= |DISPOSABLE|
    ensures Tidy(t, j, k, failed, 0).tree == t
    decreases |DISPOSABLE| - k
  {
    if k < |DISPOSABLE| && !Removable(t, DISPOSABLE[k]) {
      TidyNothing(t, j, k + 1, if CleanupFails(t, DISPOSABLE[k]) then failed + [DISPOSABLE[k]] else failed);
    }
  }

  /** The writes before the moved vault is confirmed. */
  function EarlyWrites(go: Admission): nat
    requires go.Go?
  {
    (if go.journal == None then 1 else 0) + (if go.sourceHas && !go.inPlace then 1 else 0)
  }

  /** Without a pepper a run makes the same first writes, and no more. */
  lemma WithoutPepper(dataDir: Path, t: Tree, luck: Luck, writes: nat)
    requires Admit(dataDir, t, luck).Go?
    ensures var early := EarlyWrites(Admit(dataDir, t, luck));
            var m := if Admit(dataDir, t, luck).inPlace then 0 else if writes < early then writes else early;
            Run(dataDir, t, Env(false, luck), writes).tree == Run(dataDir, t, GOOD, m).tree
  {
    hide Lstat, Put, Remove, TargetVerified, LegacyRoot, ReadJournal;
    LuckOnlyRefuses(dataDir, t, luck);
    var go := Admit(dataDir, t, luck);
    hide Admit;
    var j := if go.journal.Some? then go.journal.value else Recorded(NewJournal(go.source));
    var u := if go.journal.Some? then t else SaveJournal(t, j);
    NoWritesNoChange(u, go.inPlace, j, 0, []);
    NoWritesNoChange(Moved(u, go.source), go.inPlace, j, 0, []);
  }

  /** Whatever the conditions, the tree a run leaves lies on the chain of the tree it started
      from, no further than its writes. */
  lemma RunStaysOnChain(dataDir: Path, t: Tree, env: Env, writes: nat) returns (m: nat)
    requires Sound(dataDir, t)
    ensures m <= writes && Run(dataDir, t, env, writes).tree == Follow(dataDir, t, m).tree
  {
    hide Lstat, Put, Remove, TargetVerified, LegacyRoot, ReadJournal;
    if Admit(dataDir, t, env.luck).Stop? {
      m := 0;
      return;
    }
    var go := Admit(dataDir, t, env.luck);
    LuckOnlyRefuses(dataDir, t, env.luck);
    if env.pepper {
      m := writes;
    } else {
      WithoutPepper(dataDir, t, env.luck, writes);
      m := if go.inPlace then 0 else if writes < EarlyWrites(go) then writes else EarlyWrites(go);
    }
    RunIsFollow(dataDir, t, m);
  }

  /** Following the chain from a point on it is following the chain. */
  lemma {:induction false} FollowAgain(dataDir: Path, t: Tree, m: nat, n: nat)
    ensures Follow(dataDir, Follow(dataDir, t, m).tree, n) == Follow(dataDir, t, m + n)
    decreases m
  {
    hide Next;
    if Next(dataDir, t).Write? && m > 0 {
      FollowAgain(dataDir, Next(dataDir, t).tree, m - 1, n);
    }
  }

  lemma {:induction false} FollowIsSound(dataDir: Path, t: Tree, m: nat)
    requires Sound(dataDir, t)
    ensures Sound(dataDir, Follow(dataDir, t, m).tree)
    decreases m
  {
    hide Next, Sound;
    if Next(dataDir, t).Write? && m > 0 {
      NextIsSound(dataDir, t);
      FollowIsSound(dataDir, Next(dataDir, t).tree, m - 1);
    }
  }

  lemma {:induction false} FollowAfterEnd(dataDir: Path, t: Tree, m: nat, n: nat)
    requires Follow(dataDir, t, m).outcome != Interrupted && m <= n
    requires Sound(dataDir, t)
    ensures Follow(dataDir, t, n) == Follow(dataDir, t, m)
    decreases m
  {
    hide Next, Sound;
    if Next(dataDir, t).Write? && m > 0 {
      NextIsSound(dataDir, t);
      FollowAfterEnd(dataDir, Next(dataDir, t).tree, m - 1, n - 1);
    }
  }

  // ---- A run left alone comes to an end -------------------------------------------------

  lemma {:induction false} TidyEndsInTime(t: Tree, j: Journal, k: nat, failed: seq<string>, writes: nat)
    requires k <= |DISPOSABLE| && writes > |DISPOSABLE| - k
    ensures Tidy(t, j, k, failed, writes).outcome == Finished
    decreases |DISPOSABLE| - k
  {
    if k < |DISPOSABLE| {
      if Removable(t, DISPOSABLE[k]) {
        TidyEndsInTime(Remove(t, [DISPOSABLE[k]]), j, k + 1, failed, writes - 1);
      } else {
        TidyEndsInTime(t, j, k + 1, if CleanupFails(t, DISPOSABLE[k]) then failed + [DISPOSABLE[k]] else failed, writes);
      }
    }
  }

  lemma AdvanceEndsInTime(t: Tree, inPlace: bool, j: Journal, writes: nat)
    requires writes >= 7
    ensures Advance(t, inPlace, j, writes).outcome != Interrupted
  {
    hide Lstat, Put, Remove;
    if j.step == Prepared {
      var next := Recorded(j.(step := if inPlace then InPlaceVerified else Renamed));
      SettingsEndInTime(SaveJournal(t, next), next, writes - 1);
    } else {
      SettingsEndInTime(t, j, writes);
    }
  }

  lemma SettingsEndInTime(t: Tree, j: Journal, writes: nat)
    requires writes >= 6
    ensures Settings(t, j, writes).outcome != Interrupted
  {
    hide Put, Remove;
    forall u, k: Journal, w: nat | w >= 4 ensures AfterSettings(u, k, w).outcome != Interrupted {
      TidyEndsInTime(u, k, 0, [], w);
    }
  }

  lemma RunEndsInTime(dataDir: Path, t: Tree, env: Env)
    ensures Run(dataDir, t, env, ENOUGH).outcome != Interrupted
  {
    hide Lstat, Put, Remove, TargetVerified, LegacyRoot, ReadJournal;
    forall u, inPlace, j, w: nat | w >= 7 ensures Advance(u, inPlace, j, w).outcome != Interrupted {
      AdvanceEndsInTime(u, inPlace, j, w);
    }
  }

  // ---- A removal cut short --------------------------------------------------------------

  /** What a recursive removal leaves of a directory when the process dies in it. */
  ghost predicate Pruned(left: Tree, whole: Tree) {
    || left == whole
    || (&& left.Dir? && whole.Dir?
        && forall name :: name in left.entries ==> name in whole.entries && Pruned(left.entries[name], whole.entries[name]))
  }

  lemma {:induction false} PrunedTwice(less: Tree, left: Tree, whole: Tree)
    requires Pruned(less, left) && Pruned(left, whole)
    ensures Pruned(less, whole)
  {
    if less != left && left != whole {
      forall name | name in less.entries ensures Pruned(less.entries[name], whole.entries[name]) {
        PrunedTwice(less.entries[name], left.entries[name], whole.entries[name]);
      }
    }
  }

  /** Pruning takes entries away and changes none. */
  lemma {:induction false} PrunedAt(left: Tree, whole: Tree, p: Path)
    requires Pruned(left, whole)
    ensures Clear(whole, p) ==> Clear(left, p)
    ensures Lstat(left, p).Present? ==> Lstat(whole, p).Present? && Pruned(Lstat(left, p).node, Lstat(whole, p).node)
    ensures Lstat(left, p) == Unreadable ==> Lstat(whole, p) == Unreadable
    decreases |p|
  {
    if left != whole && p != [] && p[0] in left.entries {
      PrunedAt(left.entries[p[0]], whole.entries[p[0]], p[1..]);
    }
  }

  lemma {:induction false} PrunedHasNoMore(left: Tree, whole: Tree)
    requires Pruned(left, whole)
    ensures HasFile(left) ==> HasFile(whole)
    ensures HasOddity(left) ==> HasOddity(whole)
  {
    if left != whole {
      forall name | name in left.entries
        ensures HasFile(left.entries[name]) ==> HasFile(whole.entries[name])
        ensures HasOddity(left.entries[name]) ==> HasOddity(whole.entries[name])
      {
        PrunedHasNoMore(left.entries[name], whole.entries[name]);
      }
    }
  }

  lemma {:induction false} PrunedMarkers(left: Tree, whole: Tree, k: nat)
    requires left.Dir? && whole.Dir? && Pruned(left, whole) && k <= |MARKERS|
    requires ProbeMarkers(whole.entries, k, false) == Lacks
    ensures ProbeMarkers(left.entries, k, false) == Lacks
    decreases |MARKERS| - k
  {
    if k < |MARKERS| {
      PrunedMarkers(left, whole, k + 1);
    } else if "chunks" in left.entries {
      PrunedHasNoMore(left.entries["chunks"], whole.entries["chunks"]);
    }
  }

  /** Nothing that lacks storage comes to hold it. */
  lemma PrunedLacks(left: Tree, whole: Tree, p: Path)
    requires Pruned(left, whole) && ContainsStorage(Lstat(whole, p), false) == Lacks
    ensures ContainsStorage(Lstat(left, p), false) == Lacks
  {
    PrunedAt(left, whole, p);
    if Lstat(left, p).Present? {
      PrunedMarkers(Lstat(left, p).node, Lstat(whole, p).node, 0);
    }
  }

  /** The chain is about to remove the `i`-th disposable directory. */
  ghost predicate Removing(dataDir: Path, t: Tree, j: Journal, i: nat) {
    && Placed(dataDir, t, j) && j.step == HostModeConverted
    && i < |DISPOSABLE| && FirstRemovable(t, 0) == i
  }

  /** `u` is `t` with its next removal begun. */
  ghost predicate Torn(dataDir: Path, t: Tree, u: Tree, j: Journal, i: nat) {
    && Removing(dataDir, t, j, i)
    && t.Dir? && DISPOSABLE[i] in t.entries
    && exists left :: TornTo(t, u, DISPOSABLE[i], left)
  }

  ghost predicate TornTo(t: Tree, u: Tree, name: string, left: Tree)
    requires t.Dir? && name in t.entries
  {
    left.Dir? && Pruned(left, t.entries[name]) && u == Dir(t.entries[name := left])
  }

  lemma TornElsewhere(t: Tree, u: Tree, name: string, left: Tree, q: Path)
    requires t.Dir? && name in t.entries && TornTo(t, u, name, left) && q != []
    ensures q[0] != name ==> SameAt(t, u, q)
    ensures q[0] == name && Clear(t, q) ==> Clear(u, q)
    ensures q[0] == name && ContainsStorage(Lstat(t, q), false) == Lacks ==> ContainsStorage(Lstat(u, q), false) == Lacks
  {
    if q[0] == name {
      PrunedAt(left, t.entries[name], q[1..]);
      if ContainsStorage(Lstat(t, q), false) == Lacks {
        PrunedLacks(left, t.entries[name], q[1..]);
      }
    }
  }

  /** Removing the rest gives what removing the whole would have given. */
  lemma TornNext(dataDir: Path, t: Tree, u: Tree, j: Journal, i: nat)
    requires Torn(dataDir, t, u, j, i)
    ensures Removing(dataDir, u, j, i) && Remove(u, [DISPOSABLE[i]]) == Remove(t, [DISPOSABLE[i]])
    ensures Next(dataDir, u) == Next(dataDir, t) == Write(Remove(t, [DISPOSABLE[i]]))
  {
    var name := DISPOSABLE[i];
    var left :| TornTo(t, u, name, left);
    PlacedWhenTorn(dataDir, t, u, j, name, left);
    forall h | 0 <= h < |DISPOSABLE|
      ensures Removable(u, DISPOSABLE[h]) == Removable(t, DISPOSABLE[h])
    {
      assert Lstat(u, [DISPOSABLE[h]]) == if h == i then Present(left) else Lstat(t, [DISPOSABLE[h]]);
      assert Removable(t, DISPOSABLE[i]);
    }
    assert FirstRemovable(u, 0) == i;
    assert u.entries - {name} == t.entries - {name};
    NextWhenPlaced(dataDir, t, j);
    NextWhenPlaced(dataDir, u, j);
  }

  lemma PlacedWhenTorn(dataDir: Path, t: Tree, u: Tree, j: Journal, name: string, left: Tree)
    requires Placed(dataDir, t, j) && name in DISPOSABLE && t.Dir? && name in t.entries && TornTo(t, u, name, left)
    ensures Placed(dataDir, u, j)
  {
    var go := Admit(dataDir, t, LUCKY);
    SourceApart(dataDir, t);
    GoProbes(dataDir, t);
    TornElsewhere(t, u, name, left, CONFIG);
    TornElsewhere(t, u, name, left, JOURNAL);
    TornElsewhere(t, u, name, left, NEW_ROOT);
    TornElsewhere(t, u, name, left, go.source);
    AdmitAfterTouch(dataDir, t, u);
  }

  // ---- Any number of runs ---------------------------------------------------------------

  /** One run: what it met, where it was cut, and, had it just begun a removal, what that left. */
  datatype Attempt = Attempt(env: Env, writes: nat, torn: Option<Tree>)

  /** The tree when the process is gone. */
  ghost function AfterAttempt(dataDir: Path, t: Tree, a: Attempt): Tree {
    var ran := Run(dataDir, t, a.env, a.writes);
    if a.torn.Some? && ran.outcome == Interrupted && (exists j, i :: Torn(dataDir, ran.tree, a.torn.value, j, i))
    then a.torn.value
    else ran.tree
  }

  ghost function AfterAttempts(dataDir: Path, t: Tree, attempts: seq<Attempt>): Tree {
    if attempts == [] then t
    else AfterAttempt(dataDir, AfterAttempts(dataDir, t, attempts[..|attempts| - 1]), attempts[|attempts| - 1])
  }

  /** On the chain of `t0`, or with the next removal begun there. */
  ghost predicate OnChain(dataDir: Path, t0: Tree, t: Tree, m: nat) {
    var at := Follow(dataDir, t0, m).tree;
    t == at || exists j, i :: Torn(dataDir, at, t, j, i)
  }

  lemma TornAgain(dataDir: Path, t: Tree, u: Tree, v: Tree, j: Journal, i: nat, k: Journal, h: nat)
    requires Torn(dataDir, t, u, j, i) && Torn(dataDir, u, v, k, h)
    ensures Torn(dataDir, t, v, j, i)
  {
    TornNext(dataDir, t, u, j, i);
    assert i == h;
    var name := DISPOSABLE[i];
    var left :| TornTo(t, u, name, left);
    var less :| TornTo(u, v, name, less);
    PrunedTwice(less, left, t.entries[name]);
    assert t.entries[name := left][name := less] == t.entries[name := less];
    assert TornTo(t, v, name, less);
  }

  /** From a torn tree every run leads back to the chain, or leaves the tree torn. */
  lemma RunFromChain(dataDir: Path, t0: Tree, t: Tree, m: nat, env: Env, writes: nat) returns (n: nat)
    requires Sound(dataDir, t0) && OnChain(dataDir, t0, t, m)
    ensures OnChain(dataDir, t0, Run(dataDir, t, env, writes).tree, n)
  {
    hide Run, Next, Sound, Placed;
    var at := Follow(dataDir, t0, m).tree;
    FollowIsSound(dataDir, t0, m);
    if t == at {
      var k := RunStaysOnChain(dataDir, t, env, writes);
      FollowAgain(dataDir, t0, m, k);
      n := m + k;
    } else {
      var j, i :| Torn(dataDir, at, t, j, i);
      TornNext(dataDir, at, t, j, i);
      RemovingIsSound(dataDir, t, j, i);
      var k := RunStaysOnChain(dataDir, t, env, writes);
      if k == 0 {
        n := m;
      } else {
        assert Follow(dataDir, t, k) == Follow(dataDir, at, k);
        FollowAgain(dataDir, t0, m, k);
        n := m + k;
      }
    }
  }

  lemma RemovingIsSound(dataDir: Path, t: Tree, j: Journal, i: nat)
    requires Removing(dataDir, t, j, i)
    ensures Sound(dataDir, t)
  {
  }

  lemma AttemptFromChain(dataDir: Path, t0: Tree, t: Tree, m: nat, a: Attempt) returns (n: nat)
    requires Sound(dataDir, t0) && OnChain(dataDir, t0, t, m)
    ensures OnChain(dataDir, t0, AfterAttempt(dataDir, t, a), n)
  {
    hide Run, Next, Sound, Torn;
    n := RunFromChain(dataDir, t0, t, m, a.env, a.writes);
    var ran := Run(dataDir, t, a.env, a.writes);
    var at := Follow(dataDir, t0, n).tree;
    if AfterAttempt(dataDir, t, a) != ran.tree && ran.tree != at {
      var j, i :| Torn(dataDir, at, ran.tree, j, i);
      var k, h :| Torn(dataDir, ran.tree, a.torn.value, k, h);
      TornAgain(dataDir, at, ran.tree, a.torn.value, j, i, k, h);
    }
  }

  lemma {:induction false} AttemptsStayOnChain(dataDir: Path, t0: Tree, attempts: seq<Attempt>) returns (n: nat)
    requires Sound(dataDir, t0)
    ensures OnChain(dataDir, t0, AfterAttempts(dataDir, t0, attempts), n)
    decreases |attempts|
  {
    hide AfterAttempt, Sound;
    if attempts == [] {
      n := 0;
    } else {
      var m := AttemptsStayOnChain(dataDir, t0, attempts[..|attempts| - 1]);
      n := AttemptFromChain(dataDir, t0, AfterAttempts(dataDir, t0, attempts[..|attempts| - 1]), m, attempts[|attempts| - 1]);
    }
  }

  lemma FollowFromChain(dataDir: Path, t0: Tree, t: Tree, m: nat, n: nat)
    requires Sound(dataDir, t0) && OnChain(dataDir, t0, t, m) && n > 0
    ensures Follow(dataDir, t, n) == Follow(dataDir, t0, m + n)
    ensures Sound(dataDir, t)
  {
    hide Next, Sound, Torn;
    var at := Follow(dataDir, t0, m).tree;
    FollowAgain(dataDir, t0, m, n);
    FollowIsSound(dataDir, t0, m);
    if t != at {
      var j, i :| Torn(dataDir, at, t, j, i);
      TornNext(dataDir, at, t, j, i);
      RemovingIsSound(dataDir, t, j, i);
    }
  }

  /** A run with a pepper differs from a lucky one only where the listing order makes it refuse,
      before it writes anything. */
  lemma OtherOrders(dataDir: Path, t: Tree, luck: Luck, writes: nat)
    ensures Run(dataDir, t, Env(true, luck), writes) ==
            if Admit(dataDir, t, luck) == Admit(dataDir, t, LUCKY) then Run(dataDir, t, GOOD, writes)
            else Ran(t, Refused(StorageUnavailable))
  {
    hide Admit, Begin;
    LuckOnlyRefuses(dataDir, t, luck);
  }

  /** Crash convergence: whatever runs came before, wherever each was cut and whatever each met,
      one undisturbed run ends with the tree, journal and outcome of a run that was never
      interrupted. The order in which it finds directories listed can only make it refuse and
      leave everything as it is. */
  lemma CrashConvergence(dataDir: Path, t0: Tree, attempts: seq<Attempt>, luck: Luck)
    requires ReadJournal(t0) == Ok(None)
    ensures Run(dataDir, t0, GOOD, ENOUGH).outcome != Interrupted
    ensures var t := AfterAttempts(dataDir, t0, attempts);
            Run(dataDir, t, Env(true, luck), ENOUGH) ==
            if Admit(dataDir, t, luck) == Admit(dataDir, t, LUCKY) then Run(dataDir, t0, GOOD, ENOUGH)
            else Ran(t, Refused(StorageUnavailable))
  {
    assert Sound(dataDir, t0);
    var t := AfterAttempts(dataDir, t0, attempts);
    var m := AttemptsStayOnChain(dataDir, t0, attempts);
    hide Next, Sound, Torn, Run, Admit;
    FollowFromChain(dataDir, t0, t, m, ENOUGH);
    RunIsFollow(dataDir, t, ENOUGH);
    RunIsFollow(dataDir, t0, ENOUGH);
    RunEndsInTime(dataDir, t0, GOOD);
    FollowAfterEnd(dataDir, t0, ENOUGH, m + ENOUGH);
    OtherOrders(dataDir, t, luck, ENOUGH);
  }
}
