/** Telling storage from no storage, and verifying a storage root without opening it. */
module StorageCheck {
  import opened Common
  import opened StorageTree

  const SALT_SIZE := 16
  const VERIFY_SIZE := 32
  const HEADER_SIZE := 12 + 16

  // ---- Is there storage -----------------------------------------------------------------

  /** A yes, a no, or an error. */
  datatype Probe = Holds | Lacks | Fails

  predicate HasFile(t: Tree) {
    match t
    case File(_) => true
    case Dir(entries) => exists name :: name in entries && HasFile(entries[name])
    case _ => false
  }

  predicate HasOddity(t: Tree) {
    match t
    case File(_) => false
    case Dir(entries) => exists name :: name in entries && HasOddity(entries[name])
    case _ => true
  }

  /** The order in which directories list their entries, for a tree and everything below it. */
  datatype Listing = Listing(names: seq<string>, below: map<string, Listing>)

  ghost predicate Lists(l: Listing, t: Tree)
    decreases t
  {
    t.Dir? ==>
      && (forall i, j :: 0 <= i < j < |l.names| ==> l.names[i] != l.names[j])
      && (forall name :: name in l.names <==> name in t.entries)
      && (forall name :: name in t.entries ==> name in l.below && Lists(l.below[name], t.entries[name]))
  }

  /** `contains_file` with the entries in that order: the first file or the first link or special
      node decides. */
  ghost function ProbeListed(l: Listing, t: Tree): Probe
    requires Lists(l, t)
    decreases t, 1, 0
  {
    match t
    case File(_) => Holds
    case Dir(_) => ProbeNames(l, t, l.names)
    case _ => Fails
  }

  ghost function ProbeNames(l: Listing, t: Tree, names: seq<string>): Probe
    requires Lists(l, t) && t.Dir? && forall name :: name in names ==> name in t.entries
    decreases t, 0, |names|
  {
    if names == [] then Lacks
    else
      assert names[0] in names;
      var first := ProbeListed(l.below[names[0]], t.entries[names[0]]);
      if first != Lacks then first else ProbeNames(l, t, names[1..])
  }

  /** The recursion over directory listings. */
  method ProbeFiles(l: Listing, t: Tree) returns (r: Probe)
    requires Lists(l, t)
    ensures r == ProbeListed(l, t)
    decreases t
  {
    match t
    case File(_) =>
      r := Holds;
    case Dir(entries) =>
      r := Lacks;
      var i := 0;
      while i < |l.names| && r == Lacks
        invariant 0 <= i <= |l.names|
        invariant if r == Lacks then ProbeNames(l, t, l.names[i..]) == ProbeListed(l, t) else r == ProbeListed(l, t)
      {
        assert l.names[i] in l.names;
        r := ProbeFiles(l.below[l.names[i]], entries[l.names[i]]);
        i := i + 1;
      }
    case _ =>
      r := Fails;
  }

  /** The answer by what is there: with both a file and a link or special node below, the listing
      order decides; `unlucky` is that decision. */
  function ContainsFile(t: Tree, unlucky: bool): Probe {
    if HasOddity(t) && (unlucky || !HasFile(t)) then Fails
    else if HasFile(t) then Holds
    else Lacks
  }

  /** Every order gives one of the two answers. */
  lemma {:induction false} ListedAnswer(l: Listing, t: Tree)
    requires Lists(l, t)
    ensures ProbeListed(l, t) == Lacks <==> !HasFile(t) && !HasOddity(t)
    ensures ProbeListed(l, t) == Holds ==> HasFile(t)
    ensures ProbeListed(l, t) == Fails ==> HasOddity(t)
    ensures ProbeListed(l, t) == ContainsFile(t, ProbeListed(l, t) == Fails)
    decreases t, 1, 0
  {
    if t.Dir? {
      NamesAnswer(l, t, l.names);
    }
  }

  lemma {:induction false} NamesAnswer(l: Listing, t: Tree, names: seq<string>)
    requires Lists(l, t) && t.Dir? && forall name :: name in names ==> name in t.entries
    ensures ProbeNames(l, t, names) == Lacks <==>
              forall name :: name in names ==> !HasFile(t.entries[name]) && !HasOddity(t.entries[name])
    ensures ProbeNames(l, t, names) == Holds ==> HasFile(t)
    ensures ProbeNames(l, t, names) == Fails ==> HasOddity(t)
    decreases t, 0, |names|
  {
    if names != [] {
      assert names[0] in names && names == [names[0]] + names[1..];
      ListedAnswer(l.below[names[0]], t.entries[names[0]]);
      NamesAnswer(l, t, names[1..]);
    }
  }

  // ---- Orders on purpose ----------------------------------------------------------------

  ghost function Enumerated(names: set<string>): (s: seq<string>)
    ensures forall i, j :: 0 <= i < j < |s| ==> s[i] != s[j]
    ensures forall name :: name in s <==> name in names
  {
    if names == {} then []
    else
      var name :| name in names;
      [name] + Enumerated(names - {name})
  }

  ghost function SomeListing(t: Tree): (l: Listing)
    ensures Lists(l, t)
    decreases t
  {
    match t
    case Dir(entries) =>
      Listing(Enumerated(entries.Keys), map name | name in entries :: SomeListing(entries[name]))
    case _ => Listing([], map[])
  }

  /** A listing in which one entry comes first, itself listed as given. */
  ghost function First(t: Tree, name: string, below: Listing): (l: Listing)
    requires t.Dir? && name in t.entries && Lists(below, t.entries[name])
    ensures Lists(l, t) && l.names != [] && l.names[0] == name && l.below[name] == below
  {
    Listing([name] + Enumerated(t.entries.Keys - {name}), SomeListing(t).below[name := below])
  }

  /** Some order finds a file that is there, and some order stumbles over an oddity that is. */
  lemma {:induction false} OrderFor(t: Tree, file: bool) returns (l: Listing)
    requires if file then HasFile(t) else HasOddity(t)
    ensures Lists(l, t) && ProbeListed(l, t) == if file then Holds else Fails
    decreases t
  {
    if t.Dir? {
      var name :| name in t.entries && if file then HasFile(t.entries[name]) else HasOddity(t.entries[name]);
      var below := OrderFor(t.entries[name], file);
      l := First(t, name, below);
    } else {
      l := Listing([], map[]);
    }
  }

  /** The answer depends on the listing order exactly when there is both a file and a link or
      special node. */
  lemma OrderMattersExactly(t: Tree)
    ensures (exists l, k :: Lists(l, t) && Lists(k, t) && ProbeListed(l, t) != ProbeListed(k, t)) <==> HasFile(t) && HasOddity(t)
  {
    if HasFile(t) && HasOddity(t) {
      var l := OrderFor(t, true);
      var k := OrderFor(t, false);
      assert ProbeListed(l, t) != ProbeListed(k, t);
    }
    forall l, k | Lists(l, t) && Lists(k, t) && ProbeListed(l, t) != ProbeListed(k, t) ensures HasFile(t) && HasOddity(t) {
      ListedAnswer(l, t);
      ListedAnswer(k, t);
    }
  }

  /** Both decisions are taken by some order. */
  lemma EveryLuckHasItsOrder(t: Tree, unlucky: bool) returns (l: Listing)
    ensures Lists(l, t) && ProbeListed(l, t) == ContainsFile(t, unlucky)
  {
    if HasOddity(t) && (unlucky || !HasFile(t)) {
      l := OrderFor(t, false);
    } else if HasFile(t) {
      l := OrderFor(t, true);
    } else {
      l := SomeListing(t);
      ListedAnswer(l, t);
    }
  }

  // ---- A storage root -------------------------------------------------------------------

  const MARKERS := ["format.version", "salt", "master.salt", "master.verify"]

  /** The first marker that is present decides; chunks are only looked at without markers. */
  function ProbeMarkers(entries: map<string, Tree>, k: nat, unlucky: bool): Probe
    requires k <= |MARKERS|
    decreases |MARKERS| - k
  {
    if k == |MARKERS| then
      if "chunks" in entries then ContainsFile(entries["chunks"], unlucky) else Lacks
    else if MARKERS[k] in entries then
      if entries[MARKERS[k]].Link? then Fails else Holds
    else ProbeMarkers(entries, k + 1, unlucky)
  }

  /** `contains_storage` of the node at a root. */
  function ContainsStorage(root: Stat, unlucky: bool): Probe {
    match root
    case Missing => Lacks
    case Present(Dir(entries)) => ProbeMarkers(entries, 0, unlucky)
    case _ => Fails
  }

  /** An unlucky listing can only turn an answer into an error. */
  lemma {:induction false} LuckOnlyFails(entries: map<string, Tree>, k: nat)
    requires k <= |MARKERS|
    ensures ProbeMarkers(entries, k, true) == ProbeMarkers(entries, k, false) || ProbeMarkers(entries, k, true) == Fails
    decreases |MARKERS| - k
  {
    if k < |MARKERS| {
      LuckOnlyFails(entries, k + 1);
    }
  }

  lemma LuckOnlyFailsAtRoot(root: Stat)
    ensures ContainsStorage(root, true) == ContainsStorage(root, false) || ContainsStorage(root, true) == Fails
  {
    match root
    case Present(Dir(entries)) => LuckOnlyFails(entries, 0);
    case _ =>
  }

  /** `contains_storage` with the chunks directory listed in a given order. */
  ghost function ProbeRoot(entries: map<string, Tree>, l: Listing, k: nat): Probe
    requires k <= |MARKERS| && ("chunks" in entries ==> Lists(l, entries["chunks"]))
    decreases |MARKERS| - k
  {
    if k == |MARKERS| then
      if "chunks" in entries then ProbeListed(l, entries["chunks"]) else Lacks
    else if MARKERS[k] in entries then
      if entries[MARKERS[k]].Link? then Fails else Holds
    else ProbeRoot(entries, l, k + 1)
  }

  lemma {:induction false} RootAnswer(entries: map<string, Tree>, l: Listing, k: nat)
    requires k <= |MARKERS| && ("chunks" in entries ==> Lists(l, entries["chunks"]))
    ensures if "chunks" in entries && forall i :: k <= i < |MARKERS| ==> MARKERS[i] !in entries
            then ProbeRoot(entries, l, k) == ProbeListed(l, entries["chunks"])
            else ProbeRoot(entries, l, k) == ProbeMarkers(entries, k, false) == ProbeMarkers(entries, k, true)
    decreases |MARKERS| - k
  {
    if k < |MARKERS| {
      RootAnswer(entries, l, k + 1);
    }
  }

  /** Nothing but the chunks can tell. */
  ghost predicate OnlyChunks(entries: map<string, Tree>) {
    "chunks" in entries && forall i :: 0 <= i < |MARKERS| ==> MARKERS[i] !in entries
  }

  ghost predicate TwoAnswers(entries: map<string, Tree>, l: Listing, k: Listing) {
    && ("chunks" in entries ==> Lists(l, entries["chunks"]) && Lists(k, entries["chunks"]))
    && ProbeRoot(entries, l, 0) != ProbeRoot(entries, k, 0)
  }

  /** Whether a root counts as storage depends on the listing order exactly when no marker is
      there and its chunks hold both a file and a link or special node. */
  lemma RootOrderMattersExactly(entries: map<string, Tree>)
    ensures (exists l, k :: TwoAnswers(entries, l, k)) <==>
              OnlyChunks(entries) && HasFile(entries["chunks"]) && HasOddity(entries["chunks"])
  {
    forall l, k | TwoAnswers(entries, l, k)
      ensures OnlyChunks(entries) && HasFile(entries["chunks"]) && HasOddity(entries["chunks"])
    {
      RootAnswer(entries, l, 0);
      RootAnswer(entries, k, 0);
      ListedAnswer(l, entries["chunks"]);
      ListedAnswer(k, entries["chunks"]);
    }
    if OnlyChunks(entries) && HasFile(entries["chunks"]) && HasOddity(entries["chunks"]) {
      var l := OrderFor(entries["chunks"], true);
      var k := OrderFor(entries["chunks"], false);
      RootAnswer(entries, l, 0);
      RootAnswer(entries, k, 0);
      assert TwoAnswers(entries, l, k);
    }
  }

  /** The listing decides as `unlucky` says in `ContainsStorage`, and either decision occurs. */
  lemma RootAnswerByLuck(entries: map<string, Tree>, l: Listing)
    requires "chunks" in entries ==> Lists(l, entries["chunks"])
    ensures ProbeRoot(entries, l, 0) == ContainsStorage(Present(Dir(entries)), ProbeRoot(entries, l, 0) == Fails)
  {
    RootAnswer(entries, l, 0);
    if OnlyChunks(entries) {
      ListedAnswer(l, entries["chunks"]);
      MarkersAreChunks(entries, 0, ProbeListed(l, entries["chunks"]) == Fails);
    }
  }

  lemma {:induction false} MarkersAreChunks(entries: map<string, Tree>, k: nat, unlucky: bool)
    requires k <= |MARKERS| && OnlyChunks(entries)
    ensures ProbeMarkers(entries, k, unlucky) == ContainsFile(entries["chunks"], unlucky)
    decreases |MARKERS| - k
  {
    if k < |MARKERS| {
      MarkersAreChunks(entries, k + 1, unlucky);
    }
  }

  lemma EveryLuckHasItsRootOrder(entries: map<string, Tree>, unlucky: bool) returns (l: Listing)
    ensures "chunks" in entries ==> Lists(l, entries["chunks"])
    ensures ProbeRoot(entries, l, 0) == ContainsStorage(Present(Dir(entries)), unlucky)
  {
    l := Listing([], map[]);
    if "chunks" in entries {
      l := EveryLuckHasItsOrder(entries["chunks"], unlucky);
    }
    RootAnswer(entries, l, 0);
    if OnlyChunks(entries) {
      MarkersAreChunks(entries, 0, unlucky);
    }
  }

  /** One file and one link: the file first is storage, the link first is an error. */
  lemma FileAndLink(data: Data)
    ensures var chunks := Dir(map["file" := File(data), "link" := Link]);
            && (forall l :: Lists(l, chunks) && l.names == ["file", "link"] ==> ProbeRoot(map["chunks" := chunks], l, 0) == Holds)
            && (forall l :: Lists(l, chunks) && l.names == ["link", "file"] ==> ProbeRoot(map["chunks" := chunks], l, 0) == Fails)
            && exists l, k :: TwoAnswers(map["chunks" := chunks], l, k)
  {
    var chunks := Dir(map["file" := File(data), "link" := Link]);
    var entries := map["chunks" := chunks];
    assert HasFile(chunks.entries["file"]) && HasOddity(chunks.entries["link"]);
    assert OnlyChunks(entries) by {
      forall i | 0 <= i < |MARKERS| ensures MARKERS[i] !in entries {
        assert |MARKERS[i]| != |"chunks"|;
      }
    }
    RootOrderMattersExactly(entries);
    forall l | Lists(l, chunks) && l.names != []
      ensures ProbeRoot(entries, l, 0) == ProbeListed(l, chunks)
      ensures ProbeListed(l, chunks) == ProbeListed(l.below[l.names[0]], chunks.entries[l.names[0]])
    {
      RootAnswer(entries, l, 0);
      FirstDecides(l, chunks);
    }
  }

  lemma FirstDecides(l: Listing, t: Tree)
    requires Lists(l, t) && t.Dir? && l.names != []
    requires var name := l.names[0]; name in t.entries ==> t.entries[name].File? || t.entries[name].Link?
    ensures l.names[0] in t.entries && l.names[0] in l.below
    ensures ProbeListed(l, t) == ProbeListed(l.below[l.names[0]], t.entries[l.names[0]])
  {
    assert l.names[0] in l.names;
  }

  /** No root, or a directory with none of the files Core writes at its root and nothing but
      directories among its chunks. */
  ghost predicate HoldsNothing(root: Stat) {
    root == Missing ||
    (&& root.Present? && root.node.Dir?
     && "format.version" !in root.node.entries && "salt" !in root.node.entries
     && "master.salt" !in root.node.entries && "master.verify" !in root.node.entries
     && ("chunks" in root.node.entries ==> !HasFile(root.node.entries["chunks"]) && !HasOddity(root.node.entries["chunks"])))
  }

  /** A root is found to lack storage, in any listing order, exactly when it holds nothing. */
  lemma LacksExactly(root: Stat, unlucky: bool)
    ensures ContainsStorage(root, unlucky) == Lacks <==> HoldsNothing(root)
  {
    match root
    case Present(Dir(entries)) =>
      MarkerPresent(entries, 0, unlucky);
      assert MARKERS[0] == "format.version" && MARKERS[1] == "salt" && MARKERS[2] == "master.salt" && MARKERS[3] == "master.verify";
    case _ =>
  }

  lemma {:induction false} MarkerPresent(entries: map<string, Tree>, k: nat, unlucky: bool)
    requires k <= |MARKERS|
    ensures ProbeMarkers(entries, k, unlucky) == Lacks <==>
              && (forall i :: k <= i < |MARKERS| ==> MARKERS[i] !in entries)
              && ("chunks" in entries ==> !HasFile(entries["chunks"]) && !HasOddity(entries["chunks"]))
    decreases |MARKERS| - k
  {
    if k < |MARKERS| {
      MarkerPresent(entries, k + 1, unlucky);
    }
  }

  /** A root that surely holds storage: one of the files is there, and none of them is a link. */
  ghost predicate HasMarker(root: Stat) {
    && root.Present? && root.node.Dir?
    && (exists i :: 0 <= i < |MARKERS| && MARKERS[i] in root.node.entries)
    && (forall i :: 0 <= i < |MARKERS| && MARKERS[i] in root.node.entries ==> !root.node.entries[MARKERS[i]].Link?)
  }

  lemma HoldsByMarker(root: Stat, unlucky: bool)
    requires HasMarker(root)
    ensures ContainsStorage(root, unlucky) == Holds
  {
    MarkerHolds(root.node.entries, 0, unlucky);
  }

  lemma {:induction false} MarkerHolds(entries: map<string, Tree>, k: nat, unlucky: bool)
    requires k <= |MARKERS| && exists i :: k <= i < |MARKERS| && MARKERS[i] in entries
    requires forall i :: k <= i < |MARKERS| && MARKERS[i] in entries ==> !entries[MARKERS[i]].Link?
    ensures ProbeMarkers(entries, k, unlucky) == Holds
    decreases |MARKERS| - k
  {
    if MARKERS[k] !in entries {
      MarkerHolds(entries, k + 1, unlucky);
    }
  }

  // ---- The shard layout -----------------------------------------------------------------

  predicate IsHexName(name: string) {
    forall c :: c in name ==> '0' <= c <= '9' || 'a' <= c <= 'f'
  }

  predicate IsTemporary(name: string) {
    ".tmp." <= name || ".batch." <= name
  }

  function Length(data: Data): nat {
    match data
    case Raw(bytes) => |bytes|
    case Json(_) => 0
  }

  /** A chunk file under the two shard directories its own name spells. */
  predicate IsChunk(first: string, second: string, name: string, t: Tree) {
    && t.File? && |name| == 64 && IsHexName(name)
    && first == name[..1] && second == name[1..3]
    && Length(t.data) >= HEADER_SIZE
  }

  /** One entry of the chunk tree, by the path that leads to it from the chunks directory. */
  predicate FitsLayout(p: Path, t: Tree)
    requires p != []
  {
    match |p|
    case 1 => t.Dir? && |p[0]| == 1 && IsHexName(p[0])
    case 2 => t.Dir? && |p[1]| == 2 && IsHexName(p[1])
    case 3 => t.File? && (IsTemporary(p[2]) || IsChunk(p[0], p[1], p[2], t))
    case _ => false
  }

  /** Every entry below `t`, itself at path `at` below the chunks directory, fits. */
  ghost predicate AllFit(at: Path, t: Tree) {
    forall p :: p != [] && Lstat(t, p).Present? ==> FitsLayout(at + p, Lstat(t, p).node)
  }

  ghost predicate HasChunk(at: Path, t: Tree) {
    exists p :: p != [] && Lstat(t, p).Present? && |at + p| == 3 && !IsTemporary((at + p)[2])
  }

  /** `verify_chunks_read_only`, entry by entry in whatever order they are listed: it accepts
      exactly the trees in which every entry fits the three-level layout, and reports whether
      there is a chunk. */
  method VerifyChunks(at: Path, t: Tree) returns (ok: bool, found: bool)
    requires t.Dir? && |at| <= 2
    ensures ok == AllFit(at, t)
    ensures ok ==> found == HasChunk(at, t)
    decreases 2 - |at|
  {
    found := false;
    var names := t.entries.Keys;
    while names != {}
      invariant names <= t.entries.Keys
      invariant forall name :: name in t.entries && name !in names ==> EntryFits(at, t, name)
      invariant found <==> exists name :: name in t.entries && name !in names && EntryHasChunk(at, t, name)
      decreases |names|
    {
      var name :| name in names;
      names := names - {name};
      var entry := t.entries[name];
      EntryCases(at, t, name);
      if |at| < 2 {
        if !entry.Dir? || |name| != |at| + 1 || !IsHexName(name) {
          EntriesMakeTree(at, t);
          return false, false;
        }
        var below, chunk := VerifyChunks(at + [name], entry);
        if !below {
          EntriesMakeTree(at, t);
          return false, false;
        }
        found := found || chunk;
      } else {
        if !entry.File? || (!IsTemporary(name) && !IsChunk(at[0], at[1], name, entry)) {
          EntriesMakeTree(at, t);
          return false, false;
        }
        found := found || !IsTemporary(name);
      }
    }
    EntriesMakeTree(at, t);
    ok := true;
  }

  ghost predicate EntryFits(at: Path, t: Tree, name: string)
    requires t.Dir? && name in t.entries
  {
    FitsLayout(at + [name], t.entries[name]) && AllFit(at + [name], t.entries[name])
  }

  ghost predicate EntryHasChunk(at: Path, t: Tree, name: string)
    requires t.Dir? && name in t.entries
  {
    (|at| == 2 && !IsTemporary(name)) || HasChunk(at + [name], t.entries[name])
  }

  lemma EntryCases(at: Path, t: Tree, name: string)
    requires t.Dir? && name in t.entries && |at| <= 2
    ensures |at| < 2 ==>
              (FitsLayout(at + [name], t.entries[name]) <==>
               t.entries[name].Dir? && |name| == |at| + 1 && IsHexName(name))
    ensures |at| == 2 ==>
              (EntryFits(at, t, name) <==>
               t.entries[name].File? && (IsTemporary(name) || IsChunk(at[0], at[1], name, t.entries[name])))
    ensures |at| == 2 ==> !HasChunk(at + [name], t.entries[name])
  {
    if |at| == 2 && t.entries[name].File? {
      assert forall p :: p != [] ==> !Lstat(t.entries[name], p).Present?;
    }
  }

  lemma TreeFitsByEntries(at: Path, t: Tree)
    requires t.Dir? && AllFit(at, t)
    ensures forall name :: name in t.entries ==> EntryFits(at, t, name)
  {
    forall name | name in t.entries ensures EntryFits(at, t, name) {
      BelowEntry(t, name, []);
      assert [name] + [] == [name] && Lstat(t, [name]) == Present(t.entries[name]);
      forall p | p != [] && Lstat(t.entries[name], p).Present?
        ensures FitsLayout(at + [name] + p, Lstat(t.entries[name], p).node)
      {
        BelowEntry(t, name, p);
        assert at + ([name] + p) == at + [name] + p;
      }
    }
  }

  lemma EntriesFitTree(at: Path, t: Tree)
    requires t.Dir? && forall name :: name in t.entries ==> EntryFits(at, t, name)
    ensures AllFit(at, t)
  {
    forall p | p != [] && Lstat(t, p).Present? ensures FitsLayout(at + p, Lstat(t, p).node) {
      assert EntryFits(at, t, p[0]);
      assert at + p == at + [p[0]] + p[1..];
      if |p| == 1 {
        assert p == [p[0]] && p[1..] == [];
      }
    }
  }

  lemma ChunkIsInEntry(at: Path, t: Tree)
    requires t.Dir? && |at| <= 2 && HasChunk(at, t)
    ensures exists name :: name in t.entries && EntryHasChunk(at, t, name)
  {
    var p :| p != [] && Lstat(t, p).Present? && |at + p| == 3 && !IsTemporary((at + p)[2]);
    assert at + p == at + [p[0]] + p[1..];
    assert EntryHasChunk(at, t, p[0]);
  }

  lemma EntryChunkIsChunk(at: Path, t: Tree, name: string)
    requires t.Dir? && |at| <= 2 && name in t.entries && EntryHasChunk(at, t, name)
    ensures HasChunk(at, t)
  {
    if |at| == 2 && !IsTemporary(name) {
      assert Lstat(t, [name]).Present? && |at + [name]| == 3 && (at + [name])[2] == name;
    } else {
      var p :| p != [] && Lstat(t.entries[name], p).Present? && |at + [name] + p| == 3 && !IsTemporary((at + [name] + p)[2]);
      BelowEntry(t, name, p);
      assert at + ([name] + p) == at + [name] + p;
    }
  }

  lemma EntriesMakeTree(at: Path, t: Tree)
    requires t.Dir? && |at| <= 2
    ensures AllFit(at, t) <==> forall name :: name in t.entries ==> EntryFits(at, t, name)
    ensures HasChunk(at, t) <==> exists name :: name in t.entries && EntryHasChunk(at, t, name)
  {
    if AllFit(at, t) {
      TreeFitsByEntries(at, t);
    }
    if forall name :: name in t.entries ==> EntryFits(at, t, name) {
      EntriesFitTree(at, t);
    }
    if HasChunk(at, t) {
      ChunkIsInEntry(at, t);
    }
    if name :| name in t.entries && EntryHasChunk(at, t, name) {
      EntryChunkIsChunk(at, t, name);
    }
  }

  lemma BelowEntry(t: Tree, name: string, p: Path)
    requires t.Dir? && name in t.entries
    ensures Lstat(t, [name] + p) == Lstat(t.entries[name], p)
  {
    assert ([name] + p)[1..] == p;
  }

  lemma ChunkPath(p: Path, t: Tree)
    requires p != [] && FitsLayout(p, t) && t.File? && !IsTemporary(p[|p| - 1])
    ensures var name := p[|p| - 1]; |name| == 64 && p == [name[..1], name[1..3], name]
  {
  }

  /** A chunk name occurs at one place only. */
  lemma ChunkNamesAreUnique(t: Tree, p: Path, q: Path)
    requires AllFit([], t) && p != [] && q != []
    requires Lstat(t, p).Present? && Lstat(t, p).node.File?
    requires Lstat(t, q).Present? && Lstat(t, q).node.File?
    requires p[|p| - 1] == q[|q| - 1] && !IsTemporary(p[|p| - 1])
    ensures p == q
  {
    assert [] + p == p && [] + q == q;
    ChunkPath(p, Lstat(t, p).node);
    ChunkPath(q, Lstat(t, q).node);
  }

  // ---- Verifying a storage root ---------------------------------------------------------

  predicate IsFormat(t: Tree) {
    && t.File? && t.data.Json? && t.data.document.Format?
    && t.data.document.v == 2 && t.data.document.format == "sharded" && t.data.document.chunkSize > 0
  }

  predicate IsFileOf(t: Tree, length: nat) {
    t.File? && Length(t.data) == length
  }

  /** What `verify_storage_read_only` accepts. */
  ghost predicate Verified(root: Tree) {
    && root.Dir?
    && "format.version" in root.entries && IsFormat(root.entries["format.version"])
    && "chunks" in root.entries && root.entries["chunks"].Dir? && AllFit([], root.entries["chunks"])
    && (if "salt" in root.entries then IsFileOf(root.entries["salt"], SALT_SIZE)
        else !HasChunk([], root.entries["chunks"]))
    && ("master.salt" in root.entries ==> IsFileOf(root.entries["master.salt"], SALT_SIZE))
    && ("master.verify" in root.entries ==> IsFileOf(root.entries["master.verify"], VERIFY_SIZE))
  }

  method VerifyStorage(root: Tree) returns (ok: bool)
    ensures ok == Verified(root)
  {
    if !root.Dir? || "format.version" !in root.entries || !IsFormat(root.entries["format.version"]) {
      return false;
    }
    if "chunks" !in root.entries || !root.entries["chunks"].Dir? {
      return false;
    }
    var fits, hasChunks := VerifyChunks([], root.entries["chunks"]);
    if !fits {
      return false;
    }
    if "salt" in root.entries {
      if !IsFileOf(root.entries["salt"], SALT_SIZE) {
        return false;
      }
    } else if hasChunks {
      return false;
    }
    return
      && ("master.salt" in root.entries ==> IsFileOf(root.entries["master.salt"], SALT_SIZE))
      && ("master.verify" in root.entries ==> IsFileOf(root.entries["master.verify"], VERIFY_SIZE));
  }

  /** Verified storage is recognized as storage, whatever the listing order. */
  lemma VerifiedIsStorage(root: Tree, unlucky: bool)
    requires Verified(root)
    ensures ContainsStorage(Present(root), unlucky) == Holds
  {
    assert MARKERS[0] in root.entries;
  }

  /** Neither question looks at the host settings in a root. */
  lemma OtherEntries(entries: map<string, Tree>, name: string, node: Tree, unlucky: bool)
    requires name !in MARKERS && name != "chunks"
    ensures Verified(Dir(entries[name := node])) == Verified(Dir(entries))
    ensures ContainsStorage(Present(Dir(entries[name := node])), unlucky) == ContainsStorage(Present(Dir(entries)), unlucky)
  {
    assert MARKERS[0] in MARKERS && MARKERS[1] in MARKERS && MARKERS[2] in MARKERS && MARKERS[3] in MARKERS;
    OtherMarkers(entries, name, node, 0, unlucky);
  }

  lemma {:induction false} OtherMarkers(entries: map<string, Tree>, name: string, node: Tree, k: nat, unlucky: bool)
    requires name !in MARKERS && name != "chunks" && k <= |MARKERS|
    ensures ProbeMarkers(entries[name := node], k, unlucky) == ProbeMarkers(entries, k, unlucky)
    decreases |MARKERS| - k
  {
    if k < |MARKERS| {
      assert MARKERS[k] in MARKERS;
      OtherMarkers(entries, name, node, k + 1, unlucky);
    }
  }
}
