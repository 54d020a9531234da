/** The unit-test batch planner: files sorted by weight, each put into the lightest batch so
    far (longest processing time first). The plan is a permutation of the files and its
    heaviest batch is within Graham's bound, 4/3 - 1/(3m), of every other split into m batches.
 */
module Batches {
  import opened Common

  datatype UnitFile = UnitFile(name: string, suites: seq<string>, weight: nat)

  // ---- Sums over files ------------------------------------------------------------------

  function Total(f: UnitFile -> nat, files: seq<UnitFile>): nat {
    if files == [] then 0 else Total(f, files[..|files| - 1]) + f(files[|files| - 1])
  }

  function ByWeight(): UnitFile -> nat {
    (file: UnitFile) => file.weight
  }

  function Weight(files: seq<UnitFile>): nat {
    Total(ByWeight(), files)
  }

  /** `groups` is a split of exactly `files` into `m` batches, empty ones allowed. */
  ghost predicate Split(groups: seq<seq<UnitFile>>, files: seq<UnitFile>, m: nat) {
    |groups| == m && multiset(Flatten(groups)) == multiset(files)
  }

  function Heaviest(groups: seq<seq<UnitFile>>): nat {
    if groups == [] then 0
    else
      var rest, last := Heaviest(groups[..|groups| - 1]), Weight(groups[|groups| - 1]);
      if rest < last then last else rest
  }

  lemma {:induction false} HeaviestBounds(groups: seq<seq<UnitFile>>)
    ensures forall i :: 0 <= i < |groups| ==> Weight(groups[i]) <= Heaviest(groups)
    ensures groups != [] ==> exists i :: 0 <= i < |groups| && Weight(groups[i]) == Heaviest(groups)
  {
    if groups != [] {
      var n := |groups| - 1;
      var front := groups[..n];
      HeaviestBounds(front);
      assert forall i :: 0 <= i < n ==> groups[i] == front[i];
      if Heaviest(front) <= Weight(groups[n]) {
        assert Weight(groups[n]) == Heaviest(groups);
      } else {
        var i :| 0 <= i < n && Weight(front[i]) == Heaviest(front);
        assert Weight(groups[i]) == Heaviest(groups);
      }
    }
  }

  lemma {:induction false} TotalConcat(f: UnitFile -> nat, a: seq<UnitFile>, b: seq<UnitFile>)
    ensures Total(f, a + b) == Total(f, a) + Total(f, b)
  {
    if b == [] {
      assert a + b == a;
    } else {
      assert (a + b)[..|a + b| - 1] == a + b[..|b| - 1];
      TotalConcat(f, a, b[..|b| - 1]);
    }
  }

  /** A sum over files depends only on which files there are, not on their order. */
  lemma {:induction false} TotalOfPermutation(f: UnitFile -> nat, a: seq<UnitFile>, b: seq<UnitFile>)
    requires multiset(a) == multiset(b)
    ensures Total(f, a) == Total(f, b)
    decreases |a|
  {
    assert |a| == |multiset(a)| == |multiset(b)| == |b|;
    if a != [] {
      var last := a[|a| - 1];
      assert a == a[..|a| - 1] + [last];
      assert last in multiset(b);
      var i :| 0 <= i < |b| && b[i] == last;
      assert b == b[..i] + [last] + b[i + 1..];
      assert multiset(a[..|a| - 1]) == multiset(a) - multiset{last};
      assert multiset(b[..i] + b[i + 1..]) == multiset(b) - multiset{last};
      TotalOfPermutation(f, a[..|a| - 1], b[..i] + b[i + 1..]);
      TotalConcat(f, b[..i], b[i + 1..]);
      TotalConcat(f, b[..i] + [last], b[i + 1..]);
      TotalConcat(f, b[..i], [last]);
    }
  }

  lemma OneMore(n: nat, k: nat)
    ensures (n + 1) * k == n * k + k
  {
  }

  lemma {:induction false} TotalAtMost(f: UnitFile -> nat, groups: seq<seq<UnitFile>>, bound: nat)
    requires forall i :: 0 <= i < |groups| ==> Total(f, groups[i]) <= bound
    ensures Total(f, Flatten(groups)) <= |groups| * bound
  {
    if groups != [] {
      var n := |groups| - 1;
      TotalAtMost(f, groups[..n], bound);
      TotalConcat(f, Flatten(groups[..n]), groups[n]);
      OneMore(n, bound);
    }
  }

  lemma {:induction false} TotalAtLeast(f: UnitFile -> nat, groups: seq<seq<UnitFile>>, bound: nat)
    requires forall i :: 0 <= i < |groups| ==> Total(f, groups[i]) >= bound
    ensures Total(f, Flatten(groups)) >= |groups| * bound
  {
    if groups != [] {
      var n := |groups| - 1;
      TotalAtLeast(f, groups[..n], bound);
      TotalConcat(f, Flatten(groups[..n]), groups[n]);
      OneMore(n, bound);
    }
  }

  lemma {:induction false} FlattenUpdate(groups: seq<seq<UnitFile>>, i: nat, file: UnitFile)
    requires i < |groups|
    ensures multiset(Flatten(groups[i := groups[i] + [file]])) == multiset(Flatten(groups)) + multiset{file}
  {
    var n := |groups| - 1;
    var updated := groups[i := groups[i] + [file]];
    if i < n {
      FlattenUpdate(groups[..n], i, file);
      assert updated[..n] == groups[..n][i := groups[i] + [file]];
    } else {
      assert updated[..n] == groups[..n];
    }
  }

  lemma {:induction false} InSomeGroup(groups: seq<seq<UnitFile>>, file: UnitFile)
    requires file in Flatten(groups)
    ensures exists i :: 0 <= i < |groups| && file in groups[i]
  {
    var n := |groups| - 1;
    if file in Flatten(groups[..n]) {
      InSomeGroup(groups[..n], file);
      var i :| 0 <= i < |groups[..n]| && file in groups[..n][i];
      assert file in groups[i];
    } else {
      assert file in groups[n];
    }
  }

  lemma {:induction false} MemberAtMost(f: UnitFile -> nat, files: seq<UnitFile>, i: nat)
    requires i < |files|
    ensures f(files[i]) <= Total(f, files)
  {
    if i < |files| - 1 {
      MemberAtMost(f, files[..|files| - 1], i);
    }
  }

  // ---- The order files are placed in ----------------------------------------------------

  predicate NameLeq(a: string, b: string) {
    a == [] || (b != [] && (a[0] < b[0] || (a[0] == b[0] && NameLeq(a[1..], b[1..]))))
  }

  /** The sort key: heavier first, then by name. */
  predicate Before(a: UnitFile, b: UnitFile) {
    a.weight > b.weight || (a.weight == b.weight && NameLeq(a.name, b.name))
  }

  lemma {:induction false} NameOrder(a: string, b: string, c: string)
    ensures NameLeq(a, b) || NameLeq(b, a)
    ensures NameLeq(a, b) && NameLeq(b, c) ==> NameLeq(a, c)
    ensures NameLeq(a, b) && NameLeq(b, a) ==> a == b
    decreases |a| + |b| + |c|
  {
    if a != [] && b != [] {
      if c != [] {
        NameOrder(a[1..], b[1..], c[1..]);
      } else {
        NameOrder(a[1..], b[1..], c);
      }
      assert a == [a[0]] + a[1..] && b == [b[0]] + b[1..];
    }
  }

  ghost predicate Ordered(files: seq<UnitFile>) {
    forall i, j :: 0 <= i < j < |files| ==> Before(files[i], files[j])
  }

  function Insert(file: UnitFile, files: seq<UnitFile>): seq<UnitFile> {
    if files == [] || Before(file, files[0]) then [file] + files
    else [files[0]] + Insert(file, files[1..])
  }

  function SortFiles(files: seq<UnitFile>): seq<UnitFile> {
    if files == [] then [] else Insert(files[0], SortFiles(files[1..]))
  }

  lemma {:induction false} InsertKeeps(file: UnitFile, files: seq<UnitFile>)
    ensures multiset(Insert(file, files)) == multiset(files) + multiset{file}
  {
    if files != [] && !Before(file, files[0]) {
      InsertKeeps(file, files[1..]);
      assert files == [files[0]] + files[1..];
    }
  }

  lemma OrderedCons(file: UnitFile, files: seq<UnitFile>)
    requires Ordered(files) && forall other :: other in files ==> Before(file, other)
    ensures Ordered([file] + files)
  {
    var all := [file] + files;
    forall i, j | 0 <= i < j < |all| ensures Before(all[i], all[j]) {
      assert all[j] == files[j - 1];
      if i > 0 {
        assert all[i] == files[i - 1];
      }
    }
  }

  lemma {:induction false} InsertOrdered(file: UnitFile, files: seq<UnitFile>)
    requires Ordered(files)
    ensures Ordered(Insert(file, files))
  {
    if files == [] {
    } else if Before(file, files[0]) {
      forall other | other in files ensures Before(file, other) {
        NameOrder(file.name, files[0].name, other.name);
      }
      OrderedCons(file, files);
    } else {
      InsertOrdered(file, files[1..]);
      InsertKeeps(file, files[1..]);
      NameOrder(file.name, files[0].name, []);
      forall other | other in Insert(file, files[1..]) ensures Before(files[0], other) {
        assert other in multiset(files[1..]) + multiset{file};
        assert other == file || other in files[1..];
      }
      OrderedCons(files[0], Insert(file, files[1..]));
    }
  }

  lemma {:induction false} SortFilesSorts(files: seq<UnitFile>)
    ensures Ordered(SortFiles(files))
    ensures multiset(SortFiles(files)) == multiset(files)
  {
    if files != [] {
      SortFilesSorts(files[1..]);
      InsertOrdered(files[0], SortFiles(files[1..]));
      InsertKeeps(files[0], SortFiles(files[1..]));
      assert files == [files[0]] + files[1..];
    }
  }

  /** Weight and name tell the files apart. */
  ghost predicate ToldApart(files: seq<UnitFile>) {
    forall x, y :: x in files && y in files && x.weight == y.weight && x.name == y.name ==> x == y
  }

  lemma {:induction false} SameHead(a: seq<UnitFile>, b: seq<UnitFile>)
    requires Ordered(a) && Ordered(b) && multiset(a) == multiset(b) && a != [] && b != []
    requires ToldApart(a)
    ensures a[0] == b[0]
  {
    assert a[0] in multiset(b) && b[0] in multiset(a);
    var i :| 0 <= i < |b| && b[i] == a[0];
    var j :| 0 <= j < |a| && a[j] == b[0];
    assert i > 0 ==> Before(b[0], b[i]);
    assert j > 0 ==> Before(a[0], a[j]);
    NameOrder(a[0].name, b[0].name, []);
  }

  /** An ordering of a collection of files without two equal keys is unique. */
  lemma {:induction false} OrderIsUnique(a: seq<UnitFile>, b: seq<UnitFile>)
    requires Ordered(a) && Ordered(b) && multiset(a) == multiset(b)
    requires ToldApart(a)
    ensures a == b
    decreases |a|
  {
    assert |a| == |multiset(a)| == |multiset(b)| == |b|;
    if a != [] {
      hide Ordered, ToldApart;
      SameHead(a, b);
      OrderedTail(a);
      OrderedTail(b);
      ToldApartTail(a);
      OrderIsUnique(a[1..], b[1..]);
    }
  }

  lemma OrderedTail(files: seq<UnitFile>)
    requires Ordered(files) && files != []
    ensures Ordered(files[1..])
    ensures files == [files[0]] + files[1..]
    ensures multiset(files[1..]) == multiset(files) - multiset{files[0]}
  {
    assert files == [files[0]] + files[1..];
  }

  lemma ToldApartTail(files: seq<UnitFile>)
    requires ToldApart(files) && files != []
    ensures ToldApart(files[1..])
  {
    forall x | x in files[1..] ensures x in files {
    }
  }

  // ---- The greedy assignment ------------------------------------------------------------

  function EmptyGroups(m: nat): (groups: seq<seq<UnitFile>>)
    ensures |groups| == m && Flatten(groups) == []
    ensures forall i :: 0 <= i < m ==> groups[i] == []
  {
    if m == 0 then []
    else
      var rest := EmptyGroups(m - 1);
      assert (rest + [[]])[..m - 1] == rest;
      rest + [[]]
  }

  /** `i` is the first of the lightest batches. */
  ghost predicate Lightest(groups: seq<seq<UnitFile>>, i: nat) {
    && i < |groups|
    && (forall j :: 0 <= j < |groups| ==> Weight(groups[i]) <= Weight(groups[j]))
    && (forall j :: 0 <= j < i ==> Weight(groups[i]) < Weight(groups[j]))
  }

  lemma {:induction false} LightestExists(groups: seq<seq<UnitFile>>)
    requires groups != []
    ensures exists i: nat :: Lightest(groups, i)
  {
    var n := |groups| - 1;
    if n == 0 {
      assert Lightest(groups, 0);
    } else {
      LightestExists(groups[..n]);
      var i: nat :| Lightest(groups[..n], i);
      assert forall j :: 0 <= j < n ==> groups[..n][j] == groups[j];
      if Weight(groups[n]) < Weight(groups[i]) {
        assert Lightest(groups, n);
      } else {
        assert Lightest(groups, i);
      }
    }
  }

  ghost function LightestIndex(groups: seq<seq<UnitFile>>): (i: nat)
    requires groups != []
    ensures Lightest(groups, i)
  {
    LightestExists(groups);
    var i: nat :| Lightest(groups, i);
    i
  }

  /** The batches after the files of `ordered` have been placed one by one. */
  ghost function Placed(ordered: seq<UnitFile>, m: nat): (groups: seq<seq<UnitFile>>)
    requires m > 0
    ensures |groups| == m
  {
    if ordered == [] then EmptyGroups(m)
    else
      var n := |ordered| - 1;
      var groups := Placed(ordered[..n], m);
      var i := LightestIndex(groups);
      groups[i := groups[i] + [ordered[n]]]
  }

  lemma InRange(a: seq<seq<UnitFile>>)
    requires a != []
    ensures LightestIndex(a) < |a|
  {
  }

  lemma {:induction false} PlacedIsSplit(ordered: seq<UnitFile>, m: nat)
    requires m > 0
    ensures Split(Placed(ordered, m), ordered, m)
  {
    hide Flatten, Lightest;
    if ordered == [] {
    } else {
      var n := |ordered| - 1;
      PlacedIsSplit(ordered[..n], m);
      var groups := Placed(ordered[..n], m);
      InRange(groups);
      FlattenUpdate(groups, LightestIndex(groups), ordered[n]);
      assert ordered == ordered[..n] + [ordered[n]];
    }
  }

  // ---- Graham's bound -------------------------------------------------------------------

  /** `w` is within (4/3 - 1/(3m)) of the heaviest batch of every split of `files` into `m`. */
  ghost predicate WithinBound(w: nat, files: seq<UnitFile>, m: nat) {
    forall other | Split(other, files, m) :: 3 * m * w <= (4 * m - 1) * Heaviest(other)
  }

  /** Counts a file that is at least as heavy as `last`, and counts it again when it leaves no
      room under `cap` for another such file. */
  function Crowding(last: nat, cap: nat): UnitFile -> nat {
    (file: UnitFile) =>
      if file.weight < last then 0 else if file.weight + last > cap then 2 else 1
  }

  /** With `last` over a third of `cap`, a batch of weight at most `cap` is crowded at most twice. */
  lemma {:induction false} CrowdingUnderCap(last: nat, cap: nat, files: seq<UnitFile>)
    requires 3 * last > cap
    requires Weight(files) <= cap
    ensures Total(Crowding(last, cap), files) <= 2
    ensures Total(Crowding(last, cap), files) == 1 ==> Weight(files) >= last
    ensures Total(Crowding(last, cap), files) == 2 ==> Weight(files) + last > cap
  {
    if files != [] {
      var n := |files| - 1;
      CrowdingUnderCap(last, cap, files[..n]);
    }
  }

  /** A non-empty batch of files no lighter than `last`, too heavy for one more, is crowded twice. */
  lemma {:induction false} CrowdingOverCap(last: nat, cap: nat, files: seq<UnitFile>)
    requires forall file :: file in files ==> file.weight >= last
    requires Weight(files) + last > cap >= last
    ensures Total(Crowding(last, cap), files) >= 2
  {
    var n := |files| - 1;
    assert files[n] in files;
    if n > 0 {
      var front := files[..n];
      assert front[n - 1] == files[n - 1] && files[n - 1] in files;
      assert Total(Crowding(last, cap), front) >= Crowding(last, cap)(front[n - 1]) >= 1;
    } else {
      assert files[..0] == [] && Total(ByWeight(), files[..0]) == 0;
      assert Weight(files) == files[0].weight;
    }
  }

  /** The heart of the bound: placing a file no heavier than those before it on the lightest
      batch keeps that batch within the bound. Either the file is at most a third of the other
      split's heaviest batch, and averaging suffices; or every batch of that split holds at most
      two such files, and counting how crowded both splits are shows there was room. */
  lemma {:induction false} PlacementWithinBound(groups: seq<seq<UnitFile>>, i: nat, file: UnitFile,
                                                placed: seq<UnitFile>, files: seq<UnitFile>, rest: seq<UnitFile>)
    requires Split(groups, placed, |groups|) && Lightest(groups, i)
    requires files == placed + [file] + rest
    requires forall x :: x in placed ==> x.weight >= file.weight
    ensures WithinBound(Weight(groups[i] + [file]), files, |groups|)
  {
    var m := |groups|;
    var w := Weight(groups[i] + [file]);
    WeightSnoc(groups[i], file);
    forall other | Split(other, files, m) ensures 3 * m * w <= (4 * m - 1) * Heaviest(other) {
      HeaviestBounds(other);
      var cap := Heaviest(other);
      if w > cap {
        FileFits(other, files, placed, file, rest);
        if 3 * file.weight > cap {
          NoRoomForCrowds(groups, i, file, placed, files, rest, other);
        }
        Averaging(groups, i, file, placed, files, rest, other);
        BoundArithmetic(m, w, cap, file.weight);
      } else {
        BoundArithmetic(m, w, cap, 0);
      }
    }
  }

  lemma BoundArithmetic(m: nat, w: nat, cap: nat, p: nat)
    requires m > 0 && 3 * p <= cap
    requires w <= cap || m * w <= m * cap + (m - 1) * p
    ensures 3 * m * w <= (4 * m - 1) * cap
  {
    var spare := (m - 1) * cap;
    Associate(3, m, w);
    Associate(3, m, cap);
    Distribute(3 * m, m - 1, cap);
    assert (4 * m - 1) * cap == 3 * (m * cap) + spare;
    if w <= cap {
      MulMonotone(m, w, cap);
    } else {
      MulMonotone(m - 1, 3 * p, cap);
      Associate(m - 1, 3, p);
      Associate(3, m - 1, p);
    }
  }

  lemma Associate(a: nat, b: nat, c: nat)
    ensures a * b * c == a * (b * c)
  {
  }

  lemma Distribute(a: nat, b: nat, c: nat)
    ensures (a + b) * c == a * c + b * c
  {
  }

  lemma AverageArithmetic(m: nat, low: nat, w: nat, cap: nat)
    requires m > 0 && m * low + w <= m * cap
    ensures m * (low + w) <= m * cap + (m - 1) * w
  {
    assert m * (low + w) == m * low + m * w;
    assert m * w == (m - 1) * w + w;
  }

  lemma MulMonotone(k: nat, a: nat, b: nat)
    requires a <= b
    ensures k * a <= k * b
  {
  }

  lemma {:induction false} FileFits(other: seq<seq<UnitFile>>, files: seq<UnitFile>,
                                    placed: seq<UnitFile>, file: UnitFile, rest: seq<UnitFile>)
    requires multiset(Flatten(other)) == multiset(files) && files == placed + [file] + rest
    ensures file.weight <= Heaviest(other)
  {
    assert file == files[|placed|];
    assert file in multiset(files);
    assert file in Flatten(other);
    InSomeGroup(other, file);
    var j :| 0 <= j < |other| && file in other[j];
    var k :| 0 <= k < |other[j]| && other[j][k] == file;
    MemberAtMost(ByWeight(), other[j], k);
    HeaviestBounds(other);
    assert Weight(other[j]) <= Heaviest(other);
  }

  /** A sum over all files is at least the sum over those placed and the file placed next. */
  lemma TotalOfPrefix(f: UnitFile -> nat, placed: seq<UnitFile>, file: UnitFile, rest: seq<UnitFile>)
    ensures Total(f, placed + [file] + rest) >= Total(f, placed) + f(file)
  {
    TotalConcat(f, placed + [file], rest);
    assert (placed + [file])[..|placed|] == placed;
  }

  lemma {:induction false} Averaging(groups: seq<seq<UnitFile>>, i: nat, file: UnitFile,
                                     placed: seq<UnitFile>, files: seq<UnitFile>, rest: seq<UnitFile>,
                                     other: seq<seq<UnitFile>>)
    requires Split(groups, placed, |groups|) && Lightest(groups, i)
    requires files == placed + [file] + rest
    requires Split(other, files, |groups|)
    ensures |groups| * (Weight(groups[i]) + file.weight) <= |groups| * Heaviest(other) + (|groups| - 1) * file.weight
  {
    var m, low, cap := |groups|, Weight(groups[i]), Heaviest(other);
    TotalAtLeast(ByWeight(), groups, low);
    TotalOfPermutation(ByWeight(), Flatten(groups), placed);
    TotalOfPrefix(ByWeight(), placed, file, rest);
    HeaviestBounds(other);
    TotalAtMost(ByWeight(), other, cap);
    TotalOfPermutation(ByWeight(), Flatten(other), files);
    AverageArithmetic(m, low, file.weight, cap);
  }

  lemma {:induction false} NoRoomForCrowds(groups: seq<seq<UnitFile>>, i: nat, file: UnitFile,
                                           placed: seq<UnitFile>, files: seq<UnitFile>, rest: seq<UnitFile>,
                                           other: seq<seq<UnitFile>>)
    requires Split(groups, placed, |groups|) && Lightest(groups, i)
    requires files == placed + [file] + rest
    requires forall x :: x in placed ==> x.weight >= file.weight
    requires Split(other, files, |groups|)
    requires 3 * file.weight > Heaviest(other) >= file.weight
    ensures Weight(groups[i]) + file.weight <= Heaviest(other)
  {
    var m, cap := |groups|, Heaviest(other);
    if Weight(groups[i]) + file.weight > cap {
      var crowding := Crowding(file.weight, cap);
      forall j | 0 <= j < m ensures Total(crowding, groups[j]) >= 2 {
        forall x | x in groups[j] ensures x.weight >= file.weight {
          MembersOfFlatten(groups, j, x);
          assert x in multiset(placed);
        }
        CrowdingOverCap(file.weight, cap, groups[j]);
      }
      TotalAtLeast(crowding, groups, 2);
      TotalOfPermutation(crowding, Flatten(groups), placed);
      TotalOfPrefix(crowding, placed, file, rest);
      HeaviestBounds(other);
      forall j | 0 <= j < m ensures Total(crowding, other[j]) <= 2 {
        CrowdingUnderCap(file.weight, cap, other[j]);
      }
      TotalAtMost(crowding, other, 2);
      TotalOfPermutation(crowding, Flatten(other), files);
      assert false;
    }
  }

  lemma {:induction false} MembersOfFlatten(groups: seq<seq<UnitFile>>, j: nat, x: UnitFile)
    requires j < |groups| && x in groups[j]
    ensures x in multiset(Flatten(groups))
  {
    var n := |groups| - 1;
    if j < n {
      MembersOfFlatten(groups[..n], j, x);
    }
  }

  lemma EmptyWithinBound(files: seq<UnitFile>, m: nat)
    requires m > 0
    ensures WithinBound(0, files, m)
  {
    forall other | Split(other, files, m) ensures 3 * m * 0 <= (4 * m - 1) * Heaviest(other) {
      BoundArithmetic(m, 0, Heaviest(other), 0);
    }
  }

  lemma WeightSnoc(g: seq<UnitFile>, file: UnitFile)
    ensures Weight(g + [file]) == Weight(g) + file.weight
  {
    assert (g + [file])[..|g|] == g;
  }

  lemma {:induction false} PlacedWithinBound(ordered: seq<UnitFile>, k: nat, m: nat, i: nat)
    requires i < m && k <= |ordered| && Ordered(ordered)
    ensures WithinBound(Weight(Placed(ordered[..k], m)[i]), ordered, m)
  {
    if k == 0 {
      EmptyWithinBound(ordered, m);
      assert Weight([]) == 0;
    } else {
      hide WithinBound, Weight, Lightest, Split;
      var placed, file := ordered[..k - 1], ordered[k - 1];
      var groups := Placed(placed, m);
      var lightest := LightestIndex(groups);
      assert ordered[..k][..k - 1] == placed;
      if i == lightest {
        PlacedIsSplit(placed, m);
        assert ordered == placed + [file] + ordered[k..];
        PlacementWithinBound(groups, i, file, placed, ordered, ordered[k..]);
      } else {
        PlacedWithinBound(ordered, k - 1, m, i);
      }
    }
  }

  /** If a batch stayed empty, no batch is heavier than the heaviest file. */
  lemma {:induction false} IdleBatch(ordered: seq<UnitFile>, m: nat, idle: nat)
    requires idle < m && Ordered(ordered) && Placed(ordered, m)[idle] == []
    requires ordered != []
    ensures forall i :: 0 <= i < m ==> Weight(Placed(ordered, m)[i]) <= ordered[0].weight
  {
    var n := |ordered| - 1;
    var placed, file := ordered[..n], ordered[n];
    var groups := Placed(placed, m);
    var i := LightestIndex(groups);
    assert groups[idle] == [];
    assert Weight(groups[i]) <= Weight(groups[idle]) == 0;
    WeightSnoc(groups[i], file);
    if n > 0 {
      IdleBatch(placed, m, idle);
      assert Before(ordered[0], file);
    }
  }

  function NonEmpty(groups: seq<seq<UnitFile>>): seq<seq<UnitFile>> {
    if groups == [] then []
    else
      var n := |groups| - 1;
      NonEmpty(groups[..n]) + if groups[n] == [] then [] else [groups[n]]
  }

  lemma {:induction false} NonEmptyKeepsFiles(groups: seq<seq<UnitFile>>)
    ensures Flatten(NonEmpty(groups)) == Flatten(groups)
    ensures forall g :: g in NonEmpty(groups) <==> g in groups && g != []
    ensures |NonEmpty(groups)| <= |groups|
    ensures |NonEmpty(groups)| == |groups| || [] in groups
  {
    if groups != [] {
      var n := |groups| - 1;
      NonEmptyKeepsFiles(groups[..n]);
      assert groups == groups[..n] + [groups[n]];
      if groups[n] != [] {
        assert NonEmpty(groups)[..|NonEmpty(groups)| - 1] == NonEmpty(groups[..n]);
      } else {
        assert NonEmpty(groups) == NonEmpty(groups[..n]);
      }
    }
  }

  // ---- The plan -------------------------------------------------------------------------

  function BatchCount(files: seq<UnitFile>, batches: int): (m: nat)
    ensures m >= 1
  {
    var most := if batches < |files| then batches else |files|;
    if most < 1 then 1 else most
  }

  ghost function Plan(files: seq<UnitFile>, batches: int): seq<seq<UnitFile>> {
    NonEmpty(Placed(SortFiles(files), BatchCount(files, batches)))
  }

  lemma PlacedSnoc(ordered: seq<UnitFile>, n: nat, m: nat, i: nat)
    requires n < |ordered| && m > 0
    requires Lightest(Placed(ordered[..n], m), i)
    ensures Placed(ordered[..n + 1], m) ==
            Placed(ordered[..n], m)[i := Placed(ordered[..n], m)[i] + [ordered[n]]]
  {
    assert ordered[..n + 1][..n] == ordered[..n];
    LightestIsUnique(Placed(ordered[..n], m), i, LightestIndex(Placed(ordered[..n], m)));
  }

  method FirstLightest(weights: seq<nat>) returns (index: nat)
    requires weights != []
    ensures index < |weights|
    ensures forall j :: 0 <= j < |weights| ==> weights[index] <= weights[j]
    ensures forall j :: 0 <= j < index ==> weights[index] < weights[j]
  {
    index := 0;
    for i := 1 to |weights|
      invariant index < i
      invariant forall j :: 0 <= j < i ==> weights[index] <= weights[j]
      invariant forall j :: 0 <= j < index ==> weights[index] < weights[j]
    {
      if weights[i] < weights[index] {
        index := i;
      }
    }
  }

  ghost predicate Weighs(weights: seq<nat>, groups: seq<seq<UnitFile>>) {
    |weights| == |groups| && forall i :: 0 <= i < |groups| ==> weights[i] == Weight(groups[i])
  }

  lemma WeighsAfter(weights: seq<nat>, groups: seq<seq<UnitFile>>, index: nat, file: UnitFile)
    requires Weighs(weights, groups) && index < |groups|
    ensures Weighs(weights[index := weights[index] + file.weight], groups[index := groups[index] + [file]])
  {
    WeightSnoc(groups[index], file);
  }

  lemma LightestByWeights(weights: seq<nat>, groups: seq<seq<UnitFile>>, index: nat)
    requires Weighs(weights, groups) && index < |groups|
    requires forall j :: 0 <= j < |weights| ==> weights[index] <= weights[j]
    requires forall j :: 0 <= j < index ==> weights[index] < weights[j]
    ensures Lightest(groups, index)
  {
    assert weights[index] == Weight(groups[index]);
    forall j | 0 <= j < |groups| ensures Weight(groups[index]) <= Weight(groups[j]) {
      assert weights[j] == Weight(groups[j]);
    }
    forall j | 0 <= j < index ensures Weight(groups[index]) < Weight(groups[j]) {
      assert weights[j] == Weight(groups[j]);
    }
  }

  /** `balance`: the loop over the sorted files, updating batches and weights. */
  method Balance(files: seq<UnitFile>, batches: int) returns (result: seq<seq<UnitFile>>)
    ensures result == Plan(files, batches)
  {
    var count := BatchCount(files, batches);
    var ordered := SortFiles(files);
    var groups := PlaceAll(ordered, count);
    result := NonEmpty(groups);
  }

  method PlaceAll(ordered: seq<UnitFile>, count: nat) returns (groups: seq<seq<UnitFile>>)
    requires count > 0
    ensures groups == Placed(ordered, count)
  {
    groups := EmptyGroups(count);
    var weights: seq<nat> := seq(count, _ => 0);
    for n := 0 to |ordered|
      invariant groups == Placed(ordered[..n], count)
      invariant Weighs(weights, groups)
    {
      var index := FirstLightest(weights);
      LightestByWeights(weights, groups, index);
      PlacedSnoc(ordered, n, count, index);
      WeighsAfter(weights, groups, index, ordered[n]);
      groups := groups[index := groups[index] + [ordered[n]]];
      weights := weights[index := weights[index] + ordered[n].weight];
    }
    assert ordered[..|ordered|] == ordered;
  }

  lemma LightestIsUnique(groups: seq<seq<UnitFile>>, i: nat, j: nat)
    requires Lightest(groups, i) && Lightest(groups, j)
    ensures i == j
  {
    assert Weight(groups[i]) <= Weight(groups[j]) <= Weight(groups[i]);
  }

  /** The plan holds exactly the given files, in no empty batch, and in no more batches than
      there are files or were asked for; without files there is none. */
  lemma PlanIsPartition(files: seq<UnitFile>, batches: int)
    ensures Split(Plan(files, batches), files, |Plan(files, batches)|)
    ensures forall g :: g in Plan(files, batches) ==> g != []
    ensures |Plan(files, batches)| <= |files|
    ensures |Plan(files, batches)| <= if batches < 1 then 1 else batches
  {
    var ordered, m := SortFiles(files), BatchCount(files, batches);
    hide Placed, NonEmpty, SortFiles;
    SortFilesSorts(files);
    PlacedIsSplit(ordered, m);
    NonEmptyKeepsFiles(Placed(ordered, m));
    NoMoreThan(Plan(files, batches), files);
  }

  lemma NoMoreThan(groups: seq<seq<UnitFile>>, files: seq<UnitFile>)
    requires multiset(Flatten(groups)) == multiset(files) && forall g :: g in groups ==> g != []
    ensures |groups| <= |files|
  {
    forall i | 0 <= i < |groups| ensures groups[i] != [] {
      assert groups[i] in groups;
    }
    NoMoreThanFiles(groups);
    assert |Flatten(groups)| == |multiset(Flatten(groups))| == |multiset(files)| == |files|;
  }

  lemma {:induction false} NoMoreThanFiles(groups: seq<seq<UnitFile>>)
    requires forall i :: 0 <= i < |groups| ==> groups[i] != []
    ensures |groups| <= |Flatten(groups)|
  {
    if groups != [] {
      NoMoreThanFiles(groups[..|groups| - 1]);
    }
  }

  // ---- How many batches are used --------------------------------------------------------

  /** The first `n` batches are in use and weigh something. */
  ghost predicate Filled(groups: seq<seq<UnitFile>>, n: nat) {
    forall i :: 0 <= i < |groups| ==> (groups[i] == [] <==> i >= n) && (i < n ==> Weight(groups[i]) > 0)
  }

  lemma FillsNext(groups: seq<seq<UnitFile>>, n: nat, i: nat)
    requires Lightest(groups, i) && Filled(groups, n)
    ensures n < |groups| ==> i == n
  {
    if n < |groups| {
      assert groups[n] == [] && Weight([]) == 0;
      assert Weight(groups[i]) <= Weight(groups[n]);
    }
  }

  lemma FilledAfter(groups: seq<seq<UnitFile>>, n: nat, i: nat, file: UnitFile)
    requires Filled(groups, n) && i < |groups| && (n < |groups| ==> i == n) && file.weight > 0
    ensures Filled(groups[i := groups[i] + [file]], n + 1)
  {
    hide Weight;
    WeightSnoc(groups[i], file);
  }

  /** With files that all weigh something the batches fill from the front. */
  lemma {:induction false} FillsUp(ordered: seq<UnitFile>, m: nat)
    requires m > 0 && forall i :: 0 <= i < |ordered| ==> ordered[i].weight > 0
    ensures Filled(Placed(ordered, m), |ordered|)
  {
    hide Filled, Weight, Lightest;
    if ordered == [] {
      NoneFilled(m);
    } else {
      var n := |ordered| - 1;
      var groups := Placed(ordered[..n], m);
      var i := LightestIndex(groups);
      FillsUp(ordered[..n], m);
      FillsNext(groups, n, i);
      InRange(groups);
      FilledAfter(groups, n, i, ordered[n]);
    }
  }

  lemma NoneFilled(m: nat)
    ensures Filled(EmptyGroups(m), 0)
  {
  }

  lemma {:induction false} AllStay(groups: seq<seq<UnitFile>>)
    requires forall i :: 0 <= i < |groups| ==> groups[i] != []
    ensures NonEmpty(groups) == groups
  {
    if groups != [] {
      AllStay(groups[..|groups| - 1]);
      assert groups == groups[..|groups| - 1] + [groups[|groups| - 1]];
    }
  }

  /** When every file weighs something, exactly as many batches are used as were asked for, but
      at least one and no more than there are files. */
  lemma UsesWhatIsAsked(files: seq<UnitFile>, batches: int)
    requires files != [] && forall file :: file in files ==> file.weight > 0
    ensures |Plan(files, batches)| == if batches < 1 then 1 else if batches < |files| then batches else |files|
  {
    var ordered, m := SortFiles(files), BatchCount(files, batches);
    SortFilesSorts(files);
    forall i | 0 <= i < |ordered| ensures ordered[i].weight > 0 {
      assert ordered[i] in multiset(ordered);
      assert ordered[i] in files;
    }
    assert |ordered| == |multiset(ordered)| == |multiset(files)| == |files|;
    FillsUp(ordered, m);
    AllStay(Placed(ordered, m));
  }

  // ---- The order within -----------------------------------------------------------------

  /** The names agree before `i` and the first one is smaller there. */
  ghost predicate SmallerAt(a: string, b: string, i: nat) {
    i < |a| && i < |b| && a[..i] == b[..i] && a[i] < b[i]
  }

  /** Names compare character by character, a shorter beginning first. */
  lemma {:induction false} NamesCompare(a: string, b: string)
    ensures NameLeq(a, b) <==> a <= b || exists i: nat :: SmallerAt(a, b, i)
  {
    if a != [] && b != [] {
      assert a == [a[0]] + a[1..] && b == [b[0]] + b[1..];
      NamesCompare(a[1..], b[1..]);
      assert a[0] < b[0] ==> SmallerAt(a, b, 0);
      if a[0] == b[0] {
        forall i: nat | SmallerAt(a[1..], b[1..], i) ensures SmallerAt(a, b, i + 1) {
          assert a[..i + 1] == [a[0]] + a[1..][..i] && b[..i + 1] == [b[0]] + b[1..][..i];
        }
      }
      forall i: nat | i > 0 && SmallerAt(a, b, i) ensures a[0] == b[0] && SmallerAt(a[1..], b[1..], i - 1) {
        assert a[..i][0] == b[..i][0];
        assert a[1..][..i - 1] == a[..i][1..] && b[1..][..i - 1] == b[..i][1..];
      }
    }
  }

  /** A single batch lists the heaviest file first and equal weights by name. */
  lemma OneBatchIsInOrder(files: seq<UnitFile>, batches: int)
    requires files != [] && batches <= 1
    ensures |Plan(files, batches)| == 1
    ensures var g := Plan(files, batches)[0];
            && multiset(g) == multiset(files)
            && forall i, j :: 0 <= i < j < |g| ==>
                 g[i].weight > g[j].weight || (g[i].weight == g[j].weight && NameLeq(g[i].name, g[j].name))
  {
    hide Plan, SortFiles;
    SortFilesSorts(files);
    OnePlan(files, batches);
  }

  lemma OnePlan(files: seq<UnitFile>, batches: int)
    requires files != [] && batches <= 1
    ensures Plan(files, batches) == [SortFiles(files)]
  {
    hide Placed, NonEmpty, SortFiles;
    var ordered, m := SortFiles(files), BatchCount(files, batches);
    SortFilesSorts(files);
    InOneBatch(ordered, m);
    assert |ordered| == |multiset(ordered)| == |multiset(files)| == |files|;
    AllStay(Placed(ordered, m));
  }

  lemma {:induction false} InOneBatch(ordered: seq<UnitFile>, m: nat)
    requires m == 1
    ensures Placed(ordered, m)[0] == ordered
  {
    if ordered != [] {
      var n := |ordered| - 1;
      InOneBatch(ordered[..n], m);
      assert ordered == ordered[..n] + [ordered[n]];
      assert LightestIndex(Placed(ordered[..n], m)) == 0;
    }
  }

  /** Among batches of one weight the next file never goes to a later one. */
  lemma TiesGoFirst(ordered: seq<UnitFile>, file: UnitFile, m: nat, i: nat, j: nat)
    requires i < j < m && Weight(Placed(ordered, m)[i]) == Weight(Placed(ordered, m)[j])
    ensures Placed(ordered + [file], m)[j] == Placed(ordered, m)[j]
  {
    assert (ordered + [file])[..|ordered|] == ordered;
  }

  /** Graham's bound, against every other split into as many batches as were asked for: at least
      one, and no more than there are files. */
  lemma PlanWithinBound(files: seq<UnitFile>, batches: int, g: seq<UnitFile>)
    requires g in Plan(files, batches)
    ensures WithinBound(Weight(g), files, if batches < 1 then 1 else if batches < |files| then batches else |files|)
  {
    var ordered, m := SortFiles(files), BatchCount(files, batches);
    assert files != [] by { PlanIsPartition(files, batches); }
    hide WithinBound, Weight, Placed;
    SortFilesSorts(files);
    var i := BatchAt(ordered, m, g);
    assert ordered[..|ordered|] == ordered;
    PlacedWithinBound(ordered, |ordered|, m, i);
    SameBound(Weight(g), ordered, files, m);
  }

  lemma BatchAt(ordered: seq<UnitFile>, m: nat, g: seq<UnitFile>) returns (i: nat)
    requires m > 0 && g in NonEmpty(Placed(ordered, m))
    ensures i < m && Placed(ordered, m)[i] == g
  {
    NonEmptyKeepsFiles(Placed(ordered, m));
    i :| 0 <= i < m && Placed(ordered, m)[i] == g;
  }

  /** And against every other split into as many batches as the plan really uses: a batch is
      only dropped as empty when no batch is heavier than the heaviest file. */
  lemma PlanWithinUsedBound(files: seq<UnitFile>, batches: int, g: seq<UnitFile>)
    requires g in Plan(files, batches)
    ensures WithinBound(Weight(g), files, |Plan(files, batches)|)
  {
    var ordered, m, used := SortFiles(files), BatchCount(files, batches), |Plan(files, batches)|;
    var groups := Placed(ordered, m);
    PlanWithinBound(files, batches, g);
    NonEmptyKeepsFiles(groups);
    if used < m {
      SortFilesSorts(files);
      PlacedIsSplit(ordered, m);
      var idle :| 0 <= idle < m && groups[idle] == [];
      var i :| 0 <= i < m && groups[i] == g;
      assert g[0] in g;
      MembersOfFlatten(groups, i, g[0]);
      assert ordered != [];
      IdleBatch(ordered, m, idle);
      LightBatchWithinBound(Weight(g), ordered, used);
      SameBound(Weight(g), ordered, files, used);
    }
  }

  lemma LightBatchWithinBound(w: nat, files: seq<UnitFile>, m: nat)
    requires m > 0 && files != [] && w <= files[0].weight
    ensures WithinBound(w, files, m)
  {
    forall other | Split(other, files, m) ensures 3 * m * w <= (4 * m - 1) * Heaviest(other) {
      assert files == [] + [files[0]] + files[1..];
      FileFits(other, files, [], files[0], files[1..]);
      BoundArithmetic(m, w, Heaviest(other), 0);
    }
  }

  lemma SameBound(w: nat, a: seq<UnitFile>, b: seq<UnitFile>, m: nat)
    requires multiset(a) == multiset(b) && WithinBound(w, a, m)
    ensures WithinBound(w, b, m)
  {
    forall other | Split(other, b, m) ensures 3 * m * w <= (4 * m - 1) * Heaviest(other) {
      assert Split(other, a, m);
    }
  }

  // ---- Discovery order ------------------------------------------------------------------

  lemma PlanOfToldApart(a: seq<UnitFile>, b: seq<UnitFile>, batches: int)
    requires multiset(a) == multiset(b) && ToldApart(a)
    ensures Plan(a, batches) == Plan(b, batches)
  {
    SortFilesSorts(a);
    SortFilesSorts(b);
    forall x | x in SortFiles(a) ensures x in a {
      assert x in multiset(SortFiles(a));
    }
    OrderIsUnique(SortFiles(a), SortFiles(b));
    assert |a| == |multiset(a)| == |multiset(b)| == |b|;
  }

  ghost predicate Alike(a: seq<seq<UnitFile>>, b: seq<seq<UnitFile>>) {
    |a| == |b| && forall i :: 0 <= i < |a| ==> |a[i]| == |b[i]| && Weight(a[i]) == Weight(b[i])
  }

  lemma AlikeAfter(a: seq<seq<UnitFile>>, b: seq<seq<UnitFile>>, i: nat, x: UnitFile, y: UnitFile)
    requires Alike(a, b) && i < |a| && x.weight == y.weight
    ensures Alike(a[i := a[i] + [x]], b[i := b[i] + [y]])
  {
    hide Weight;
    WeightSnoc(a[i], x);
    WeightSnoc(b[i], y);
  }

  lemma SameLightest(a: seq<seq<UnitFile>>, b: seq<seq<UnitFile>>)
    requires Alike(a, b) && a != []
    ensures LightestIndex(a) == LightestIndex(b)
  {
    hide Weight;
    assert Lightest(b, LightestIndex(a));
    LightestIsUnique(b, LightestIndex(a), LightestIndex(b));
  }

  /** Files of the same weights, one by one, are placed alike, and the batches show which. */
  lemma {:induction false} PlacedAlike(p: seq<UnitFile>, q: seq<UnitFile>, m: nat)
    requires m > 0 && |p| == |q| && forall k :: 0 <= k < |p| ==> p[k].weight == q[k].weight
    ensures Alike(Placed(p, m), Placed(q, m))
    ensures Placed(p, m) == Placed(q, m) ==> p == q
  {
    hide Alike, Lightest, Weight;
    if p == [] {
      SameIsAlike(Placed(p, m));
    } else {
      var n := |p| - 1;
      var before, other := Placed(p[..n], m), Placed(q[..n], m);
      PlacedAlike(p[..n], q[..n], m);
      SameLightest(before, other);
      var i := LightestIndex(before);
      assert i < m by { InRange(before); }
      assert Placed(p, m) == before[i := before[i] + [p[n]]] && Placed(q, m) == other[i := other[i] + [q[n]]];
      AlikeAfter(before, other, i, p[n], q[n]);
      if Placed(p, m) == Placed(q, m) {
        SamePlacement(before, other, i, p[n], q[n]);
        assert p == p[..n] + [p[n]] && q == q[..n] + [q[n]];
      }
    }
  }

  lemma SameIsAlike(a: seq<seq<UnitFile>>)
    ensures Alike(a, a)
  {
  }

  lemma SamePlacement(a: seq<seq<UnitFile>>, b: seq<seq<UnitFile>>, i: nat, x: UnitFile, y: UnitFile)
    requires i < |a| == |b| && a[i := a[i] + [x]] == b[i := b[i] + [y]]
    ensures a == b && x == y
  {
    assert a[i := a[i] + [x]][i] == b[i := b[i] + [y]][i];
    assert (a[i] + [x])[..|a[i]|] == a[i] && (b[i] + [y])[..|b[i]|] == b[i];
    assert (a[i] + [x])[|a[i]|] == x && (b[i] + [y])[|b[i]|] == y;
    forall j | 0 <= j < |a| && j != i ensures a[j] == b[j] {
      assert a[i := a[i] + [x]][j] == b[i := b[i] + [y]][j];
    }
  }

  lemma {:induction false} SameWhenNonEmpty(a: seq<seq<UnitFile>>, b: seq<seq<UnitFile>>)
    requires |a| == |b| && NonEmpty(a) == NonEmpty(b) && forall i :: 0 <= i < |a| ==> |a[i]| == |b[i]|
    ensures a == b
  {
    if a != [] {
      var n := |a| - 1;
      SameEnds(NonEmpty(a[..n]), a[n], NonEmpty(b[..n]), b[n]);
      SameWhenNonEmpty(a[..n], b[..n]);
      assert a == a[..n] + [a[n]] && b == b[..n] + [b[n]];
    }
  }

  lemma SameEnds(a: seq<seq<UnitFile>>, x: seq<UnitFile>, b: seq<seq<UnitFile>>, y: seq<UnitFile>)
    requires |x| == |y| && (a + if x == [] then [] else [x]) == (b + if y == [] then [] else [y])
    ensures a == b && x == y
  {
    if x == [] {
      assert a + [] == a && b + [] == b;
    } else {
      assert (a + [x])[..|a|] == a && (b + [y])[..|b|] == b && (a + [x])[|a|] == x && (b + [y])[|b|] == y;
    }
  }

  lemma {:induction false} SortedStays(files: seq<UnitFile>)
    requires Ordered(files)
    ensures SortFiles(files) == files
  {
    if files != [] {
      SortedStays(files[1..]);
      assert files == [files[0]] + files[1..];
      assert |files| > 1 ==> Before(files[0], files[1]);
    }
  }

  /** Between two files of one weight and name in sorted order there are only such files, so two
      different ones stand next to each other somewhere. */
  lemma {:induction false} Neighbours(ordered: seq<UnitFile>, i: nat, j: nat) returns (k: nat)
    requires Ordered(ordered) && i < j < |ordered| && ordered[i] != ordered[j]
    requires ordered[i].weight == ordered[j].weight && ordered[i].name == ordered[j].name
    ensures k + 1 < |ordered| && ordered[k] != ordered[k + 1]
    ensures ordered[k].weight == ordered[k + 1].weight && ordered[k].name == ordered[k + 1].name
    decreases j - i
  {
    if ordered[i] == ordered[i + 1] {
      k := Neighbours(ordered, i + 1, j);
    } else {
      k := i;
      if i + 1 < j {
        assert Before(ordered[i], ordered[i + 1]) && Before(ordered[i + 1], ordered[j]);
        NameOrder(ordered[i].name, ordered[i + 1].name, ordered[i].name);
      }
    }
  }

  /** Two files that weight and name do not tell apart stay in the order they were found in. */
  lemma OrderShows(files: seq<UnitFile>, batches: int) returns (found: seq<UnitFile>)
    requires !ToldApart(files)
    ensures multiset(found) == multiset(files) && Plan(found, batches) != Plan(files, batches)
  {
    hide Ordered, Placed, NonEmpty, Swapped;
    var ordered := SortFiles(files);
    SortFilesSorts(files);
    var i, j := TwoAlike(files, ordered);
    var k := Neighbours(ordered, i, j);
    found := Swapped(ordered, k);
    SwappedAlike(ordered, k);
    SortedStays(found);
    assert |files| == |multiset(files)| == |multiset(found)| == |found|;
    PlacedApart(found, ordered, BatchCount(files, batches));
  }

  function Swapped(files: seq<UnitFile>, k: nat): seq<UnitFile>
    requires k + 1 < |files|
  {
    files[k := files[k + 1]][k + 1 := files[k]]
  }

  lemma SwappedAlike(ordered: seq<UnitFile>, k: nat)
    requires Ordered(ordered) && k + 1 < |ordered| && ordered[k] != ordered[k + 1]
    requires ordered[k].weight == ordered[k + 1].weight && ordered[k].name == ordered[k + 1].name
    ensures var found := Swapped(ordered, k);
            && multiset(found) == multiset(ordered) && Ordered(found) && found != ordered && |found| == |ordered|
            && forall i :: 0 <= i < |found| ==> found[i].weight == ordered[i].weight
  {
    var found := Swapped(ordered, k);
    assert found[k] != ordered[k];
    forall i | 0 <= i < |found| ensures found[i].weight == ordered[i].weight && found[i].name == ordered[i].name {
    }
    NameOrder(ordered[k].name, ordered[k].name, ordered[k].name);
  }

  lemma PlacedApart(p: seq<UnitFile>, q: seq<UnitFile>, m: nat)
    requires m > 0 && |p| == |q| && p != q && forall k :: 0 <= k < |p| ==> p[k].weight == q[k].weight
    ensures NonEmpty(Placed(p, m)) != NonEmpty(Placed(q, m))
  {
    PlacedAlike(p, q, m);
    if NonEmpty(Placed(p, m)) == NonEmpty(Placed(q, m)) {
      SameWhenNonEmpty(Placed(p, m), Placed(q, m));
    }
  }

  lemma TwoAlike(files: seq<UnitFile>, ordered: seq<UnitFile>) returns (i: nat, j: nat)
    requires !ToldApart(files) && multiset(ordered) == multiset(files)
    ensures i < j < |ordered| && ordered[i] != ordered[j]
    ensures ordered[i].weight == ordered[j].weight && ordered[i].name == ordered[j].name
  {
    var x, y :| x in files && y in files && x.weight == y.weight && x.name == y.name && x != y;
    assert x in multiset(files) && y in multiset(files);
    var a :| 0 <= a < |ordered| && ordered[a] == x;
    var b :| 0 <= b < |ordered| && ordered[b] == y;
    i, j := if a < b then a else b, if a < b then b else a;
  }

  /** The plan is the same for every order of discovery exactly when weight and name tell the
      files apart. */
  lemma PlanIgnoresDiscoveryOrder(files: seq<UnitFile>, batches: int)
    ensures (forall found :: multiset(found) == multiset(files) ==> Plan(found, batches) == Plan(files, batches))
            <==> ToldApart(files)
  {
    if ToldApart(files) {
      forall found | multiset(found) == multiset(files) ensures Plan(found, batches) == Plan(files, batches) {
        PlanOfToldApart(files, found, batches);
      }
    } else {
      var found := OrderShows(files, batches);
    }
  }
}
