/** The application data directory as a tree of named entries, the paths the adoption code reads
    and writes in it, and what a write at one path leaves alone elsewhere.
 */
module StorageTree {
  import opened Common

  type Path = seq<string>

  datatype Step = Prepared | Renamed | InPlaceVerified | HostModeConverted | Complete

  /** The adoption journal, without its timestamps. Roots are relative to the data directory. */
  datatype Journal = Journal(
    version: nat, sourceRoot: Path, targetRoot: Path, step: Step, steps: seq<Step>,
    deviceLabelDropped: bool, cleanupFailed: seq<string>)

  /** The documents the adoption code parses or writes. */
  datatype Document =
    | StorageConfig(root: string)
    | TauriHost(relay: Option<string>, enabled: bool, updatedAt: nat)
    | IosHost(relay: Option<string>, enabled: bool, updatedAt: nat)
    | Format(v: nat, format: string, chunkSize: nat)
    | AdoptionJournal(journal: Journal)

  datatype Data = Raw(bytes: seq<Byte>) | Json(document: Document)

  /** A special node is a socket, a device and the like. */
  datatype Tree = File(data: Data) | Link | Special | Dir(entries: map<string, Tree>)

  /** `symlink_metadata`: the node itself, not found, or any other error (a component above is
      not a directory). */
  datatype Stat = Present(node: Tree) | Missing | Unreadable

  function Lstat(t: Tree, p: Path): Stat {
    if p == [] then Present(t)
    else
      match t
      case Dir(entries) => if p[0] in entries then Lstat(entries[p[0]], p[1..]) else Missing
      case _ => Unreadable
  }

  /** No component of `p` below the root is a symbolic link or unreachable; missing is fine. */
  predicate Clear(t: Tree, p: Path) {
    if p == [] then true
    else
      match t
      case Dir(entries) =>
        p[0] in entries ==> !entries[p[0]].Link? && Clear(entries[p[0]], p[1..])
      case _ => false
  }

  /** Creates or replaces the node at `p`, inside an existing directory. */
  function Put(t: Tree, p: Path, node: Tree): Tree {
    if p == [] then node
    else
      match t
      case Dir(entries) =>
        if |p| == 1 then Dir(entries[p[0] := node])
        else if p[0] in entries then Dir(entries[p[0] := Put(entries[p[0]], p[1..], node)])
        else t
      case _ => t
  }

  function Remove(t: Tree, p: Path): Tree
    requires p != []
  {
    match t
    case Dir(entries) =>
      if |p| == 1 then Dir(entries - {p[0]})
      else if p[0] in entries then Dir(entries[p[0] := Remove(entries[p[0]], p[1..])])
      else t
    case _ => t
  }

  predicate IsDir(s: Stat) {
    s.Present? && s.node.Dir?
  }

  /** Neither path lies at or above the other. */
  predicate Unrelated(p: Path, q: Path) {
    !(p <= q) && !(q <= p)
  }

  lemma UnrelatedTails(p: Path, q: Path)
    requires Unrelated(p, q)
    ensures p != [] && q != []
    ensures p[0] == q[0] ==> |p| > 1 && |q| > 1 && Unrelated(p[1..], q[1..])
  {
    if p[0] == q[0] {
      assert p == [p[0]] + p[1..] && q == [q[0]] + q[1..];
    }
  }

  lemma {:induction false} LstatAfterPut(t: Tree, p: Path, node: Tree)
    requires p != [] && IsDir(Lstat(t, p[..|p| - 1]))
    ensures Lstat(Put(t, p, node), p) == Present(node)
    ensures t.Dir? && Put(t, p, node).Dir?
  {
    if |p| == 1 {
      assert p[1..] == [];
    } else {
      assert p[..|p| - 1][0] == p[0] && p[..|p| - 1][1..] == p[1..][..|p[1..]| - 1];
      LstatAfterPut(t.entries[p[0]], p[1..], node);
    }
  }

  lemma {:induction false} PutElsewhere(t: Tree, p: Path, node: Tree, q: Path)
    requires Unrelated(p, q)
    ensures Lstat(Put(t, p, node), q) == Lstat(t, q)
    ensures Clear(Put(t, p, node), q) == Clear(t, q)
  {
    UnrelatedTails(p, q);
    if t.Dir? && p[0] == q[0] && p[0] in t.entries {
      PutElsewhere(t.entries[p[0]], p[1..], node, q[1..]);
      UnderLink(t.entries[p[0]], p[1..], node);
    }
  }

  /** A write below a node does not change what kind of node it is. */
  lemma UnderLink(t: Tree, p: Path, node: Tree)
    requires p != []
    ensures Put(t, p, node).Link? == t.Link? && Put(t, p, node).Dir? == t.Dir?
    ensures Remove(t, p).Link? == t.Link? && Remove(t, p).Dir? == t.Dir?
  {
  }

  lemma {:induction false} PutHere(t: Tree, p: Path, node: Tree)
    requires Clear(t, p) && !node.Link?
    ensures Clear(Put(t, p, node), p)
  {
    if p != [] {
      if |p| == 1 {
        assert p[1..] == [];
      } else if p[0] in t.entries {
        PutHere(t.entries[p[0]], p[1..], node);
        UnderLink(t.entries[p[0]], p[1..], node);
      }
    }
  }

  lemma {:induction false} RemoveElsewhere(t: Tree, p: Path, q: Path)
    requires Unrelated(p, q)
    ensures Lstat(Remove(t, p), q) == Lstat(t, q)
    ensures Clear(Remove(t, p), q) == Clear(t, q)
  {
    UnrelatedTails(p, q);
    if t.Dir? && p[0] == q[0] && p[0] in t.entries {
      RemoveElsewhere(t.entries[p[0]], p[1..], q[1..]);
      UnderLink(t.entries[p[0]], p[1..], Link);
    }
  }

  /** After a removal nothing is found at or below the path; what is above stays clear. */
  lemma {:induction false} RemoveHere(t: Tree, p: Path, q: Path)
    requires p != [] && Clear(t, q)
    ensures Clear(Remove(t, p), q)
    ensures p <= q && IsDir(Lstat(t, p[..|p| - 1])) ==> Lstat(Remove(t, p), q) == Missing
  {
    if q != [] {
      if |p| == 1 {
      } else if p[0] in t.entries {
        UnderLink(t.entries[p[0]], p[1..], Link);
        assert p[..|p| - 1][0] == p[0] && p[..|p| - 1][1..] == p[1..][..|p[1..]| - 1];
        if p[0] == q[0] {
          RemoveHere(t.entries[p[0]], p[1..], q[1..]);
          if p <= q {
            assert p[1..] <= q[1..];
          }
        }
      } else if p <= q {
        assert p[..|p| - 1][0] == p[0];
      }
    }
  }

  /** A directory above the path stays a directory. */
  lemma {:induction false} DirAbove(t: Tree, p: Path, q: Path, node: Tree)
    requires p != [] && q <= p && q != p
    ensures IsDir(Lstat(Put(t, p, node), q)) == IsDir(Lstat(t, q))
    ensures IsDir(Lstat(Remove(t, p), q)) == IsDir(Lstat(t, q))
  {
    if q == [] {
      UnderLink(t, p, node);
    } else if t.Dir? && p[0] in t.entries {
      assert q[1..] <= p[1..];
      DirAbove(t.entries[p[0]], p[1..], q[1..], node);
    }
  }

  /** The nodes above a present node are directories. */
  lemma {:induction false} ParentIsDir(t: Tree, p: Path)
    requires p != [] && Lstat(t, p).Present?
    ensures IsDir(Lstat(t, p[..|p| - 1]))
  {
    if |p| == 1 {
      assert p[..0] == [];
    } else {
      assert p[..|p| - 1][0] == p[0] && p[..|p| - 1][1..] == p[1..][..|p[1..]| - 1];
      ParentIsDir(t.entries[p[0]], p[1..]);
    }
  }

  lemma {:induction false} ClearIsNoLink(t: Tree, p: Path)
    requires Clear(t, p) && p != []
    ensures Lstat(t, p) != Unreadable && Lstat(t, p) != Present(Link)
  {
    if p[0] in t.entries && |p| > 1 {
      ClearIsNoLink(t.entries[p[0]], p[1..]);
    }
  }

  /** The component-by-component check of `checked_child`, with `symlink_metadata` on every
      prefix, accepts exactly the clear paths. */
  method CheckComponents(t: Tree, p: Path) returns (ok: bool)
    ensures ok == Clear(t, p)
  {
    for k := 0 to |p|
      invariant Clear(t, p[..k])
    {
      var stat := Lstat(t, p[..k + 1]);
      ClearOneMore(t, p, k);
      if stat == Unreadable || stat == Present(Link) {
        ok := false;
        return;
      }
    }
    assert p[..|p|] == p;
    ok := true;
  }

  lemma {:induction false} ClearOneMore(t: Tree, p: Path, k: nat)
    requires k < |p| && Clear(t, p[..k])
    ensures Clear(t, p[..k + 1]) <==> Lstat(t, p[..k + 1]) != Unreadable && Lstat(t, p[..k + 1]) != Present(Link)
    ensures Clear(t, p) ==> Clear(t, p[..k + 1])
  {
    assert p[..k + 1][0] == p[0] && p[..k + 1][1..] == p[1..][..k];
    if k == 0 {
      assert p[..1][1..] == [];
    } else {
      assert p[..k][0] == p[0] && p[..k][1..] == p[1..][..k - 1];
      if t.Dir? && p[0] in t.entries {
        ClearOneMore(t.entries[p[0]], p[1..], k - 1);
      }
    }
  }
}
