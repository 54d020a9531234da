/** Vaults as Core lays them out on disk, and that verification accepts these and no others. */
module VaultLayout {
  import opened Common
  import opened StorageTree
  import opened StorageCheck

  /** Core names a chunk by 64 hex digits and never writes less than a nonce and a tag. */
  predicate ChunkOfCore(name: string, bytes: seq<Byte>) {
    |name| == 64 && (forall i :: 0 <= i < |name| ==> name[i] in "0123456789abcdef") && |bytes| >= 28
  }

  lemma HexDigits(c: char)
    ensures c in "0123456789abcdef" <==> '0' <= c <= '9' || 'a' <= c <= 'f'
  {
    var digits := "0123456789abcdef";
    if '0' <= c <= '9' {
      assert digits[c as int - '0' as int] == c;
    } else if 'a' <= c <= 'f' {
      assert digits[c as int - 'a' as int + 10] == c;
    }
  }

  function EntriesAt(t: Tree, name: string): map<string, Tree> {
    if t.Dir? && name in t.entries && t.entries[name].Dir? then t.entries[name].entries else map[]
  }

  /** A file written under two shard directories, which are made if need be. */
  function Written(t: Tree, a: string, b: string, name: string, bytes: seq<Byte>): Tree
    requires t.Dir?
  {
    var first := EntriesAt(t, a);
    var second := EntriesAt(Dir(first), b);
    Dir(t.entries[a := Dir(first[b := Dir(second[name := File(Raw(bytes))])])])
  }

  /** A chunk is written under its first digit and its next two. */
  function Stored(t: Tree, name: string, bytes: seq<Byte>): Tree
    requires t.Dir? && |name| >= 3
  {
    Written(t, name[..1], name[1..3], name, bytes)
  }

  /** An entry added or replaced, where it fits. */
  lemma FitsWith(at: Path, t: Tree, name: string, node: Tree)
    requires t.Dir? && |at| <= 2 && AllFit(at, t)
    requires FitsLayout(at + [name], node) && AllFit(at + [name], node)
    ensures AllFit(at, Dir(t.entries[name := node]))
    ensures |at| == 2 && !IsTemporary(name) ==> HasChunk(at, Dir(t.entries[name := node]))
    ensures HasChunk(at + [name], node) ==> HasChunk(at, Dir(t.entries[name := node]))
    ensures HasChunk(at, Dir(t.entries[name := node])) ==>
              HasChunk(at, t) || HasChunk(at + [name], node) || (|at| == 2 && !IsTemporary(name))
  {
    hide AllFit, FitsLayout, HasChunk;
    var u := Dir(t.entries[name := node]);
    EntriesMakeTree(at, t);
    EntriesMakeTree(at, u);
    forall other | other in u.entries ensures EntryFits(at, u, other) {
      assert other != name ==> EntryFits(at, t, other);
    }
    assert u.entries[name] == node;
    assert (|at| == 2 && !IsTemporary(name)) || HasChunk(at + [name], node) ==> EntryHasChunk(at, u, name);
    forall other | other in u.entries && other != name && EntryHasChunk(at, u, other) ensures EntryHasChunk(at, t, other) {
    }
  }

  lemma NothingFits(at: Path)
    ensures AllFit(at, Dir(map[])) && !HasChunk(at, Dir(map[]))
  {
  }

  /** The entries at a shard directory fit, whether it is there or not. */
  lemma ShardFits(at: Path, t: Tree, name: string)
    requires t.Dir? && |at| <= 1 && AllFit(at, t)
    ensures AllFit(at + [name], Dir(EntriesAt(t, name)))
    ensures HasChunk(at + [name], Dir(EntriesAt(t, name))) ==> HasChunk(at, t)
  {
    hide AllFit, HasChunk;
    if name in t.entries && t.entries[name].Dir? {
      EntriesMakeTree(at, t);
      assert EntryFits(at, t, name);
      assert HasChunk(at + [name], t.entries[name]) ==> EntryHasChunk(at, t, name);
    } else {
      NothingFits(at + [name]);
    }
  }

  ghost predicate Shard(a: string, b: string) {
    && |a| == 1 && |b| == 2
    && (forall i :: 0 <= i < |a| ==> a[i] in "0123456789abcdef")
    && (forall i :: 0 <= i < |b| ==> b[i] in "0123456789abcdef")
  }

  lemma HexName(name: string)
    requires forall i :: 0 <= i < |name| ==> name[i] in "0123456789abcdef"
    ensures IsHexName(name)
  {
    forall c | c in name ensures '0' <= c <= '9' || 'a' <= c <= 'f' {
      HexDigits(c);
    }
  }

  lemma WrittenFits(t: Tree, a: string, b: string, name: string, bytes: seq<Byte>)
    requires t.Dir? && AllFit([], t) && Shard(a, b)
    requires IsTemporary(name) || IsChunk(a, b, name, File(Raw(bytes)))
    ensures var u := Written(t, a, b, name, bytes);
            && AllFit([], u) && (HasChunk([], u) ==> HasChunk([], t) || !IsTemporary(name))
            && (!IsTemporary(name) ==> HasChunk([], u))
            && Lstat(u, [a, b, name]) == Present(File(Raw(bytes)))
  {
    hide AllFit, HasChunk, IsHexName, IsTemporary;
    var file := File(Raw(bytes));
    var first, second := EntriesAt(t, a), EntriesAt(Dir(EntriesAt(t, a)), b);
    HexName(a);
    HexName(b);
    assert [] + [a] == [a] && [a] + [b] == [a, b] && [a, b] + [name] == [a, b, name];
    ShardFits([], t, a);
    ShardFits([a], Dir(first), b);
    FileFits([a, b, name], file);
    FitsWith([a, b], Dir(second), name, file);
    FitsWith([a], Dir(first), b, Dir(second[name := file]));
    FitsWith([], t, a, Dir(first[b := Dir(second[name := file])]));
    ThreeDown(t.entries, first, second, a, b, name, file);
  }

  /** Storing a chunk keeps the layout, and the chunk is where its name says. */
  lemma StoredFits(t: Tree, name: string, bytes: seq<Byte>)
    requires t.Dir? && AllFit([], t) && ChunkOfCore(name, bytes)
    ensures var u := Stored(t, name, bytes);
            && AllFit([], u) && HasChunk([], u)
            && Lstat(u, [name[..1], name[1..3], name]) == Present(File(Raw(bytes)))
  {
    hide AllFit, HasChunk, Written;
    HexName(name);
    assert !IsTemporary(name) by { assert name[0] in name; }
    WrittenFits(t, name[..1], name[1..3], name, bytes);
  }

  /** What an interrupted write left in a shard, of any length, is accepted and is no chunk. */
  lemma LeftoverFits(t: Tree, a: string, b: string, name: string, bytes: seq<Byte>)
    requires t.Dir? && AllFit([], t) && Shard(a, b) && (".tmp." <= name || ".batch." <= name)
    ensures AllFit([], Written(t, a, b, name, bytes))
    ensures HasChunk([], Written(t, a, b, name, bytes)) ==> HasChunk([], t)
  {
    hide AllFit, HasChunk, Written;
    WrittenFits(t, a, b, name, bytes);
  }

  lemma ThreeDown(t: map<string, Tree>, first: map<string, Tree>, second: map<string, Tree>, a: string, b: string,
                  name: string, node: Tree)
    ensures Lstat(Dir(t[a := Dir(first[b := Dir(second[name := node])])]), [a, b, name]) == Present(node)
  {
    var leaf := Dir(second[name := node]);
    assert Lstat(leaf, [name]) == Present(node) by { assert [name][1..] == []; }
    var shard := Dir(first[b := leaf]);
    assert Lstat(shard, [b, name]) == Present(node) by { assert [b, name][1..] == [name]; }
    assert [a, b, name][1..] == [b, name];
  }

  lemma FileFits(p: Path, t: Tree)
    requires t.File?
    ensures AllFit(p, t) && !HasChunk(p, t)
  {
  }

  datatype Chunk = Chunk(name: string, bytes: seq<Byte>)

  predicate AllOfCore(chunks: seq<Chunk>) {
    forall i :: 0 <= i < |chunks| ==> ChunkOfCore(chunks[i].name, chunks[i].bytes)
  }

  function StoredAll(chunks: seq<Chunk>): (t: Tree)
    requires AllOfCore(chunks)
    ensures t.Dir?
  {
    if chunks == [] then Dir(map[])
    else Stored(StoredAll(chunks[..|chunks| - 1]), chunks[|chunks| - 1].name, chunks[|chunks| - 1].bytes)
  }

  lemma {:induction false} StoredAllFits(chunks: seq<Chunk>)
    requires AllOfCore(chunks)
    ensures AllFit([], StoredAll(chunks)) && (HasChunk([], StoredAll(chunks)) <==> chunks != [])
  {
    if chunks == [] {
      NothingFits([]);
    } else {
      hide AllFit, HasChunk, Stored;
      var n := |chunks| - 1;
      StoredAllFits(chunks[..n]);
      StoredFits(StoredAll(chunks[..n]), chunks[n].name, chunks[n].bytes);
    }
  }

  predicate FileOfSize(entries: map<string, Tree>, name: string, size: nat) {
    && name in entries && entries[name].File? && entries[name].data.Raw? && |entries[name].data.bytes| == size
  }

  /** A root with chunks as Core stores them verifies exactly with the right format, with a salt
      of 16 bytes, or none and no chunks, and with master files of 16 and 32 bytes, if any. */
  lemma VaultVerifiesExactly(entries: map<string, Tree>, v: nat, format: string, chunkSize: nat, chunks: seq<Chunk>)
    requires AllOfCore(chunks)
    requires "format.version" in entries && entries["format.version"] == File(Json(Format(v, format, chunkSize)))
    requires "chunks" in entries && entries["chunks"] == StoredAll(chunks)
    ensures Verified(Dir(entries)) <==>
              && v == 2 && format == "sharded" && chunkSize > 0
              && (FileOfSize(entries, "salt", 16) || ("salt" !in entries && chunks == []))
              && (FileOfSize(entries, "master.salt", 16) || "master.salt" !in entries)
              && (FileOfSize(entries, "master.verify", 32) || "master.verify" !in entries)
  {
    hide AllFit, HasChunk, StoredAll;
    StoredAllFits(chunks);
  }

  /** Nothing else is accepted among the chunks: a file is one Core has not finished writing, or
      a chunk where its name says; a directory is a shard; there are no links. */
  lemma OnlyChunksFit(t: Tree, p: Path)
    requires AllFit([], t) && p != [] && Lstat(t, p).Present?
    ensures var node, name := Lstat(t, p).node, p[|p| - 1];
            && (node.File? || node.Dir?)
            && (node.Dir? ==> |p| <= 2 && |name| == |p| && forall i :: 0 <= i < |name| ==> name[i] in "0123456789abcdef")
            && (node.File? && !(".tmp." <= name || ".batch." <= name) ==>
                  && |name| == 64 && (forall i :: 0 <= i < |name| ==> name[i] in "0123456789abcdef")
                  && p == [name[..1], name[1..3], name] && (node.data.Raw? ==> |node.data.bytes| >= 28))
  {
    var name := p[|p| - 1];
    assert [] + p == p;
    forall i | 0 <= i < |name| ensures name[i] in "0123456789abcdef" <==> '0' <= name[i] <= '9' || 'a' <= name[i] <= 'f' {
      HexDigits(name[i]);
    }
    assert forall i :: 0 <= i < |name| ==> name[i] in name;
  }
}
