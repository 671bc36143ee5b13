// Staging a workspace for a run and mirroring the run's output back.
module Workspace {
  import opened Bytes

  type Path = seq<string>

  /** A file carries its modification time; times of directories are not modelled. */
  datatype Node = File(content: seq<byte>, mtime: int) | Dir(entries: map<string, Node>) | Symlink | Special

  /** Top-level names that never cross the boundary, and single paths to be left alone. */
  datatype Keep = Keep(top: set<string>, paths: set<Path>)

  predicate Excluded(k: Keep, p: Path) {
    p != [] && (p[0] in k.top || p in k.paths)
  }

  function At(n: Node, p: Path): Option<Node>
    decreases |p|
  {
    if p == [] then Some(n)
    else if n.Dir? && p[0] in n.entries then At(n.entries[p[0]], p[1..])
    else None
  }

  /** Nothing but files and directories. */
  predicate Regular(n: Node) {
    match n
    case File(_, _) => true
    case Dir(entries) => forall name :: name in entries ==> Regular(entries[name])
    case _ => false
  }

  // --- mirroring ---------------------------------------------------------------------

  /** The destination entry a directory is mirrored into; one is made when there is none. */
  function Into(dst: map<string, Node>, name: string): Node {
    if name in dst then dst[name] else Dir(map[])
  }

  /** Whether mirroring one source entry goes through: no links, no special files, no change of kind. */
  predicate EntryFits(k: Keep, n: Node, dst: map<string, Node>, name: string, rel: Path)
    decreases n, 1
  {
    match n
    case File(_, _) => name in dst ==> dst[name].File?
    case Dir(_) => Into(dst, name).Dir? && Mirrorable(k, n, Into(dst, name), rel)
    case _ => false
  }

  predicate Mirrorable(k: Keep, src: Node, dst: Node, rel: Path)
    requires src.Dir? && dst.Dir?
    decreases src, 0
  {
    forall name :: name in src.entries && !Excluded(k, rel + [name]) ==>
      EntryFits(k, src.entries[name], dst.entries, name, rel + [name])
  }

  /** What the destination becomes: excluded entries stay, the others follow the source. */
  function Mirror(k: Keep, src: Node, dst: Node, rel: Path): (out: Node)
    requires src.Dir? && dst.Dir? && Mirrorable(k, src, dst, rel)
    ensures out.Dir?
    decreases src, 0
  {
    Dir(map name | name in src.entries.Keys + dst.entries.Keys
                   && (if Excluded(k, rel + [name]) then name in dst.entries else name in src.entries) ::
          if Excluded(k, rel + [name]) then dst.entries[name]
          else Mirrored(k, src.entries[name], dst.entries, name, rel + [name]))
  }

  function Mirrored(k: Keep, n: Node, dst: map<string, Node>, name: string, rel: Path): (out: Node)
    requires EntryFits(k, n, dst, name, rel)
    decreases n, 1
  {
    if n.Dir? then Mirror(k, n, Into(dst, name), rel) else n
  }

  // --- what mirroring means --------------------------------------------------------------

  /** The same kind of thing, and for files the same content and time. */
  predicate Alike(x: Option<Node>, y: Option<Node>) {
    match (x, y)
    case (Some(Dir(_)), Some(Dir(_))) => true
    case _ => x == y
  }

  /** No part of the way down p, starting below rel, is excluded. */
  predicate Open(k: Keep, rel: Path, p: Path)
    decreases |p|
  {
    p != [] ==> !Excluded(k, rel + [p[0]]) && Open(k, rel + [p[0]], p[1..])
  }

  /** On every path that is not excluded the destination now agrees with the source. */
  lemma {:induction false} MirrorAgrees(k: Keep, src: Node, dst: Node, rel: Path, p: Path)
    requires src.Dir? && dst.Dir? && Mirrorable(k, src, dst, rel) && Open(k, rel, p)
    ensures Alike(At(Mirror(k, src, dst, rel), p), At(src, p))
    decreases |p|
  {
    if p != [] && p[0] in src.entries {
      var name, n := p[0], src.entries[p[0]];
      assert EntryFits(k, n, dst.entries, name, rel + [name]);
      assert Mirror(k, src, dst, rel).entries[name] == Mirrored(k, n, dst.entries, name, rel + [name]);
      if n.Dir? {
        MirrorAgrees(k, n, Into(dst.entries, name), rel + [name], p[1..]);
      }
    }
  }

  /** What mirroring can write at one path: a file over a file, a directory into a directory, either where nothing is. */
  predicate FitsOver(src: Option<Node>, dst: Option<Node>) {
    match src
    case None => true
    case Some(File(_, _)) => dst.Some? ==> dst.value.File?
    case Some(Dir(_)) => dst.Some? ==> dst.value.Dir?
    case Some(_) => false
  }

  lemma {:induction false} MirrorableFits(k: Keep, src: Node, dst: Node, rel: Path, p: Path)
    requires src.Dir? && dst.Dir? && Mirrorable(k, src, dst, rel) && Open(k, rel, p)
    ensures FitsOver(At(src, p), At(dst, p))
    decreases |p|
  {
    if p != [] && p[0] in src.entries {
      var name, n := p[0], src.entries[p[0]];
      assert EntryFits(k, n, dst.entries, name, rel + [name]);
      if n.Dir? {
        MirrorableFits(k, n, Into(dst.entries, name), rel + [name], p[1..]);
      }
      assert At(src, p) == At(n, p[1..]);
      assert At(dst, p) == if name in dst.entries then At(dst.entries[name], p[1..]) else None;
    }
  }

  /** Where mirroring stops: an open path at which the source does not fit. */
  lemma {:induction false} Misfit(k: Keep, src: Node, dst: Node, rel: Path) returns (p: Path)
    requires src.Dir? && dst.Dir? && !Mirrorable(k, src, dst, rel)
    ensures Open(k, rel, p) && !FitsOver(At(src, p), At(dst, p))
    decreases src
  {
    var name :| name in src.entries && !Excluded(k, rel + [name])
                && !EntryFits(k, src.entries[name], dst.entries, name, rel + [name]);
    var n, to := src.entries[name], Into(dst.entries, name);
    var below := [];
    if n.Dir? && to.Dir? {
      below := Misfit(k, n, to, rel + [name]);
      if name !in dst.entries && below != [] {
        assert below[0] !in to.entries;
      }
    }
    p := [name] + below;
    assert p[0] == name && p[1..] == below;
    assert Open(k, rel + [name], below) && !FitsOver(At(n, below), if name in dst.entries then At(to, below) else None);
  }

  /**
   * A tree can be mirrored exactly if at every path that is not excluded the
   * source is a file or a directory, and what is already there is of that kind.
   */
  lemma MirrorableIff(k: Keep, src: Node, dst: Node, rel: Path)
    requires src.Dir? && dst.Dir?
    ensures Mirrorable(k, src, dst, rel) <==>
            forall p :: Open(k, rel, p) ==> FitsOver(At(src, p), At(dst, p))
  {
    if Mirrorable(k, src, dst, rel) {
      forall p | Open(k, rel, p) ensures FitsOver(At(src, p), At(dst, p)) {
        MirrorableFits(k, src, dst, rel, p);
      }
    } else {
      var p := Misfit(k, src, dst, rel);
    }
  }

  /** A directory of the source. */
  predicate DirAt(n: Node, p: Path) {
    At(n, p).Some? && At(n, p).value.Dir?
  }

  /**
   * At and below an excluded path nothing changes, provided its parent is still a
   * directory of the source; if it is not, the parent is removed and the excluded
   * path with it.
   */
  lemma {:induction false} ExcludedIsKeptIff(k: Keep, src: Node, dst: Node, rel: Path, parent: Path, name: string, below: Path)
    requires src.Dir? && dst.Dir? && Mirrorable(k, src, dst, rel)
    requires Open(k, rel, parent) && Excluded(k, rel + parent + [name])
    ensures At(Mirror(k, src, dst, rel), parent + [name] + below) ==
            if DirAt(src, parent) then At(dst, parent + [name] + below) else None
    decreases |parent|
  {
    var p := parent + [name] + below;
    if parent == [] {
      assert rel + [] + [name] == rel + [name] && p[0] == name;
    } else {
      var first := parent[0];
      assert p[0] == first && p[1..] == parent[1..] + [name] + below;
      assert rel + parent + [name] == (rel + [first]) + parent[1..] + [name];
      if first in src.entries {
        var n := src.entries[first];
        assert EntryFits(k, n, dst.entries, first, rel + [first]);
        assert Mirror(k, src, dst, rel).entries[first] == Mirrored(k, n, dst.entries, first, rel + [first]);
        if n.Dir? {
          ExcludedIsKeptIff(k, n, Into(dst.entries, first), rel + [first], parent[1..], name, below);
        }
      }
    }
  }

  /** An excluded file goes with its directory when the source has no such directory. */
  lemma ExcludedIsLostExample(kept: Node) returns (k: Keep, src: Node, dst: Node, p: Path)
    ensures src.Dir? && dst.Dir? && Mirrorable(k, src, dst, []) && Excluded(k, p)
    ensures At(dst, p) == Some(kept) && At(Mirror(k, src, dst, []), p) == None
  {
    p := ["shop", "notes"];
    k := Keep({}, {p});
    src, dst := Dir(map[]), Dir(map["shop" := Dir(map["notes" := kept])]);
    assert p[1..] == ["notes"] && p[1..][1..] == [];
    assert [] + ["shop"] == ["shop"] != p;
  }

  /** Mirroring regular entries onto themselves changes nothing, times included. */
  lemma {:induction false} MirrorSelf(k: Keep, n: Node, rel: Path)
    requires n.Dir? && Regular(n)
    ensures Mirrorable(k, n, n, rel) && Mirror(k, n, n, rel) == n
    decreases n
  {
    forall name | name in n.entries && n.entries[name].Dir?
      ensures Mirrorable(k, n.entries[name], n.entries[name], rel + [name])
      ensures Mirror(k, n.entries[name], n.entries[name], rel + [name]) == n.entries[name]
    {
      MirrorSelf(k, n.entries[name], rel + [name]);
    }
    assert Mirror(k, n, n, rel).entries == n.entries;
  }

  // --- staging ------------------------------------------------------------------------------

  /** What stageWorkspace copies; it throws on links and special files. */
  function Staged(top: set<string>, w: Node): Node
    requires w.Dir?
  {
    Dir(map name | name in w.entries && name !in top :: w.entries[name])
  }

  /** The copy has what the workspace has, save everything under the excluded names. */
  lemma StagedCopies(top: set<string>, w: Node, p: Path)
    requires w.Dir? && p != []
    ensures At(Staged(top, w), p) == if p[0] in top then None else At(w, p)
  {}

  predicate PlainAt(n: Node, p: Path) {
    At(n, p).Some? ==> At(n, p).value.File? || At(n, p).value.Dir?
  }

  lemma {:induction false} RegularIsPlain(n: Node, p: Path)
    requires Regular(n)
    ensures PlainAt(n, p)
    decreases |p|
  {
    if p != [] && n.Dir? && p[0] in n.entries {
      RegularIsPlain(n.entries[p[0]], p[1..]);
    }
  }

  lemma {:induction false} SpecialSpot(n: Node) returns (p: Path)
    requires !Regular(n)
    ensures !PlainAt(n, p)
    decreases n
  {
    p := [];
    if n.Dir? {
      var name :| name in n.entries && !Regular(n.entries[name]);
      var below := SpecialSpot(n.entries[name]);
      p := [name] + below;
      assert p[1..] == below;
    }
  }

  /** A tree is regular exactly if every path of it leads to a file or a directory. */
  lemma RegularIff(n: Node)
    ensures Regular(n) <==> forall p :: PlainAt(n, p)
  {
    if Regular(n) {
      forall p ensures PlainAt(n, p) {
        RegularIsPlain(n, p);
      }
    } else {
      var p := SpecialSpot(n);
    }
  }

  /**
   * Main result: staging a workspace and syncing the untouched copy back is the
   * identity, so no file looks newer than it was, whatever was excluded on the way.
   */
  lemma StageThenSync(top: set<string>, paths: set<Path>, w: Node)
    requires w.Dir? && Regular(Staged(top, w))
    ensures var k := Keep(top, paths);
            Mirrorable(k, Staged(top, w), w, []) && Mirror(k, Staged(top, w), w, []) == w
  {
    var k, copy := Keep(top, paths), Staged(top, w);
    forall name | name in copy.entries && copy.entries[name].Dir?
      ensures Mirrorable(k, copy.entries[name], copy.entries[name], [] + [name])
      ensures Mirror(k, copy.entries[name], copy.entries[name], [] + [name]) == copy.entries[name]
    {
      assert Regular(copy.entries[name]);
      MirrorSelf(k, copy.entries[name], [] + [name]);
    }
    forall name | name in w.entries && name !in copy.entries ensures Excluded(k, [] + [name]) {}
    assert Mirror(k, copy, w, []).entries == w.entries;
  }

  // --- the walk -------------------------------------------------------------------------------

  /**
   * mirrorDirectory: first removes what the source no longer has, then copies entry
   * by entry. It throws on the first entry that cannot be mirrored, and only then.
   */
  method MirrorDirectory(k: Keep, src: Node, dst: Node, rel: Path) returns (out: Option<Node>)
    requires src.Dir? && dst.Dir?
    ensures out == if Mirrorable(k, src, dst, rel) then Some(Mirror(k, src, dst, rel)) else None
    decreases src, 1
  {
    var entries := RemoveGone(k, src.entries, dst.entries, rel);
    var todo := src.entries.Keys;
    while todo != {}
      invariant todo <= src.entries.Keys
      invariant forall name :: name in entries <==>
                  (if Excluded(k, rel + [name]) then name in dst.entries
                   else name in src.entries && (name in dst.entries || name !in todo))
      invariant forall name :: name in entries && (Excluded(k, rel + [name]) || name in todo) ==>
                  name in dst.entries && entries[name] == dst.entries[name]
      invariant forall name :: name in src.entries && name !in todo && !Excluded(k, rel + [name]) ==>
                  EntryFits(k, src.entries[name], dst.entries, name, rel + [name])
                  && entries[name] == Mirrored(k, src.entries[name], dst.entries, name, rel + [name])
      decreases todo
    {
      var name :| name in todo;
      if !Excluded(k, rel + [name]) {
        assert Into(entries, name) == Into(dst.entries, name);
        var copied := MirrorEntry(k, src.entries[name], entries, name, rel + [name]);
        assert EntryFits(k, src.entries[name], entries, name, rel + [name]) <==>
               EntryFits(k, src.entries[name], dst.entries, name, rel + [name]);
        if copied.None? {
          return None;
        }
        entries := entries[name := copied.value];
      }
      todo := todo - {name};
    }
    assert entries == Mirror(k, src, dst, rel).entries;
    return Some(Dir(entries));
  }

  /** One entry: a file is overwritten with its time, a directory is walked. */
  method MirrorEntry(k: Keep, n: Node, dst: map<string, Node>, name: string, rel: Path) returns (out: Option<Node>)
    ensures out == if EntryFits(k, n, dst, name, rel) then Some(Mirrored(k, n, dst, name, rel)) else None
    decreases n, 2
  {
    if n.Symlink? || n.Special? {
      return None;
    }
    if n.Dir? {
      var to := if name in dst then dst[name] else Dir(map[]);
      if !to.Dir? {
        return None;
      }
      out := MirrorDirectory(k, n, to, rel);
      return;
    }
    if name in dst && !dst[name].File? {
      return None;
    }
    return Some(n);
  }

  method RemoveGone(k: Keep, src: map<string, Node>, dst: map<string, Node>, rel: Path)
    returns (entries: map<string, Node>)
    ensures entries == map name | name in dst && (Excluded(k, rel + [name]) || name in src) :: dst[name]
  {
    entries := dst;
    var todo := dst.Keys;
    while todo != {}
      invariant todo <= dst.Keys
      invariant entries == map name | name in dst && (name in todo || Excluded(k, rel + [name]) || name in src) :: dst[name]
      decreases todo
    {
      var name :| name in todo;
      if !Excluded(k, rel + [name]) && name !in src {
        entries := entries - {name};
      }
      todo := todo - {name};
    }
  }

  /** Syncing twice is syncing once. */
  lemma {:induction false} MirrorTwice(k: Keep, src: Node, dst: Node, rel: Path)
    requires src.Dir? && dst.Dir? && Mirrorable(k, src, dst, rel)
    ensures var once := Mirror(k, src, dst, rel); Mirrorable(k, src, once, rel) && Mirror(k, src, once, rel) == once
    decreases src
  {
    var once := Mirror(k, src, dst, rel);
    forall name | name in src.entries && !Excluded(k, rel + [name])
      ensures EntryFits(k, src.entries[name], once.entries, name, rel + [name])
      ensures Mirrored(k, src.entries[name], once.entries, name, rel + [name]) == once.entries[name]
    {
      var n := src.entries[name];
      assert EntryFits(k, n, dst.entries, name, rel + [name]);
      assert once.entries[name] == Mirrored(k, n, dst.entries, name, rel + [name]);
      if n.Dir? {
        MirrorTwice(k, n, Into(dst.entries, name), rel + [name]);
      }
    }
    assert Mirror(k, src, once, rel).entries == once.entries;
  }
}
