/**
 * The part of the operating system the storage layer talks to: a tree of
 * regular files and directories, the few calls made on it (`os.makedirs`,
 * copying a file aside, writing a file, `os.listdir`) as steps on that tree,
 * and a `Disk` object whose entries those calls update in place.
 */
module FileSystem {
  import opened Wrappers
  import opened Paths

  /** What a path names: a regular file with its text, or a directory. */
  datatype Entry = File(content: string) | Dir

  /** Every existing path and what it names; the root directory is implicit. */
  type Tree = map<Path, Entry>

  /** `os.path.isfile` */
  predicate IsFile(fs: Tree, p: Path)
  {
    p in fs && fs[p].File?
  }

  /** `os.path.isdir` */
  predicate IsDir(fs: Tree, p: Path)
  {
    p in fs && fs[p].Dir?
  }

  /** What is at `p`, if anything (`os.path.exists` is `Lookup(fs, p).Some?`). */
  function Lookup(fs: Tree, p: Path): Option<Entry>
  {
    if p in fs then Some(fs[p]) else None
  }

  /** Every entry below the root sits in an existing directory. */
  ghost predicate WellFormed(fs: Tree)
  {
    forall p | p in fs && |p| > 1 :: IsDir(fs, Parent(p))
  }

  /** Some ancestor of `p`, or `p` itself, exists and is not a directory. */
  predicate BlockedBy(fs: Tree, p: Path)
  {
    exists i | 1 <= i <= |p| :: IsFile(fs, p[..i])
  }

  /**
   * `os.makedirs(p)`: creates `p` and every missing ancestor; fails, creating
   * nothing, when `p` already exists or a component on the way is a file.
   */
  function AfterMakeDirs(fs: Tree, p: Path): (r: Option<Tree>)
    ensures r.None? <==> IsDir(fs, p) || BlockedBy(fs, p)
    ensures r.Some? ==> forall i | 1 <= i <= |p| :: IsDir(r.value, p[..i])
    ensures r.Some? ==> forall q | q in fs :: q in r.value && r.value[q] == fs[q]
    ensures r.Some? ==> forall q | q in r.value && q !in fs :: q <= p && q != []
  {
    if IsDir(fs, p) || BlockedBy(fs, p) then None
    else
      var made := fs + map i | 1 <= i <= |p| && p[..i] !in fs :: p[..i] := Dir;
      assert forall q | q in made && q !in fs :: q <= p && q != [] by {
        forall q | q in made && q !in fs ensures q <= p && q != [] {
          var i :| 1 <= i <= |p| && p[..i] == q;
        }
      }
      Some(made)
  }

  /**
   * Keeps a copy of the file at `target` at `bak`, replacing an older copy;
   * nothing happens when `target` is not a regular file. Fails when `bak` is a
   * directory or its parent directory is missing.
   */
  function AfterBackup(fs: Tree, target: Path, bak: Path): (r: Option<Tree>)
    requires bak != []
    ensures !IsFile(fs, target) ==> r == Some(fs)
    ensures r.None? <==> IsFile(fs, target) && (IsDir(fs, bak) || (|bak| > 1 && !IsDir(fs, Parent(bak))))
    ensures r.Some? && IsFile(fs, target) ==> r.value == fs[bak := File(fs[target].content)]
  {
    if !IsFile(fs, target) then Some(fs)
    else if IsDir(fs, bak) || (|bak| > 1 && !IsDir(fs, Parent(bak))) then None
    else Some(fs[bak := File(fs[target].content)])
  }

  /**
   * `open(p, 'w').write(content)`: creates or truncates the file; fails when
   * `p` is a directory or its parent directory is missing.
   */
  function AfterWrite(fs: Tree, p: Path, content: string): (r: Option<Tree>)
    requires p != []
    ensures r.None? <==> IsDir(fs, p) || (|p| > 1 && !IsDir(fs, Parent(p)))
    ensures r.Some? ==> r.value == fs[p := File(content)]
  {
    if IsDir(fs, p) || (|p| > 1 && !IsDir(fs, Parent(p))) then None
    else Some(fs[p := File(content)])
  }

  /** The names of the entries directly inside `d`. */
  function Children(fs: Tree, d: Path): set<string>
  {
    set p | p in fs && |p| == |d| + 1 && p[..|d|] == d :: p[|d|]
  }

  /** The names a listing holds. */
  function Names(listing: seq<(string, bool)>): set<string>
  {
    set i | 0 <= i < |listing| :: listing[i].0
  }

  /**
   * `listing` is a result `os.listdir(d)` may give: every entry of `d` once,
   * in some order, each marked with whether it is a regular file.
   */
  ghost predicate IsListingOf(fs: Tree, d: Path, listing: seq<(string, bool)>)
  {
    && Names(listing) == Children(fs, d)
    && (forall i | 0 <= i < |listing| :: listing[i].1 == IsFile(fs, d + [listing[i].0]))
    && (forall i, j | 0 <= i < j < |listing| :: listing[i].0 != listing[j].0)
  }

  lemma NamesAppend(listing: seq<(string, bool)>, e: (string, bool))
    ensures Names(listing + [e]) == Names(listing) + {e.0}
  {
    var l := listing + [e];
    forall n | n in Names(l) ensures n in Names(listing) + {e.0} {
      var i :| 0 <= i < |l| && l[i].0 == n;
      if i < |listing| { assert listing[i].0 == n; }
    }
    forall n | n in Names(listing) ensures n in Names(l) {
      var i :| 0 <= i < |listing| && listing[i].0 == n;
      assert l[i].0 == n;
    }
    assert l[|listing|].0 == e.0;
  }

  lemma ChildOf(fs: Tree, d: Path, name: string)
    requires d + [name] in fs
    ensures name in Children(fs, d)
  {
    var p := d + [name];
    assert p[..|d|] == d && p[|d|] == name;
  }

  /**
   * `listing` lists part of `d`: the names in `todo` are the children still to
   * come, each listed entry is marked correctly and no name is listed twice.
   */
  ghost predicate PartialListing(fs: Tree, d: Path, listing: seq<(string, bool)>, todo: set<string>)
  {
    && todo !! Names(listing)
    && todo + Names(listing) == Children(fs, d)
    && (forall i | 0 <= i < |listing| :: listing[i].1 == IsFile(fs, d + [listing[i].0]))
    && (forall i, j | 0 <= i < j < |listing| :: listing[i].0 != listing[j].0)
  }

  /** Listing one more child keeps a partial listing. */
  lemma ListOneMore(fs: Tree, d: Path, listing: seq<(string, bool)>, todo: set<string>, name: string)
    requires PartialListing(fs, d, listing, todo) && name in todo
    ensures PartialListing(fs, d, listing + [(name, IsFile(fs, d + [name]))], todo - {name})
  {
    var entry := (name, IsFile(fs, d + [name]));
    var next := listing + [entry];
    NamesAppend(listing, entry);
    forall i, j | 0 <= i < j < |next| ensures next[i].0 != next[j].0 {
      if j == |listing| {
        assert next[i].0 in Names(listing);
      }
    }
  }

  /** A partial listing with nothing left to list is a listing. */
  lemma PartialListingDone(fs: Tree, d: Path, listing: seq<(string, bool)>)
    requires PartialListing(fs, d, listing, {})
    ensures IsListingOf(fs, d, listing)
  {
    assert {} + Names(listing) == Names(listing);
  }

  /** The file system as one mutable object. */
  class Disk {
    var entries: Tree

    constructor (initial: Tree)
      ensures entries == initial
    {
      entries := initial;
    }

    method MakeDirs(p: Path) returns (ok: bool)
      modifies this
      ensures ok == AfterMakeDirs(old(entries), p).Some?
      ensures entries == if ok then AfterMakeDirs(old(entries), p).value else old(entries)
    {
      var r := AfterMakeDirs(entries, p);
      ok := r.Some?;
      if ok {
        entries := r.value;
      }
    }

    method Backup(target: Path, bak: Path) returns (ok: bool)
      requires bak != []
      modifies this
      ensures ok == AfterBackup(old(entries), target, bak).Some?
      ensures entries == if ok then AfterBackup(old(entries), target, bak).value else old(entries)
    {
      var r := AfterBackup(entries, target, bak);
      ok := r.Some?;
      if ok {
        entries := r.value;
      }
    }

    method Write(p: Path, content: string) returns (ok: bool)
      requires p != []
      modifies this
      ensures ok == AfterWrite(old(entries), p, content).Some?
      ensures entries == if ok then AfterWrite(old(entries), p, content).value else old(entries)
    {
      var r := AfterWrite(entries, p, content);
      ok := r.Some?;
      if ok {
        entries := r.value;
      }
    }

    /**
     * `os.listdir(d)` together with `os.path.isfile` on each entry; fails
     * when `d` is not a directory. The order is whatever the system yields.
     */
    method ListDir(d: Path) returns (r: Option<seq<(string, bool)>>)
      ensures r.Some? <==> IsDir(entries, d)
      ensures r.Some? ==> IsListingOf(entries, d, r.value)
    {
      if !IsDir(entries, d) {
        return None;
      }
      var fs := entries;
      var todo := Children(fs, d);
      var listing: seq<(string, bool)> := [];
      assert Names(listing) == {};
      while todo != {}
        invariant PartialListing(fs, d, listing, todo)
        decreases |todo|
      {
        var name :| name in todo;
        ListOneMore(fs, d, listing, todo, name);
        listing := listing + [(name, IsFile(fs, d + [name]))];
        todo := todo - {name};
      }
      PartialListingDone(fs, d, listing);
      return Some(listing);
    }
  }

  // ---------------------------------------------------------------------
  // The steps keep the tree well formed
  // ---------------------------------------------------------------------

  lemma MakeDirsKeepsWellFormed(fs: Tree, p: Path)
    requires WellFormed(fs) && AfterMakeDirs(fs, p).Some?
    ensures WellFormed(AfterMakeDirs(fs, p).value)
  {
    var made := AfterMakeDirs(fs, p).value;
    forall q | q in made && |q| > 1
      ensures IsDir(made, Parent(q))
    {
      if q !in fs {
        assert q <= p;
        assert Parent(q) == p[..|q| - 1];
      }
    }
  }

  lemma BackupKeepsWellFormed(fs: Tree, target: Path, bak: Path)
    requires bak != [] && WellFormed(fs) && AfterBackup(fs, target, bak).Some?
    ensures WellFormed(AfterBackup(fs, target, bak).value)
  {
  }

  lemma WriteKeepsWellFormed(fs: Tree, p: Path, content: string)
    requires p != [] && WellFormed(fs) && AfterWrite(fs, p, content).Some?
    ensures WellFormed(AfterWrite(fs, p, content).value)
  {
  }
}
