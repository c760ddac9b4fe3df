/**
 * Reading and writing one cheat-sheet list as a JSON file in the user data
 * directory, keeping one backup of the previous file on every save, and
 * finding the names of all lists present.
 *
 * The record collection is opaque: a `Codec` hands in its validation, its
 * conversion to and from the portable dictionary form, and the JSON encoder
 * and decoder.
 */
module Storage {
  import opened Wrappers
  import opened Paths
  import opened Config
  import opened FileSystem

  const SUITE := "sjb"
  const APP := "cheatsheet"
  const DEFAULT_LIST_FILE := "cheatsheet"
  const LIST_FILE_EXTENSION := ".json"
  const BACKUP_EXTENSION := ".backup"

  /** The errors a caller of the storage layer can see. */
  datatype Error =
    | NoEnvironment  // no variable to resolve the data directory from
    | NoListFile     // nothing exists at the list file path
    | WrongFileType  // something other than a regular file is there
    | ListingFailed  // the data directory cannot be listed
    | OsFailure      // creating the directory, the backup or the file failed
    | Invalid        // the collection does not validate
    | Unencodable    // the collection cannot be written as JSON
    | Undecodable    // the file is not a JSON document
    | Malformed      // the JSON document is not a collection

  /**
   * What the storage layer may do with a collection of type `C` whose
   * portable dictionary form is of type `D`.
   */
  datatype Codec<!C, !D> = Codec(
    validate: C -> bool,        // `validate()` returns without raising
    toDict: C -> D,             // `to_dict()`
    fromDict: D -> Option<C>,   // `from_dict(d)`, None when it raises
    dumps: D -> Option<string>, // `json.dumps(d, indent=2)`, None when it raises
    loads: string -> Option<D>  // `json.load`, None when it raises
  )

  /** The text the list file holds after the collection is saved, if it can be encoded. */
  function Serialize<C, D>(codec: Codec<C, D>, c: C): Option<string>
  {
    codec.dumps(codec.toDict(c))
  }

  /**
   * The encoder and decoder give `c` back, up to its dictionary form, and a
   * valid collection decodes to a valid one.
   */
  ghost predicate RoundTrips<C, D>(codec: Codec<C, D>, c: C)
  {
    && (Serialize(codec, c).Some? ==> codec.loads(Serialize(codec, c).value) == Some(codec.toDict(c)))
    && codec.fromDict(codec.toDict(c)).Some?
    && codec.toDict(codec.fromDict(codec.toDict(c)).value) == codec.toDict(c)
    && (codec.validate(c) ==> codec.validate(codec.fromDict(codec.toDict(c)).value))
  }

  // ---------------------------------------------------------------------
  // The storage handle and its paths
  // ---------------------------------------------------------------------

  /** A handle on one named list; it holds nothing but the name. */
  datatype ListStorage = ListStorage(listname: string)

  /** `Storage(listname)`: an absent or empty name becomes the default list. */
  function NewStorage(listname: Option<string>): (s: ListStorage)
    ensures s.listname != ""
    ensures listname.Some? && listname.value != "" ==> s.listname == listname.value
    ensures listname.None? || listname.value == "" ==> s.listname == DEFAULT_LIST_FILE
  {
    ListStorage(if listname.Some? && listname.value != "" then listname.value else DEFAULT_LIST_FILE)
  }

  /** `get_list_name`: the short name, after which the list file is named. */
  function GetListName(s: ListStorage): (name: string)
    ensures forall env | ListFile(env, s).Ok? ::
              var file := ListFile(env, s).path;
              |file| > 0 && file[|file| - 1] == name + LIST_FILE_EXTENSION
  {
    s.listname
  }

  /** The name a handle reports is the one it was created with, after defaulting. */
  lemma GetListNameAfterNew(listname: Option<string>)
    ensures listname.Some? && listname.value != "" ==> GetListName(NewStorage(listname)) == listname.value
    ensures listname.None? || listname.value == "" ==> GetListName(NewStorage(listname)) == DEFAULT_LIST_FILE
  {
  }

  /** The directory all lists live in. */
  function AppDataDir(env: Env): DirResult
  {
    UserAppDir(env, DataRoot, APP, Some(SUITE))
  }

  /** The file a list is stored in: `<data root>/sjb/cheatsheet/<name>.json`. */
  function ListFile(env: Env, s: ListStorage): (r: DirResult)
    ensures r.NoEnv? <==> UserRoot(env, DataRoot).NoEnv?
    ensures r.Ok? ==> r.path == UserRoot(env, DataRoot).path + [SUITE, APP, s.listname + LIST_FILE_EXTENSION]
  {
    match AppDataDir(env)
    case NoEnv => NoEnv
    case Ok(dir) =>
      var name := s.listname + LIST_FILE_EXTENSION;
      assert dir == UserRoot(env, DataRoot).path + [SUITE, APP] by {
        assert |SUITE| == 3 && |APP| == 10;
      }
      assert |name| >= 5;
      Ok(Join(dir, name))
  }

  /** Where the previous version of a list file is kept: `<dir>/<name>.backup`. */
  function BackupFile(s: ListStorage, file: Path): Path
    requires file != []
  {
    Parent(file) + [s.listname + BACKUP_EXTENSION]
  }

  /** `file` is where `s` keeps its list: below the root, named `<name>.json`. */
  predicate IsListFileOf(s: ListStorage, file: Path)
  {
    |file| > 1 && file[|file| - 1] == s.listname + LIST_FILE_EXTENSION
  }

  /** The path the environment resolves for a handle is its list file. */
  lemma ResolvedListFile(env: Env, s: ListStorage)
    requires ListFile(env, s).Ok?
    ensures IsListFileOf(s, ListFile(env, s).path)
  {
  }

  /** The backup is a different file in the same directory as the list file. */
  lemma BackupBesideListFile(s: ListStorage, file: Path)
    requires IsListFileOf(s, file)
    ensures Parent(BackupFile(s, file)) == Parent(file)
    ensures |BackupFile(s, file)| == |file|
    ensures BackupFile(s, file) != file
  {
    var json, backup := s.listname + LIST_FILE_EXTENSION, s.listname + BACKUP_EXTENSION;
    assert |json| != |backup|;
    assert BackupFile(s, file)[|file| - 1] == backup;
  }

  // ---------------------------------------------------------------------
  // Loading
  // ---------------------------------------------------------------------

  /** The outcome of `load_list` on a file system. */
  function Load<C, D>(fs: Tree, env: Env, s: ListStorage, codec: Codec<C, D>): (r: Result<C, Error>)
    ensures (r.Failure? && r.error == NoEnvironment) <==> ListFile(env, s).NoEnv?
    ensures ListFile(env, s).Ok? ==>
              ((r.Failure? && r.error == NoListFile) <==> ListFile(env, s).path !in fs)
    ensures ListFile(env, s).Ok? ==>
              ((r.Failure? && r.error == WrongFileType) <==> IsDir(fs, ListFile(env, s).path))
    ensures r.Success? ==>
              && IsFile(fs, ListFile(env, s).path)
              && var d := codec.loads(fs[ListFile(env, s).path].content);
              && d.Some? && codec.fromDict(d.value) == Some(r.value)
              && codec.validate(r.value)
    ensures ListFile(env, s).Ok? && IsFile(fs, ListFile(env, s).path) ==>
              var d := codec.loads(fs[ListFile(env, s).path].content);
              && ((r.Failure? && r.error == Undecodable) <==> d.None?)
              && ((r.Failure? && r.error == Malformed) <==> d.Some? && codec.fromDict(d.value).None?)
              && ((r.Failure? && r.error == Invalid) <==>
                    d.Some? && codec.fromDict(d.value).Some? && !codec.validate(codec.fromDict(d.value).value))
              && (r.Success? <==>
                    d.Some? && codec.fromDict(d.value).Some? && codec.validate(codec.fromDict(d.value).value))
  {
    match ListFile(env, s)
    case NoEnv => Failure(NoEnvironment)
    case Ok(file) =>
      if !IsFile(fs, file) then
        if file in fs then Failure(WrongFileType) else Failure(NoListFile)
      else
        match codec.loads(fs[file].content)
        case None => Failure(Undecodable)
        case Some(d) =>
          match codec.fromDict(d)
          case None => Failure(Malformed)
          case Some(c) => if codec.validate(c) then Success(c) else Failure(Invalid)
  }

  /**
   * `load_list`: looks at what is at the list file path before reading it.
   * It only reads the disk, so no outcome changes the file system.
   */
  method LoadList<C, D>(s: ListStorage, env: Env, disk: Disk, codec: Codec<C, D>) returns (r: Result<C, Error>)
    ensures r == Load(disk.entries, env, s, codec)
  {
    var file := ListFile(env, s);
    if file.NoEnv? {
      return Failure(NoEnvironment);
    }
    var fname := file.path;
    if !IsFile(disk.entries, fname) {
      if fname in disk.entries {
        return Failure(WrongFileType);
      }
      return Failure(NoListFile);
    }
    var json := codec.loads(disk.entries[fname].content);
    if json.None? {
      return Failure(Undecodable);
    }
    var cs := codec.fromDict(json.value);
    if cs.None? {
      return Failure(Malformed);
    }
    if !codec.validate(cs.value) {
      return Failure(Invalid);
    }
    return Success(cs.value);
  }

  // ---------------------------------------------------------------------
  // Saving
  // ---------------------------------------------------------------------

  /** The outcome of a save and the file system it leaves behind. */
  datatype SaveResult = SaveResult(outcome: Outcome<Error>, fs: Tree)

  /**
   * `if not os.path.isdir(dirname): os.makedirs(dirname)`: the directory of
   * `file` exists afterwards, and nothing but it and its ancestors is added.
   */
  function EnsureParent(fs: Tree, file: Path): (r: Option<Tree>)
    requires |file| > 1
    ensures r.None? <==> !IsDir(fs, Parent(file)) && BlockedBy(fs, Parent(file))
    ensures r.Some? ==> IsDir(r.value, Parent(file))
    ensures r.Some? ==> forall q | q in fs :: q in r.value && r.value[q] == fs[q]
    ensures r.Some? ==> forall q | q in r.value && q !in fs :: q <= Parent(file) && q != []
  {
    var dir := Parent(file);
    assert dir[..|dir|] == dir;
    if IsDir(fs, dir) then Some(fs) else AfterMakeDirs(fs, dir)
  }

  /**
   * `save_list` on a file system: make the list's directory if it is not one,
   * back up the list file, validate, then open the list file for writing and
   * write the encoded collection. A step that fails ends the save and keeps
   * what the earlier steps did.
   */
  function Save<C, D>(fs: Tree, env: Env, s: ListStorage, codec: Codec<C, D>, c: C): (r: SaveResult)
    ensures r.outcome == Fail(NoEnvironment) <==> ListFile(env, s).NoEnv?
    ensures ListFile(env, s).NoEnv? ==> r.fs == fs
  {
    match ListFile(env, s)
    case NoEnv => SaveResult(Fail(NoEnvironment), fs)
    case Ok(file) => SaveTo(fs, s, file, codec, c)
  }

  /**
   * The steps of a save once the list file path is known. Opening the file
   * for writing empties it before the collection is encoded, so a collection
   * that cannot be encoded leaves an empty list file behind.
   */
  function SaveTo<C, D>(fs: Tree, s: ListStorage, file: Path, codec: Codec<C, D>, c: C): (r: SaveResult)
    requires |file| > 1
    ensures r.outcome in {Pass, Fail(OsFailure), Fail(Invalid), Fail(Unencodable)}
  {
    var made := EnsureParent(fs, file);
    if made.None? then SaveResult(Fail(OsFailure), fs)
    else
      var backedUp := AfterBackup(made.value, file, BackupFile(s, file));
      if backedUp.None? then SaveResult(Fail(OsFailure), made.value)
      else if !codec.validate(c) then SaveResult(Fail(Invalid), backedUp.value)
      else
        var truncated := AfterWrite(backedUp.value, file, "");
        if truncated.None? then SaveResult(Fail(OsFailure), backedUp.value)
        else
          match Serialize(codec, c)
          case None => SaveResult(Fail(Unencodable), truncated.value)
          case Some(text) => SaveResult(Pass, truncated.value[file := File(text)])
  }

  /** `save_list`: the same steps, in the same order, on the disk. */
  method SaveList<C, D>(s: ListStorage, env: Env, disk: Disk, codec: Codec<C, D>, c: C) returns (r: Outcome<Error>)
    modifies disk
    ensures SaveResult(r, disk.entries) == Save(old(disk.entries), env, s, codec, c)
  {
    var file := ListFile(env, s);
    if file.NoEnv? {
      return Fail(NoEnvironment);
    }
    r := SaveListTo(s, file.path, disk, codec, c);
  }

  /** The steps of `save_list` once the list file path is known. */
  method SaveListTo<C, D>(s: ListStorage, fname: Path, disk: Disk, codec: Codec<C, D>, c: C) returns (r: Outcome<Error>)
    requires |fname| > 1
    modifies disk
    ensures SaveResult(r, disk.entries) == SaveTo(old(disk.entries), s, fname, codec, c)
  {
    ghost var made := EnsureParent(disk.entries, fname);
    if !IsDir(disk.entries, Parent(fname)) {
      var ok := disk.MakeDirs(Parent(fname));
      if !ok {
        return Fail(OsFailure);
      }
    }
    assert disk.entries == made.value;
    ghost var backedUp := AfterBackup(made.value, fname, BackupFile(s, fname));
    var ok := disk.Backup(fname, BackupFile(s, fname));
    if !ok {
      return Fail(OsFailure);
    }
    assert disk.entries == backedUp.value;
    if !codec.validate(c) {
      return Fail(Invalid);
    }
    ok := disk.Write(fname, "");
    if !ok {
      return Fail(OsFailure);
    }
    var text := Serialize(codec, c);
    if text.None? {
      return Fail(Unencodable);
    }
    ok := disk.Write(fname, text.value);
    assert ok;
    return Pass;
  }

  // ---------------------------------------------------------------------
  // Listing the lists
  // ---------------------------------------------------------------------

  /** `str.endswith` */
  predicate EndsWith(name: string, suffix: string)
  {
    |suffix| <= |name| && name[|name| - |suffix|..] == suffix
  }

  /** An entry of the data directory that holds a list. */
  predicate IsListEntry(entry: (string, bool))
  {
    entry.1 && EndsWith(entry.0, LIST_FILE_EXTENSION)
  }

  function StripListExtension(name: string): string
    requires EndsWith(name, LIST_FILE_EXTENSION)
  {
    name[..|name| - |LIST_FILE_EXTENSION|]
  }

  /**
   * The list names a directory listing holds, in listing order: the regular
   * files ending in `.json`, without the extension.
   */
  function ListNames(listing: seq<(string, bool)>): (names: seq<string>)
    ensures |names| <= |listing|
    ensures forall k | 0 <= k < |names| :: (names[k] + LIST_FILE_EXTENSION, true) in listing
  {
    if listing == [] then []
    else
      var init, last := listing[..|listing| - 1], listing[|listing| - 1];
      assert forall e | e in init :: e in listing;
      if IsListEntry(last) then
        StripThenExtend(last.0);
        ListNames(init) + [StripListExtension(last.0)]
      else
        ListNames(init)
  }

  /** `get_all_list_files` */
  method GetAllListFiles(env: Env, disk: Disk) returns (r: Result<seq<string>, Error>)
    ensures r.Failure? ==> r.error == NoEnvironment || r.error == ListingFailed
    ensures (r.Failure? && r.error == NoEnvironment) <==> AppDataDir(env).NoEnv?
    ensures (r.Failure? && r.error == ListingFailed) <==>
              AppDataDir(env).Ok? && !IsDir(disk.entries, AppDataDir(env).path)
    ensures r.Success? ==>
              exists listing :: IsListingOf(disk.entries, AppDataDir(env).path, listing) && r.value == ListNames(listing)
    ensures r.Success? ==>
              forall n :: n in r.value <==> IsFile(disk.entries, AppDataDir(env).path + [n + LIST_FILE_EXTENSION])
    ensures r.Success? ==> forall i, j | 0 <= i < j < |r.value| :: r.value[i] != r.value[j]
  {
    var dir := AppDataDir(env);
    if dir.NoEnv? {
      return Failure(NoEnvironment);
    }
    var d := dir.path;
    var files := disk.ListDir(d);
    if files.None? {
      return Failure(ListingFailed);
    }
    var listing := files.value;
    var matching: seq<string> := [];
    for i := 0 to |listing|
      invariant matching == ListNames(listing[..i])
    {
      var f := listing[i];
      assert listing[..i + 1][..i] == listing[..i];
      if !f.1 {
        continue;
      }
      if !EndsWith(f.0, LIST_FILE_EXTENSION) {
        continue;
      }
      matching := matching + [StripListExtension(f.0)];
    }
    assert listing[..|listing|] == listing;
    forall n
      ensures n in matching <==> IsFile(disk.entries, d + [n + LIST_FILE_EXTENSION])
    {
      ListNamesExactly(listing, n);
      ListedFile(disk.entries, d, listing, n + LIST_FILE_EXTENSION);
    }
    ListNamesDistinct(listing);
    return Success(matching);
  }

  // ---------------------------------------------------------------------
  // Properties of the listing
  // ---------------------------------------------------------------------

  lemma StripThenExtend(name: string)
    requires EndsWith(name, LIST_FILE_EXTENSION)
    ensures StripListExtension(name) + LIST_FILE_EXTENSION == name
  {
  }

  lemma ExtendThenStrip(n: string)
    ensures EndsWith(n + LIST_FILE_EXTENSION, LIST_FILE_EXTENSION)
    ensures StripListExtension(n + LIST_FILE_EXTENSION) == n
  {
    var f := n + LIST_FILE_EXTENSION;
    assert f[|f| - |LIST_FILE_EXTENSION|..] == LIST_FILE_EXTENSION;
    assert f[..|f| - |LIST_FILE_EXTENSION|] == n;
  }

  /** A name is listed exactly when its `.json` file is a regular file of the listing. */
  lemma {:induction false} ListNamesExactly(listing: seq<(string, bool)>, n: string)
    ensures n in ListNames(listing) <==> (n + LIST_FILE_EXTENSION, true) in listing
  {
    if listing != [] {
      var init, last := listing[..|listing| - 1], listing[|listing| - 1];
      assert listing == init + [last];
      ListNamesExactly(init, n);
      ExtendThenStrip(n);
      if IsListEntry(last) {
        StripThenExtend(last.0);
      }
    }
  }

  /** Names keep the order of the listing: the names of a concatenation concatenate. */
  lemma {:induction false} ListNamesAppend(a: seq<(string, bool)>, b: seq<(string, bool)>)
    ensures ListNames(a + b) == ListNames(a) + ListNames(b)
  {
    if b != [] {
      var init, last := b[..|b| - 1], b[|b| - 1];
      assert (a + b)[..|a + b| - 1] == a + init;
      assert (a + b)[|a + b| - 1] == last;
      ListNamesAppend(a, init);
    } else {
      assert a + b == a;
    }
  }

  /** A listing without repeated entries gives no name twice. */
  lemma {:induction false} ListNamesDistinct(listing: seq<(string, bool)>)
    requires forall i, j | 0 <= i < j < |listing| :: listing[i].0 != listing[j].0
    ensures forall i, j | 0 <= i < j < |ListNames(listing)| :: ListNames(listing)[i] != ListNames(listing)[j]
  {
    if listing != [] {
      var init, last := listing[..|listing| - 1], listing[|listing| - 1];
      ListNamesDistinct(init);
      if IsListEntry(last) {
        var n := StripListExtension(last.0);
        ListNamesExactly(init, n);
        StripThenExtend(last.0);
        forall k | 0 <= k < |init|
          ensures init[k] != (last.0, true)
        {
          assert listing[k].0 != listing[|listing| - 1].0;
        }
        assert n !in ListNames(init);
      }
    }
  }

  /**
   * Of `foo.json`, `bar.json`, `notes.txt` and a directory `baz.json`, only
   * `foo` and `bar` name lists.
   */
  lemma ListNamesSkipsOtherEntries()
    ensures ListNames([("foo.json", true), ("bar.json", true), ("notes.txt", true), ("baz.json", false)])
            == ["foo", "bar"]
  {
    var foo, bar, notes, baz := ("foo.json", true), ("bar.json", true), ("notes.txt", true), ("baz.json", false);
    assert foo.0 == "foo" + LIST_FILE_EXTENSION && bar.0 == "bar" + LIST_FILE_EXTENSION;
    ExtendThenStrip("foo");
    ExtendThenStrip("bar");
    assert notes.0[|notes.0| - 5] != LIST_FILE_EXTENSION[0];
    assert IsListEntry(foo) && IsListEntry(bar) && !IsListEntry(notes) && !IsListEntry(baz);
    assert ListNames([foo]) == ["foo"];
    assert [foo, bar][..1] == [foo];
    assert ListNames([foo, bar]) == ["foo", "bar"];
    assert [foo, bar, notes][..2] == [foo, bar];
    assert [foo, bar, notes, baz][..3] == [foo, bar, notes];
  }

  /** In a listing of `d`, a regular file of `d` appears marked as one. */
  lemma ListedFile(fs: Tree, d: Path, listing: seq<(string, bool)>, name: string)
    requires IsListingOf(fs, d, listing)
    ensures (name, true) in listing <==> IsFile(fs, d + [name])
  {
    if IsFile(fs, d + [name]) {
      ChildOf(fs, d, name);
      assert name in Names(listing);
      var i :| 0 <= i < |listing| && listing[i].0 == name;
      assert listing[i] == (name, true);
    }
    if (name, true) in listing {
      var i :| 0 <= i < |listing| && listing[i] == (name, true);
    }
  }
}

