/**
 * What a save does to the file system. The step properties are stated for a
 * save to any list file path below the root (`SaveTo`), the ones that tie a
 * save to a later load for the path the environment resolves (`Save`).
 */
module SaveProperties {
  import opened Wrappers
  import opened Paths
  import opened Config
  import opened FileSystem
  import opened Storage

  /** Making the list's directory leaves every path at least as long as the list file alone. */
  lemma EnsureParentKeeps(fs: Tree, file: Path, q: Path)
    requires |file| > 1 && EnsureParent(fs, file).Some? && |q| >= |file|
    ensures Lookup(EnsureParent(fs, file).value, q) == Lookup(fs, q)
  {
    var made := EnsureParent(fs, file).value;
    assert forall p | p in made && p !in fs :: |p| < |file|;
  }

  /**
   * When the list's directory is missing it is made before anything else:
   * if it cannot be made the save changes nothing, otherwise the directory
   * exists afterwards, whatever the outcome.
   */
  lemma SaveMakesDirectoryFirst<C, D>(fs: Tree, s: ListStorage, file: Path, codec: Codec<C, D>, c: C)
    requires |file| > 1
    ensures var r := SaveTo(fs, s, file, codec, c);
            if !IsDir(fs, Parent(file)) && BlockedBy(fs, Parent(file))
            then r == SaveResult(Fail(OsFailure), fs)
            else IsDir(r.fs, Parent(file))
  {
  }

  /**
   * A collection that does not validate is never written: the list file is as
   * it was, while the directory made and the backup taken stay.
   */
  lemma InvalidListIsNotWritten<C, D>(fs: Tree, s: ListStorage, file: Path, codec: Codec<C, D>, c: C)
    requires |file| > 1 && !codec.validate(c)
    ensures var r := SaveTo(fs, s, file, codec, c);
            && r.outcome.Fail?
            && Lookup(r.fs, file) == Lookup(fs, file)
            && (r.outcome == Fail(Invalid) ==> IsDir(r.fs, Parent(file)))
            && (r.outcome == Fail(Invalid) && IsFile(fs, file) ==>
                  Lookup(r.fs, BackupFile(s, file)) == Some(File(fs[file].content)))
  {
    var made := EnsureParent(fs, file);
    if made.Some? {
      EnsureParentKeeps(fs, file, file);
    }
  }

  /** A successful save leaves the list file holding the serialised collection. */
  lemma SaveWritesSerialization<C, D>(fs: Tree, s: ListStorage, file: Path, codec: Codec<C, D>, c: C)
    requires |file| > 1
    ensures var r := SaveTo(fs, s, file, codec, c);
            r.outcome.Pass? ==>
              codec.validate(c) && Serialize(codec, c).Some? &&
              Lookup(r.fs, file) == Some(File(Serialize(codec, c).value))
  {
  }

  /**
   * The list file is opened for writing, and so emptied, before the
   * collection is encoded: when encoding fails the list file is left empty,
   * and only the backup holds the previous version.
   */
  lemma FailedEncodingEmptiesListFile<C, D>(fs: Tree, s: ListStorage, file: Path, codec: Codec<C, D>, c: C)
    requires IsListFileOf(s, file)
    ensures var r := SaveTo(fs, s, file, codec, c);
            r.outcome == Fail(Unencodable) ==>
              && codec.validate(c) && Serialize(codec, c).None?
              && Lookup(r.fs, file) == Some(File(""))
              && (IsFile(fs, file) ==> Lookup(r.fs, BackupFile(s, file)) == Some(File(fs[file].content)))
  {
    BackupBesideListFile(s, file);
    var made := EnsureParent(fs, file);
    if made.Some? {
      EnsureParentKeeps(fs, file, file);
    }
  }

  /**
   * A successful save keeps the previous list file as the backup; when there
   * was no list file, a save neither creates nor changes a backup.
   */
  lemma SaveKeepsPreviousVersion<C, D>(fs: Tree, s: ListStorage, file: Path, codec: Codec<C, D>, c: C)
    requires IsListFileOf(s, file)
    ensures var r := SaveTo(fs, s, file, codec, c);
            && (r.outcome.Pass? && IsFile(fs, file) ==>
                  Lookup(r.fs, BackupFile(s, file)) == Some(File(fs[file].content)))
            && (!IsFile(fs, file) ==> Lookup(r.fs, BackupFile(s, file)) == Lookup(fs, BackupFile(s, file)))
  {
    BackupBesideListFile(s, file);
    var made := EnsureParent(fs, file);
    if made.Some? {
      EnsureParentKeeps(fs, file, file);
      EnsureParentKeeps(fs, file, BackupFile(s, file));
    }
  }

  /**
   * Whatever its outcome, a save changes no existing entry but the list file
   * and its backup, and creates nothing but those two and the list's
   * directory and its ancestors.
   */
  lemma SaveChangesOnlyItsFiles<C, D>(fs: Tree, s: ListStorage, file: Path, codec: Codec<C, D>, c: C)
    requires |file| > 1
    ensures var r := SaveTo(fs, s, file, codec, c);
            && (forall p | p in fs && p != file && p != BackupFile(s, file) :: p in r.fs && r.fs[p] == fs[p])
            && (forall p | p in r.fs && p !in fs :: p == file || p == BackupFile(s, file) || (p <= Parent(file) && p != []))
  {
  }

  /**
   * A save succeeds exactly when the directory exists or can be made, the
   * backup can be taken, the collection validates and the list file path is
   * not a directory.
   */
  lemma SaveSucceedsIff<C, D>(fs: Tree, s: ListStorage, file: Path, codec: Codec<C, D>, c: C)
    requires |file| > 1
    ensures SaveTo(fs, s, file, codec, c).outcome.Pass? <==>
              && (IsDir(fs, Parent(file)) || !BlockedBy(fs, Parent(file)))
              && !(IsFile(fs, file) && IsDir(fs, BackupFile(s, file)))
              && codec.validate(c)
              && !IsDir(fs, file)
              && Serialize(codec, c).Some?
  {
    var made := EnsureParent(fs, file);
    if made.Some? {
      EnsureParentKeeps(fs, file, file);
      EnsureParentKeeps(fs, file, BackupFile(s, file));
      assert Parent(BackupFile(s, file)) == Parent(file);
    }
  }

  /** Saving keeps every entry inside an existing directory. */
  lemma SaveKeepsWellFormed<C, D>(fs: Tree, s: ListStorage, file: Path, codec: Codec<C, D>, c: C)
    requires |file| > 1 && WellFormed(fs)
    ensures WellFormed(SaveTo(fs, s, file, codec, c).fs)
  {
    var made := EnsureParent(fs, file);
    if made.Some? {
      if !IsDir(fs, Parent(file)) {
        MakeDirsKeepsWellFormed(fs, Parent(file));
      }
      var bak := BackupFile(s, file);
      var backedUp := AfterBackup(made.value, file, bak);
      if backedUp.Some? {
        BackupKeepsWellFormed(made.value, file, bak);
        if codec.validate(c) {
          var truncated := AfterWrite(backedUp.value, file, "");
          if truncated.Some? {
            WriteKeepsWellFormed(backedUp.value, file, "");
            var text := Serialize(codec, c);
            if text.Some? {
              WriteKeepsWellFormed(truncated.value, file, text.value);
            }
          }
        }
      }
    }
  }

  /**
   * Two saves in a row: the backup holds what the first wrote and the list
   * file what the second wrote.
   */
  lemma SaveTwice<C, D>(fs: Tree, s: ListStorage, file: Path, codec: Codec<C, D>, first: C, second: C)
    requires IsListFileOf(s, file)
    requires SaveTo(fs, s, file, codec, first).outcome.Pass?
    requires SaveTo(SaveTo(fs, s, file, codec, first).fs, s, file, codec, second).outcome.Pass?
    ensures var after := SaveTo(SaveTo(fs, s, file, codec, first).fs, s, file, codec, second).fs;
            && Lookup(after, BackupFile(s, file)) == Some(File(Serialize(codec, first).value))
            && Lookup(after, file) == Some(File(Serialize(codec, second).value))
  {
    var mid := SaveTo(fs, s, file, codec, first).fs;
    SaveWritesSerialization(fs, s, file, codec, first);
    SaveWritesSerialization(mid, s, file, codec, second);
    SaveKeepsPreviousVersion(mid, s, file, codec, second);
  }

  /** A saved collection loads back, equal in its dictionary form. */
  lemma SaveThenLoad<C, D>(fs: Tree, env: Env, s: ListStorage, codec: Codec<C, D>, c: C)
    requires Save(fs, env, s, codec, c).outcome.Pass?
    requires RoundTrips(codec, c)
    ensures var loaded := Load(Save(fs, env, s, codec, c).fs, env, s, codec);
            loaded.Success? && codec.toDict(loaded.value) == codec.toDict(c)
  {
    SaveWritesSerialization(fs, s, ListFile(env, s).path, codec, c);
  }

  /** With `HOME=/u` and nothing else set, the list `work` is kept in `/u/.local/share/sjb/cheatsheet/work.json`. */
  lemma WorkListFile()
    ensures ListFile(map[HOME := "/u"], NewStorage(Some("work")))
            == Ok(["/u", ".local", "share", "sjb", "cheatsheet", "work.json"])
  {
    var env, s := map[HOME := "/u"], NewStorage(Some("work"));
    assert s.listname == "work";
    assert ENV_TEST_FLAG !in env && XdgVar(DataRoot) !in env && HOME in env;
    assert RootPath("/u") == ["/u"];
    assert UserRoot(env, DataRoot) == Ok(["/u", ".local", "share"]);
    assert s.listname + LIST_FILE_EXTENSION == "work.json";
  }

  /**
   * Saving the list `work` twice into a home directory `/u` that holds
   * nothing yet: the first save creates the list file and no backup, the
   * second moves the first version to `work.backup`.
   */
  lemma SaveWorkListTwice<C, D>(codec: Codec<C, D>, two: C, three: C)
    requires codec.validate(two) && codec.validate(three)
    requires Serialize(codec, two).Some? && Serialize(codec, three).Some?
    ensures var env, s := map[HOME := "/u"], NewStorage(Some("work"));
            var file := ["/u", ".local", "share", "sjb", "cheatsheet", "work.json"];
            var bak := ["/u", ".local", "share", "sjb", "cheatsheet", "work.backup"];
            var first := Save(map[["/u"] := Dir], env, s, codec, two);
            var second := Save(first.fs, env, s, codec, three);
            && first.outcome == Pass && second.outcome == Pass
            && Lookup(first.fs, file) == Some(File(Serialize(codec, two).value))
            && Lookup(first.fs, bak) == None
            && Lookup(second.fs, file) == Some(File(Serialize(codec, three).value))
            && Lookup(second.fs, bak) == Some(File(Serialize(codec, two).value))
  {
    var env, s := map[HOME := "/u"], NewStorage(Some("work"));
    var fs: Tree := map[["/u"] := Dir];
    var file := ["/u", ".local", "share", "sjb", "cheatsheet", "work.json"];
    var bak := ["/u", ".local", "share", "sjb", "cheatsheet", "work.backup"];
    WorkListFile();
    assert s.listname == "work";
    assert s.listname + BACKUP_EXTENSION == "work.backup";
    assert BackupFile(s, file) == bak;
    var dir := Parent(file);
    assert !BlockedBy(fs, dir) by {
      forall i | 1 <= i <= |dir| ensures !IsFile(fs, dir[..i]) {
        assert |dir[..i]| == i;
      }
    }
    assert IsListFileOf(s, file);
    BackupBesideListFile(s, file);
    var first := SaveTo(fs, s, file, codec, two);
    assert Save(fs, env, s, codec, two) == first;
    SaveSucceedsIff(fs, s, file, codec, two);
    SaveWritesSerialization(fs, s, file, codec, two);
    SaveKeepsPreviousVersion(fs, s, file, codec, two);
    SaveMakesDirectoryFirst(fs, s, file, codec, two);
    var second := SaveTo(first.fs, s, file, codec, three);
    assert Save(first.fs, env, s, codec, three) == second;
    SaveSucceedsIff(first.fs, s, file, codec, three);
    SaveTwice(fs, s, file, codec, two, three);
  }
}
