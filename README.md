# sjb persistence layer in Dafny

This is a model of the persistence layer of the `sjb` cheat-sheet tool. It has two parts.

- **Directory resolution** (`sjb/common/config.py`) finds the per-user data and config roots. It follows the freedesktop XDG Base Directory Specification, with a test-mode override layer on top. The order is: test override (`TEST_XDG_DATA_HOME` / `TEST_XDG_CONFIG_HOME` when `SJB_TOOLS_TEST` is `"1"`), then `XDG_DATA_HOME` / `XDG_CONFIG_HOME`, then `$HOME/.local/share` / `$HOME/.config`, else a failure. Per-application directories are derived from the roots.
- **List storage** (`sjb/cs/storage.py`) binds a list name to `<data root>/sjb/cheatsheet/<name>.json`. It loads and saves one record collection there and keeps a backup of the previous file on each save. It also finds the names of all lists in that directory.

The environment is an explicit `map<string, string>`. Paths are sequences of components. The file system is a `map<Path, Entry>`, where an `Entry` is `File(content)` or `Dir`. The record collection stays opaque: a `Codec` value supplies its validation, its dictionary form and the JSON encoder and decoder.

Files:

- `wrappers.dfy`: `Option`, `Result`, `Outcome`.
- `paths.dfy`: `Path`, and `Join`, which adds no component for the empty string, as `os.path.join` does.
- `config.dfy` (module `Config`): pure functions over the environment.
  - `get_user_data_dir` and `get_user_config_dir` are one function, `UserRoot(env, kind)`, with `kind` either `DataRoot` or `ConfigRoot`.
  - `get_user_app_data_dir` and `get_user_app_config_dir` are one function, `UserAppDir(env, kind, app, suite)`.
- `filesystem.dfy` (module `FileSystem`): the operating-system calls the storage layer makes, written as steps on the tree.
  - `AfterMakeDirs` is `os.makedirs`, `AfterBackup` is the backup copy, `AfterWrite` is `open(..., 'w').write`.
  - `Disk.ListDir` is `os.listdir`. It returns the entries in an unspecified order, each tagged with `os.path.isfile`.
  - `Disk` is a class whose `entries` these calls update in place.
- `storage.dfy` (module `Storage`): the storage handle and the list-file path.
  - `Load` with the `LoadList` method that reads the disk.
  - `Save` with the `SaveList` method that changes the disk step by step: make the directory, back up, validate, open the list file for writing (which empties it), encode and write.
  - The `get_all_list_files` loop (`GetAllListFiles`) and its specification `ListNames`, with lemmas about both.
- `save_properties.dfy` (module `SaveProperties`): what a save does to the file system, and the save-then-load round trip.

Points where the model follows the code closely:

- An environment variable counts as set when it is present, even if its value is empty. This is the `in os.environ` test the code makes. The XDG specification itself falls back to the default when the value is empty.
- `suite_name or ''` treats an absent suite name and an empty one the same: neither adds a path component.
- `listname or 'cheatsheet'` treats an absent list name and an empty one the same.
- `load_list` checks `os.path.isfile` first and only then `os.path.exists`. So a directory at the list path gives `WrongFileType` (the module's `IOError`), and nothing at that path gives `NoListFile`.
- `get_all_list_files` on a missing data directory is a failure (`ListingFailed`), as `os.listdir` raises. It does not return an empty list.

## Model

| member | source | states |
|---|---|---|
| `Config.IsTestEnv` | sjb/common/config.py:16-18 | test mode holds exactly when `SJB_TOOLS_TEST` is set and its value is `"1"` |
| `Config.UserRoot` | sjb/common/config.py:21-60 | resolution fails exactly when there is no applicable test override, no XDG variable and no `HOME`. Without either override, the root ends in `.local/share` (data) or `.config` (config) |
| `Config.UserRootIsFirstAvailable` | sjb/common/config.py:21-60 | the data or config root is the first available of three candidates, in this order: test override, XDG variable, `HOME` default |
| `Config.TestOverrideWins` | sjb/common/config.py:32-33 | in test mode with the test variable set, the root is that variable's value. It is the same in every environment that agrees on the flag and that variable, whatever else is set |
| `Config.XdgOverridesHome` | sjb/common/config.py:34-37 | without an applicable test override (also in test mode without the test variable), a set XDG variable is the root. Setting or removing `HOME` does not change it |
| `Config.HomeDefault` | sjb/common/config.py:36-58 | with no override and `HOME=h`, the data root is `h/.local/share` and the config root is `h/.config` |
| `Config.ResolutionReadsOnlyItsVariables` | sjb/common/config.py:16-94 | two environments that agree on the flag, the test variable, the XDG variable and `HOME` resolve the root and every app directory below it the same way. Nothing else is read and nothing is cached |
| `Config.UserAppDir` | sjb/common/config.py:63-94 | fails exactly when the root fails. Otherwise it is root/suite/app for a non-empty suite and root/app for an absent or empty suite, and it ends in the app name |
| `Storage.NewStorage` | sjb/cs/storage.py:27-28 | an absent or empty list name becomes `cheatsheet`; any other name is kept. The name is never empty |
| `Storage.GetListName` | sjb/cs/storage.py:35-37 | the reported short name is the one the list file is named after: every resolved list file path ends in `<name>.json` |
| `Storage.GetListNameAfterNew` | sjb/cs/storage.py:35-37 | `get_list_name` returns the name the handle was created with, after defaulting |
| `Storage.ListFile` | sjb/cs/storage.py:30-33 | the list file is `<data root>/sjb/cheatsheet/<name>.json`. It fails exactly when the data root fails |
| `Storage.ResolvedListFile` | sjb/cs/storage.py:30-33 | a resolved list file path lies below the root and is named `<name>.json` |
| `Storage.BackupBesideListFile` | sjb/cs/storage.py:66 | the backup `<name>.backup` is in the list file's directory, at the same depth, and is never the list file itself |
| `Storage.Load` | sjb/cs/storage.py:87-99 | `NoEnvironment` exactly when the path does not resolve. `NoListFile` exactly when nothing exists at the path. `WrongFileType` exactly when a directory is there. For a regular file: `Undecodable` exactly when the JSON decoder fails, `Malformed` exactly when `from_dict` fails on the decoded document, `Invalid` exactly when the decoded collection does not validate, and success exactly when all three steps go through, returning that decoded, valid collection |
| `Storage.LoadList` | sjb/cs/storage.py:74-99 | the loop-free imperative load returns what `Load` gives on the current disk. It modifies nothing, so no outcome changes the file system |
| `Storage.EnsureParent` | sjb/cs/storage.py:62-64 | afterwards the list file's directory exists. It fails exactly when that directory is missing and a file blocks its creation. It only adds that directory and its ancestors, and changes no existing entry |
| `Storage.Save` | sjb/cs/storage.py:54-72 | a save fails with `NoEnvironment` exactly when the list file does not resolve, and then leaves the file system as it was |
| `Storage.SaveTo` | sjb/cs/storage.py:62-72 | once the path is resolved, a save either passes or fails with `OsFailure`, `Invalid` or `Unencodable` |
| `Storage.SaveListTo` | sjb/cs/storage.py:62-72 | the steps after the path is resolved: the outcome and new disk contents are those of `SaveTo` on the old contents |
| `Storage.SaveList` | sjb/cs/storage.py:54-72 | the outcome and the new disk contents are those of `Save` on the old contents |
| `FileSystem.AfterBackup` | sjb/cs/storage.py:66 | the assumed behaviour of `backup_file`: nothing happens when the list file is not a regular file. Otherwise its content is copied to the backup path, replacing what was there, and the copy fails exactly when the backup path is a directory or its directory is missing |
| `FileSystem.Disk.ListDir` | sjb/cs/storage.py:43-46 | `os.listdir` with `isfile` on each entry: fails exactly when the path is not a directory. Otherwise it yields every child of the directory once, in some order, each marked with whether it is a regular file |
| `Storage.ListNames` | sjb/cs/storage.py:44-52 | the names are no more than the listing's entries. Every name `n` has `n.json` as a regular-file entry of the listing |
| `Storage.GetAllListFiles` | sjb/cs/storage.py:39-52 | fails only when the environment does not resolve or the directory is not one. On success the result is `ListNames` of some listing of the directory. `n` is in the result exactly when `n.json` is a regular file in the directory, and no name appears twice |
| `Storage.ListNamesExactly` | sjb/cs/storage.py:45-51 | `n` is a name exactly when `(n.json, regular file)` is in the listing |
| `Storage.ListNamesAppend` | sjb/cs/storage.py:45-51 | names keep listing order: the names of a concatenated listing are the concatenation of the names |
| `Storage.ListNamesDistinct` | sjb/cs/storage.py:45-51 | a listing without repeated entries yields no repeated name |
| `Storage.ListNamesSkipsOtherEntries` | sjb/cs/storage.py:45-51 | from `foo.json`, `bar.json`, `notes.txt` and a directory `baz.json`, the names are exactly `foo`, `bar` |
| `SaveProperties.SaveMakesDirectoryFirst` | sjb/cs/storage.py:62-64 | if the missing directory cannot be made, the save fails and changes nothing, so no backup and no write happen. Otherwise the directory exists afterwards, whatever the outcome |
| `SaveProperties.InvalidListIsNotWritten` | sjb/cs/storage.py:62-68 | a collection that does not validate fails the save and leaves the list file as it was. The directory made and the backup taken stay |
| `SaveProperties.SaveWritesSerialization` | sjb/cs/storage.py:68-72 | after a successful save the collection validated, it could be encoded, and the list file holds `dumps(to_dict())` |
| `SaveProperties.FailedEncodingEmptiesListFile` | sjb/cs/storage.py:68-72 | when encoding fails the collection had validated, the list file is left empty because it was opened for writing first, and the backup still holds the previous version |
| `SaveProperties.SaveKeepsPreviousVersion` | sjb/cs/storage.py:66 | after a successful save the backup holds the previous list file's content. When there was no list file, the backup path is left as it was |
| `SaveProperties.SaveChangesOnlyItsFiles` | sjb/cs/storage.py:60-72 | whatever the outcome, the only existing entries that change are the list file and its backup. The only new entries are those two, the list's directory and its ancestors |
| `SaveProperties.SaveSucceedsIff` | sjb/cs/storage.py:60-72 | a save succeeds exactly when all of these hold: the directory exists or can be made, the backup can be taken, the collection validates, the list path is not a directory, and the collection can be encoded |
| `SaveProperties.SaveKeepsWellFormed` | sjb/cs/storage.py:62-72 | a save keeps every entry inside an existing directory |
| `SaveProperties.SaveTwice` | sjb/cs/storage.py:60-72 | after two successful saves, the backup holds the first serialisation and the list file the second |
| `SaveProperties.SaveThenLoad` | sjb/cs/storage.py:54-99 | given a JSON and dictionary round trip for the collection, loading after a successful save yields a collection with the same dictionary form |
| `SaveProperties.WorkListFile` | sjb/cs/storage.py:30-33 | with only `HOME=/u` set, list `work` is `/u/.local/share/sjb/cheatsheet/work.json` |
| `SaveProperties.SaveWorkListTwice` | sjb/cs/storage.py:54-72 | with only `HOME=/u` set and an otherwise empty home, the first save of `work` creates the list file and no backup. The second save copies the first version to `work.backup` and overwrites the list file |

## Left out

- Environment access and the operating-system calls (`os.listdir`, `os.makedirs`, `os.path.isfile`/`isdir`/`exists`, `open`, `write`, `close`) are not modelled as real I/O. The environment is a map parameter, and the calls are steps on the `Tree` value or the `Disk` object.
- The operating system's exceptions collapse into one `OsFailure`. These are `FileExistsError`, `NotADirectoryError`, `IsADirectoryError` and permission errors. The module-level `Exception` for a missing environment is `NoEnvironment`. Messages are not modelled.
- Permissions, symbolic links, and entry kinds other than regular files and directories are not modelled.
- `sjb/common/misc.py` is not part of this model, so the behaviour of `backup_file` is assumed, not derived from its code. `AfterBackup` states the assumption: when the list file is a regular file, its content is copied to `<name>.backup` in the same directory, replacing any older backup. Otherwise nothing happens. A directory at the backup path, or a missing parent directory, is an OS failure. `SaveKeepsPreviousVersion`, `SaveTwice`, `FailedEncodingEmptiesListFile` and `SaveWorkListTwice` hold under this assumption.
- `storage.py` never imports `sjb.common.misc` itself, so line 66 only works when another module has already imported it. Otherwise it raises `AttributeError`. The model assumes the module is loaded.
- JSON encoding and decoding (`json.dumps` with two-space indentation, `json.load`) are abstract functions of the `Codec`. So are `CheatSheet.validate`, `to_dict` and `from_dict`. A decoding failure surfaces as `Undecodable` and a `from_dict` failure as `Malformed`. The round trip is a hypothesis of `SaveThenLoad`, stated as `RoundTrips`, not a proved fact. An encoding failure (`json.dumps` raising, for example `TypeError`) is modelled as `Unencodable`, after the list file has been emptied.
- Save, SaveTo, SaveList: `to_dict` is taken not to raise. A failure of `to_dict` would end the save the same way an encoding failure does, but the model only lets the encoder fail.
- `sjb.cs.display` and the record schema are not part of this model.
- The `is "1"` comparison in `is_test_env` is modelled as string equality. Identity of interned strings is an interpreter detail.
- `os.path.join` details are not modelled: an absolute component resetting the path, and the trailing separator left by an empty last component. An environment value is one path component, or none when empty. So `UserAppDir` with an empty app name has no app component.
- ListFile, Save, Load: a list name is one path component, `<name>.json`, even when it contains a path separator. The code formats the name into a string before joining it, so `Storage("a/b")` uses `<data dir>/a/b.json` and makes the directory `<data dir>/a`. The model uses one component `a/b.json` below the data directory instead.
- Two saves racing on the same file, and a crash between the steps of a save, are not modelled. Each operation runs to completion.
