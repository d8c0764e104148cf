/**
 * `LanguageProfileReader`: bulk loading of language profiles from class-path
 * resources and from a folder.
 *
 * The class loader, the file system and `java.util.Locale` are outside the
 * model and come in as parameters: `resolve` maps a resource path to the
 * profile stored there (None when `getResourceAsStream` returns null),
 * `toTag` is `Locale.toLanguageTag`, `acceptsTag` says whether
 * `Locale.forLanguageTag` accepts a name, and `load` reads one profile file.
 */
module ProfileReader {
  import opened Wrappers
  import opened LanguageProfiles

  /** The class-path directory holding the built-in profiles. */
  const ProfilesDir: string := "languages"

  /** The `IOException`s the reader throws. */
  datatype ReadError =
    | NoLanguageFile(fileName: string, path: string)
    | NoSuchFolder(folder: string)
    | FolderNotReadable(folder: string)
    | FailedReadingFolder(folder: string)
    | UnreadableProfile(fileName: string)

  /** A directory entry as `File.listFiles` reports it. */
  datatype DirEntry = DirEntry(name: string, isFile: bool)

  /** A folder on disk: its path, existence, readability and listing (None when `listFiles` returns null). */
  datatype Folder = Folder(path: string, present: bool, canRead: bool, listing: Option<seq<DirEntry>>)

  // ---------------------------------------------------------------------------
  // Class-path resources

  /**
   * `makePathForClassLoader`: the directory, one '/', then the file name, with
   * no slash added in front of the directory.
   */
  function MakePathForClassLoader(dir: string, fileName: string): (path: string)
    ensures |path| == |dir| + 1 + |fileName|
    ensures path[..|dir|] == dir && path[|dir|] == '/' && path[|dir| + 1..] == fileName
  {
    dir + ['/'] + fileName
  }

  /** Within one directory, distinct file names give distinct resource paths. */
  lemma PathDeterminesName(dir: string, a: string, b: string)
    requires MakePathForClassLoader(dir, a) == MakePathForClassLoader(dir, b)
    ensures a == b
  {
    assert a == MakePathForClassLoader(dir, a)[|dir| + 1..];
  }

  /** The resource path for a built-in profile file name: under "languages", never with a leading slash. */
  lemma BuiltInPathShape(fileName: string)
    ensures var path := MakePathForClassLoader(ProfilesDir, fileName);
            && path[..10] == "languages/"
            && path[0] != '/'
            && path[10..] == fileName
  {
  }

  /**
   * `read(classLoader, profileDirectory, profileFileNames)`: loads every named
   * profile in order, or fails on the first name with no resource, naming it
   * and its path; no partial list is returned.
   */
  function Read(resolve: string -> Option<LanguageProfile>, dir: string, names: seq<string>)
    : (r: Result<seq<LanguageProfile>, ReadError>)
    ensures r.Success? <==>
              forall k | 0 <= k < |names| :: resolve(MakePathForClassLoader(dir, names[k])).Some?
    ensures r.Success? ==>
              && |r.value| == |names|
              && forall k | 0 <= k < |names| :: resolve(MakePathForClassLoader(dir, names[k])) == Some(r.value[k])
    ensures r.Failure? ==>
              exists k | 0 <= k < |names| ::
                && resolve(MakePathForClassLoader(dir, names[k])).None?
                && (forall k' | 0 <= k' < k :: resolve(MakePathForClassLoader(dir, names[k'])).Some?)
                && r.error == NoLanguageFile(names[k], MakePathForClassLoader(dir, names[k]))
    decreases |names|
  {
    if |names| == 0 then Success([])
    else
      var path := MakePathForClassLoader(dir, names[0]);
      match resolve(path)
      case None => Failure(NoLanguageFile(names[0], path))
      case Some(profile) =>
        var rest := Read(resolve, dir, names[1..]);
        if rest.Failure? then
          assert exists k | 1 <= k < |names| ::
                   && resolve(MakePathForClassLoader(dir, names[k])).None?
                   && (forall k' | 0 <= k' < k :: resolve(MakePathForClassLoader(dir, names[k'])).Some?)
                   && rest.error == NoLanguageFile(names[k], MakePathForClassLoader(dir, names[k])) by {
            var k :| 0 <= k < |names[1..]|
                     && resolve(MakePathForClassLoader(dir, names[1..][k])).None?
                     && (forall k' | 0 <= k' < k :: resolve(MakePathForClassLoader(dir, names[1..][k'])).Some?)
                     && rest.error == NoLanguageFile(names[1..][k], MakePathForClassLoader(dir, names[1..][k]));
            forall k' | 0 <= k' < k + 1 ensures resolve(MakePathForClassLoader(dir, names[k'])).Some? {
              if k' > 0 { assert names[k'] == names[1..][k' - 1]; }
            }
          }
          rest
        else
          assert forall k | 1 <= k < |names| :: names[k] == names[1..][k - 1];
          Success([profile] + rest.value)
  }

  /** `makeProfileFileName`: a built-in profile's file name is its locale's language tag. */
  function ProfileFileNames(toTag: Locale -> string, locales: seq<Locale>): (names: seq<string>)
    ensures |names| == |locales|
    ensures forall k | 0 <= k < |locales| :: names[k] == toTag(locales[k])
  {
    seq(|locales|, k requires 0 <= k < |locales| => toTag(locales[k]))
  }

  /** File names follow the locales: the names for `a + b` are the names for `a` followed by those for `b`. */
  lemma ProfileFileNamesAppend(toTag: Locale -> string, a: seq<Locale>, b: seq<Locale>)
    ensures ProfileFileNames(toTag, a + b) == ProfileFileNames(toTag, a) + ProfileFileNames(toTag, b)
  {
    var ab := ProfileFileNames(toTag, a + b);
    forall k | 0 <= k < |a| + |b|
      ensures ab[k] == (ProfileFileNames(toTag, a) + ProfileFileNames(toTag, b))[k]
    {
      if k >= |a| { assert (a + b)[k] == b[k - |a|]; }
    }
  }

  /** `readBuiltIn(locale)`: one built-in profile, looked up under "languages" by its language tag. */
  function ReadBuiltInOne(resolve: string -> Option<LanguageProfile>, toTag: Locale -> string, locale: Locale)
    : (r: Result<LanguageProfile, ReadError>)
    ensures var path := "languages/" + toTag(locale);
            && (r.Success? <==> resolve(path).Some?)
            && (r.Success? ==> resolve(path) == Some(r.value))
            && (r.Failure? ==> r.error == NoLanguageFile(toTag(locale), path))
  {
    var fileName := toTag(locale);
    var path := MakePathForClassLoader(ProfilesDir, fileName);
    assert path == "languages/" + fileName;
    match resolve(path)
    case None => Failure(NoLanguageFile(fileName, path))
    case Some(profile) => Success(profile)
  }

  /**
   * `readBuiltIn(languages)`: the built-in profiles for the given locales, in the
   * same order, each under "languages/" followed by its language tag.
   */
  function ReadBuiltIn(resolve: string -> Option<LanguageProfile>, toTag: Locale -> string, locales: seq<Locale>)
    : (r: Result<seq<LanguageProfile>, ReadError>)
    ensures r.Success? <==> forall k | 0 <= k < |locales| :: resolve("languages/" + toTag(locales[k])).Some?
    ensures r.Success? ==>
              && |r.value| == |locales|
              && forall k | 0 <= k < |locales| :: resolve("languages/" + toTag(locales[k])) == Some(r.value[k])
    ensures r.Failure? ==>
              exists k | 0 <= k < |locales| ::
                && resolve("languages/" + toTag(locales[k])).None?
                && (forall k' | 0 <= k' < k :: resolve("languages/" + toTag(locales[k'])).Some?)
                && r.error == NoLanguageFile(toTag(locales[k]), "languages/" + toTag(locales[k]))
  {
    var names := ProfileFileNames(toTag, locales);
    assert forall k | 0 <= k < |locales| :: MakePathForClassLoader(ProfilesDir, names[k]) == "languages/" + toTag(locales[k]);
    Read(resolve, ProfilesDir, names)
  }

  /** `readAllBuiltIn`: `readBuiltIn(locale)` for each built-in locale in turn, stopping at the first failure. */
  function ReadAllBuiltIn(resolve: string -> Option<LanguageProfile>, toTag: Locale -> string, builtIns: seq<Locale>)
    : (r: Result<seq<LanguageProfile>, ReadError>)
    decreases |builtIns|
  {
    if |builtIns| == 0 then Success([])
    else
      match ReadBuiltInOne(resolve, toTag, builtIns[0])
      case Failure(e) => Failure(e)
      case Success(profile) =>
        match ReadAllBuiltIn(resolve, toTag, builtIns[1..])
        case Failure(e) => Failure(e)
        case Success(rest) => Success([profile] + rest)
  }

  /**
   * Loading the locales one at a time gives the same outcome as the bulk
   * `readBuiltIn`, including the error reported when one is missing.
   */
  lemma {:induction false} ReadAllBuiltInAgrees(resolve: string -> Option<LanguageProfile>, toTag: Locale -> string, builtIns: seq<Locale>)
    ensures ReadAllBuiltIn(resolve, toTag, builtIns) == ReadBuiltIn(resolve, toTag, builtIns)
    decreases |builtIns|
  {
    var names := ProfileFileNames(toTag, builtIns);
    if |builtIns| > 0 {
      ReadAllBuiltInAgrees(resolve, toTag, builtIns[1..]);
      ProfileFileNamesAppend(toTag, [builtIns[0]], builtIns[1..]);
      assert [builtIns[0]] + builtIns[1..] == builtIns;
    }
  }

  // ---------------------------------------------------------------------------
  // Folders on disk

  /** `looksLikeLanguageProfileName`: no '.' in the name, and `Locale.forLanguageTag` accepts it. */
  predicate LooksLikeLanguageProfileName(acceptsTag: string -> bool, fileName: string) {
    '.' !in fileName && acceptsTag(fileName)
  }

  /** `looksLikeLanguageProfileFile`: a regular file whose name looks like a profile name. */
  predicate LooksLikeLanguageProfileFile(acceptsTag: string -> bool, entry: DirEntry) {
    entry.isFile && LooksLikeLanguageProfileName(acceptsTag, entry.name)
  }

  /** A name containing a '.' is never taken for a profile, whatever the tag parser says. */
  lemma DottedNamesRejected(acceptsTag: string -> bool, fileName: string)
    requires '.' in fileName
    ensures !LooksLikeLanguageProfileName(acceptsTag, fileName)
    ensures forall isFile: bool :: !LooksLikeLanguageProfileFile(acceptsTag, DirEntry(fileName, isFile))
  {
  }

  /** `listFiles(filter)`: the listed entries that look like profile files, in listing order. */
  function ListProfileFiles(acceptsTag: string -> bool, entries: seq<DirEntry>): seq<DirEntry>
    decreases |entries|
  {
    if |entries| == 0 then []
    else
      var rest := ListProfileFiles(acceptsTag, entries[1..]);
      if LooksLikeLanguageProfileFile(acceptsTag, entries[0]) then [entries[0]] + rest else rest
  }

  /** The filtered listing holds exactly the listed entries that look like profile files. */
  lemma {:induction false} ListProfileFilesMembers(acceptsTag: string -> bool, entries: seq<DirEntry>)
    ensures forall e :: e in ListProfileFiles(acceptsTag, entries) <==>
                          e in entries && LooksLikeLanguageProfileFile(acceptsTag, e)
    decreases |entries|
  {
    if |entries| > 0 {
      ListProfileFilesMembers(acceptsTag, entries[1..]);
      assert forall e :: e in entries <==> e == entries[0] || e in entries[1..] by {
        assert entries == [entries[0]] + entries[1..];
      }
    }
  }

  /** The filter keeps listing order: filtering a concatenation concatenates the filtered parts. */
  lemma {:induction false} ListProfileFilesAppend(acceptsTag: string -> bool, a: seq<DirEntry>, b: seq<DirEntry>)
    ensures ListProfileFiles(acceptsTag, a + b) == ListProfileFiles(acceptsTag, a) + ListProfileFiles(acceptsTag, b)
    decreases |a|
  {
    if |a| == 0 {
      assert a + b == b;
    } else {
      ListProfileFilesAppend(acceptsTag, a[1..], b);
      var ab := a + b;
      assert ab[0] == a[0] && ab[1..] == a[1..] + b;
      var head: seq<DirEntry> := if LooksLikeLanguageProfileFile(acceptsTag, a[0]) then [a[0]] else [];
      assert ListProfileFiles(acceptsTag, ab) == head + ListProfileFiles(acceptsTag, ab[1..]);
      assert ListProfileFiles(acceptsTag, a) == head + ListProfileFiles(acceptsTag, a[1..]);
      assert head + (ListProfileFiles(acceptsTag, a[1..]) + ListProfileFiles(acceptsTag, b))
          == (head + ListProfileFiles(acceptsTag, a[1..])) + ListProfileFiles(acceptsTag, b);
    }
  }

  /**
   * The loop over the filtered listing: re-checks each entry, loads it, and
   * fails on the first file that cannot be read.
   */
  function ReadFiles(acceptsTag: string -> bool, load: DirEntry -> Option<LanguageProfile>, files: seq<DirEntry>)
    : (r: Result<seq<LanguageProfile>, ReadError>)
    decreases |files|
  {
    if |files| == 0 then Success([])
    else if !LooksLikeLanguageProfileFile(acceptsTag, files[0]) then ReadFiles(acceptsTag, load, files[1..])
    else
      match load(files[0])
      case None => Failure(UnreadableProfile(files[0].name))
      case Some(profile) =>
        match ReadFiles(acceptsTag, load, files[1..])
        case Failure(e) => Failure(e)
        case Success(rest) => Success([profile] + rest)
  }

  /** `files[k]` is the first of `files` that cannot be loaded. */
  ghost predicate FirstUnreadable(load: DirEntry -> Option<LanguageProfile>, files: seq<DirEntry>, k: int) {
    && 0 <= k < |files|
    && load(files[k]).None?
    && (forall k' | 0 <= k' < k :: load(files[k']).Some?)
  }

  /** On entries that all pass the filter, `ReadFiles` loads each of them, in order. */
  lemma {:induction false} ReadFilesLoadsEach(acceptsTag: string -> bool, load: DirEntry -> Option<LanguageProfile>, files: seq<DirEntry>)
    requires forall k | 0 <= k < |files| :: LooksLikeLanguageProfileFile(acceptsTag, files[k])
    ensures var r := ReadFiles(acceptsTag, load, files);
            && (r.Success? <==> forall k | 0 <= k < |files| :: load(files[k]).Some?)
            && (r.Success? ==> |r.value| == |files| && forall k | 0 <= k < |files| :: load(files[k]) == Some(r.value[k]))
            && (r.Failure? ==> exists k | 0 <= k < |files| :: FirstUnreadable(load, files, k) && r.error == UnreadableProfile(files[k].name))
    decreases |files|
  {
    if |files| > 0 {
      ReadFilesLoadsEach(acceptsTag, load, files[1..]);
      assert forall k | 1 <= k < |files| :: files[k] == files[1..][k - 1];
      var r := ReadFiles(acceptsTag, load, files);
      if r.Failure? {
        if load(files[0]).None? {
          assert FirstUnreadable(load, files, 0);
        } else {
          var k :| 0 <= k < |files[1..]| && FirstUnreadable(load, files[1..], k) && r.error == UnreadableProfile(files[1..][k].name);
          assert FirstUnreadable(load, files, k + 1);
        }
      }
    }
  }

  /**
   * `readAll(folder)`: fails when the folder is missing, unreadable or cannot
   * be listed; otherwise loads one profile per listed regular file whose name
   * looks like a profile name, in listing order.
   */
  function ReadAll(folder: Folder, acceptsTag: string -> bool, load: DirEntry -> Option<LanguageProfile>)
    : (r: Result<seq<LanguageProfile>, ReadError>)
    ensures !folder.present ==> r == Failure(NoSuchFolder(folder.path))
    ensures folder.present && !folder.canRead ==> r == Failure(FolderNotReadable(folder.path))
    ensures folder.present && folder.canRead && folder.listing.None? ==> r == Failure(FailedReadingFolder(folder.path))
    ensures r.Success? ==>
              && folder.present && folder.canRead && folder.listing.Some?
              && var files := ListProfileFiles(acceptsTag, folder.listing.value);
                 && |r.value| == |files|
                 && forall k | 0 <= k < |files| :: load(files[k]) == Some(r.value[k])
    ensures folder.present && folder.canRead && folder.listing.Some? ==>
              (r.Success? <==>
                 forall e | e in folder.listing.value && LooksLikeLanguageProfileFile(acceptsTag, e) :: load(e).Some?)
    ensures folder.present && folder.canRead && folder.listing.Some? && r.Failure? ==>
              exists k ::
                && FirstUnreadable(load, ListProfileFiles(acceptsTag, folder.listing.value), k)
                && r.error == UnreadableProfile(ListProfileFiles(acceptsTag, folder.listing.value)[k].name)
  {
    if !folder.present then Failure(NoSuchFolder(folder.path))
    else if !folder.canRead then Failure(FolderNotReadable(folder.path))
    else if folder.listing.None? then Failure(FailedReadingFolder(folder.path))
    else
      var files := ListProfileFiles(acceptsTag, folder.listing.value);
      ListProfileFilesMembers(acceptsTag, folder.listing.value);
      assert forall k | 0 <= k < |files| :: LooksLikeLanguageProfileFile(acceptsTag, files[k]) by {
        forall k | 0 <= k < |files| ensures LooksLikeLanguageProfileFile(acceptsTag, files[k]) {
          assert files[k] in files;
        }
      }
      ReadFilesLoadsEach(acceptsTag, load, files);
      var r := ReadFiles(acceptsTag, load, files);
      assert r.Success? <==>
               forall e | e in folder.listing.value && LooksLikeLanguageProfileFile(acceptsTag, e) :: load(e).Some? by {
        if r.Success? {
          forall e | e in folder.listing.value && LooksLikeLanguageProfileFile(acceptsTag, e) ensures load(e).Some? {
            assert e in files;
            var k :| 0 <= k < |files| && files[k] == e;
          }
        } else {
          var k :| 0 <= k < |files| && FirstUnreadable(load, files, k);
          assert files[k] in files;
        }
      }
      r
  }

  /**
   * Every profile `readAll` returns was loaded from a listed regular file whose
   * name contains no '.'.
   */
  lemma ReadAllSkipsDottedNames(folder: Folder, acceptsTag: string -> bool, load: DirEntry -> Option<LanguageProfile>)
    ensures var r := ReadAll(folder, acceptsTag, load);
            r.Success? ==>
              forall k | 0 <= k < |r.value| ::
                exists e | e in folder.listing.value :: e.isFile && '.' !in e.name && load(e) == Some(r.value[k])
  {
    var r := ReadAll(folder, acceptsTag, load);
    if r.Success? {
      var files := ListProfileFiles(acceptsTag, folder.listing.value);
      ListProfileFilesMembers(acceptsTag, folder.listing.value);
      forall k | 0 <= k < |r.value|
        ensures exists e | e in folder.listing.value :: e.isFile && '.' !in e.name && load(e) == Some(r.value[k])
      {
        assert files[k] in files;
      }
    }
  }
}
