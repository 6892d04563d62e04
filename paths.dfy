/** The path helpers of paths.py the tiler uses: path assembly, the
    validity check, the numbered temporary folders and the extension filter
    of the directory listing. */
module Paths {
  import opened Wrappers
  import opened Text
  import opened Disk

  // ---------------------------------------------------------------------------
  // FullPath (paths.py:20-21)
  // ---------------------------------------------------------------------------

  /** `folder\file`, followed by `.ext` when an extension is given; leading dots
      of the extension are dropped so that `"tif"` and `".tif"` agree. */
  function FullPath(folder: string, file: string, ext: string): (p: string)
    ensures var stem := folder + [SEP] + file;
      |p| >= |stem| && p[..|stem|] == stem &&
      (ext == [] <==> p == stem) &&
      (ext != [] ==> p[|stem|] == '.' && p[|stem| + 1..] == LStrip(ext, '.')) &&
      (ext != [] ==> p[|stem| + 1..] == [] || p[|stem| + 1] != '.')
  {
    folder + [SEP] + file + (if ext != [] then "." else "") + LStrip(ext, '.')
  }

  /** Leading dots of the extension make no difference. */
  lemma FullPathLeadingDot(folder: string, file: string, ext: string)
    requires ext != []
    ensures FullPath(folder, file, "." + ext) == FullPath(folder, file, ext)
  {
    assert ("." + ext)[1..] == ext;
  }

  // ---------------------------------------------------------------------------
  // CheckPathValidity (paths.py:86-97)
  // ---------------------------------------------------------------------------

  /** The message for the first requested condition the path breaks, or `None`.
      `Some(p)` is a path, `None` is Python's `None` path; existence is
      membership in `entries`; `head(p)` stands for `os.path.split(p)[0]`. */
  function CheckPathValidity(path: Option<string>, forbidNone: bool, mustExist: bool,
                             mustNotExist: bool, mustFolderExist: bool,
                             entries: Entries, head: string -> string): (msg: Option<string>)
    // The path passes exactly when it meets every condition asked for.
    ensures msg.None? <==>
      (path.None? ==> !forbidNone) &&
      (path.Some? && path.value in entries ==> !mustNotExist) &&
      (path.Some? && path.value !in entries ==>
        !mustExist && (mustFolderExist ==> head(path.value) in entries))
    // Which message is returned, with `mustExist` checked before the folder.
    ensures path.None? && msg.Some? ==> msg.value == "Path not set"
    ensures path.Some? && path.value in entries && msg.Some? ==>
      msg.value == "File exists: " + path.value
    ensures path.Some? && path.value !in entries && mustExist ==>
      msg == Some("File not found: " + path.value)
    ensures path.Some? && path.value !in entries && !mustExist && msg.Some? ==>
      msg.value == "Folder does not exist: " + head(path.value)
  {
    match path
    case None => if forbidNone then Some("Path not set") else None
    case Some(p) =>
      if p in entries then
        if mustNotExist then Some("File exists: " + p) else None
      else if mustExist then Some("File not found: " + p)
      else if mustFolderExist && head(p) !in entries then Some("Folder does not exist: " + head(p))
      else None
  }

  // ---------------------------------------------------------------------------
  // TempFolder and TempName (paths.py:104-116)
  // ---------------------------------------------------------------------------

  /** The `i`-th candidate temporary folder, `TEMP_DIR\i`. */
  function TempPath(root: string, i: nat): string {
    root + [SEP] + NatToString(i)
  }

  lemma TempPathInjective(root: string, i: nat, j: nat)
    requires TempPath(root, i) == TempPath(root, j)
    ensures i == j
  {
    var k := |root| + 1;
    assert NatToString(i) == TempPath(root, i)[k..] == TempPath(root, j)[k..] == NatToString(j);
    NatToStringInjective(i, j);
  }

  /** The first `n` candidate folders. */
  ghost function TempPaths(root: string, n: nat): (s: set<string>)
    ensures forall j :: 0 <= j < n ==> TempPath(root, j) in s
    ensures forall p :: p in s ==> exists j :: 0 <= j < n && p == TempPath(root, j)
  {
    if n == 0 then {} else TempPaths(root, n - 1) + {TempPath(root, n - 1)}
  }

  lemma {:induction false} TempPathsCount(root: string, n: nat)
    ensures |TempPaths(root, n)| == n
  {
    if n > 0 {
      TempPathsCount(root, n - 1);
      if TempPath(root, n - 1) in TempPaths(root, n - 1) {
        var j :| 0 <= j < n - 1 && TempPath(root, n - 1) == TempPath(root, j);
        TempPathInjective(root, n - 1, j);
      }
    }
  }

  /** A finite set of paths holds at most as many candidates as it has members,
      which is why the search for a free folder stops. */
  lemma TempPathsBound(keys: set<string>, root: string, n: nat)
    requires forall j :: 0 <= j < n ==> TempPath(root, j) in keys
    ensures n <= |keys|
  {
    TempPathsCount(root, n);
    SubsetCard(TempPaths(root, n), keys);
  }

  lemma {:induction false} SubsetCard<T>(a: set<T>, b: set<T>)
    requires a <= b
    ensures |a| <= |b|
  {
    if a != {} {
      var x :| x in a;
      SubsetCard(a - {x}, b - {x});
    }
  }

  /** The smallest index at or above `i` whose candidate folder does not exist. */
  function FirstFreeFrom(keys: set<string>, root: string, i: nat): (k: nat)
    requires forall j :: 0 <= j < i ==> TempPath(root, j) in keys
    ensures i <= k && TempPath(root, k) !in keys
    ensures forall j :: 0 <= j < k ==> TempPath(root, j) in keys
    decreases |keys| - i
  {
    if TempPath(root, i) in keys then
      TempPathsBound(keys, root, i + 1);
      FirstFreeFrom(keys, root, i + 1)
    else i
  }

  /** The index `TempFolder` settles on: the smallest whose folder is missing. */
  function FirstFree(keys: set<string>, root: string): nat {
    FirstFreeFrom(keys, root, 0)
  }

  /** paths.py:104-111: tries `TEMP_DIR\0`, `TEMP_DIR\1`, ... and creates the
      first one that does not exist. */
  method TempFolder(fs: FileSystem) returns (folder: string)
    modifies fs
    ensures folder == TempPath(fs.tempRoot, FirstFree(old(fs.entries).Keys, fs.tempRoot))
    ensures folder !in old(fs.entries)
    ensures fs.entries == old(fs.entries)[folder := Folder]
  {
    var i := 0;
    folder := TempPath(fs.tempRoot, i);
    while folder in fs.entries
      invariant folder == TempPath(fs.tempRoot, i)
      invariant forall j :: 0 <= j < i ==> TempPath(fs.tempRoot, j) in fs.entries
      invariant fs.entries == old(fs.entries)
      decreases |fs.entries| - i
    {
      TempPathsBound(fs.entries.Keys, fs.tempRoot, i + 1);
      i := i + 1;
      folder := TempPath(fs.tempRoot, i);
    }
    FreeIndexIsFirst(fs.entries.Keys, fs.tempRoot, i);
    fs.entries := fs.entries[folder := Folder];
  }

  /** Any index whose folder is missing while all smaller ones exist is the one
      `FirstFree` names. */
  lemma FreeIndexIsFirst(keys: set<string>, root: string, i: nat)
    requires TempPath(root, i) !in keys
    requires forall j :: 0 <= j < i ==> TempPath(root, j) in keys
    ensures FirstFree(keys, root) == i
  {
  }

  /** paths.py:114-116: a path inside a fresh temporary folder. The file itself
      is not created. */
  method TempName(fs: FileSystem, name: string, ext: string) returns (path: string)
    modifies fs
    ensures var folder := TempPath(fs.tempRoot, FirstFree(old(fs.entries).Keys, fs.tempRoot));
      path == FullPath(folder, name, ext) && fs.entries == old(fs.entries)[folder := Folder]
  {
    var folder := TempFolder(fs);
    path := FullPath(folder, name, ext);
  }

  // ---------------------------------------------------------------------------
  // The extension filter of Files (paths.py:60-83)
  // ---------------------------------------------------------------------------

  /** One folder of an `os.walk` listing: the folder and the names of its files. */
  datatype WalkStep = WalkStep(corner: string, files: seq<string>)

  /** paths.py:67: lower case, exactly one leading dot. */
  function NormaliseExt(ext: string): (e: string)
    ensures |e| >= 1 && e[0] == '.' && (|e| == 1 || e[1] != '.')
    ensures IsLower(e)
  {
    var lowered := Lower(ext);
    LowerIsLower(ext);
    LStripLower(lowered, '.');
    ConsLower('.', LStrip(lowered, '.'));
    "." + LStrip(lowered, '.')
  }

  /** An extension without a leading dot gains one and is otherwise only
      lower-cased; leading dots make no difference; normalising twice is
      normalising once. */
  lemma NormaliseExtKeeps(ext: string)
    ensures ext != [] && ext[0] != '.' ==> NormaliseExt(ext) == "." + Lower(ext)
    ensures NormaliseExt("." + ext) == NormaliseExt(ext)
    ensures NormaliseExt(NormaliseExt(ext)) == NormaliseExt(ext)
  {
    var lowered := Lower(ext);
    if ext != [] && ext[0] != '.' {
      assert lowered[0] == LowerChar(ext[0]) != '.';
    }
    assert Lower("." + ext) == "." + lowered;
    var e := NormaliseExt(ext);
    var r := e[1..];
    assert e == "." + r;
    assert Lower(e) == e;
    assert LStrip(e, '.') == LStrip(r, '.') == r;
  }

  function NormaliseAll(exts: seq<string>): (r: seq<string>)
    ensures |r| == |exts| && forall i :: 0 <= i < |exts| ==> r[i] == NormaliseExt(exts[i])
  {
    seq(|exts|, i requires 0 <= i < |exts| => NormaliseExt(exts[i]))
  }

  /** paths.py:76-78: with no extension list every file is kept; otherwise a
      file is kept when its lower-cased name ends with one of them. */
  predicate Kept(file: string, exts: Option<seq<string>>) {
    exts.None? || exists i :: 0 <= i < |exts.value| && EndsWith(Lower(file), exts.value[i])
  }

  /** The kept files of one folder, as `corner\file`, in listing order. */
  function InFolder(corner: string, files: seq<string>, exts: Option<seq<string>>): seq<string> {
    if files == [] then []
    else
      var last := files[|files| - 1];
      InFolder(corner, files[..|files| - 1], exts) + (if Kept(last, exts) then [corner + [SEP] + last] else [])
  }

  /** The kept files of a whole listing, folder after folder. */
  function Listed(walk: seq<WalkStep>, exts: Option<seq<string>>): seq<string> {
    if walk == [] then []
    else
      var last := walk[|walk| - 1];
      Listed(walk[..|walk| - 1], exts) + InFolder(last.corner, last.files, exts)
  }

  lemma {:induction false} InFolderMembers(corner: string, files: seq<string>, exts: Option<seq<string>>, p: string)
    ensures p in InFolder(corner, files, exts) <==>
      exists m :: 0 <= m < |files| && Kept(files[m], exts) && p == corner + [SEP] + files[m]
  {
    if files != [] {
      var init := files[..|files| - 1];
      InFolderMembers(corner, init, exts, p);
      assert forall m :: 0 <= m < |init| ==> init[m] == files[m];
    }
  }

  /** A path is listed exactly when it is `corner\file` for a kept file of the walk. */
  lemma {:induction false} ListedMembers(walk: seq<WalkStep>, exts: Option<seq<string>>, p: string)
    ensures p in Listed(walk, exts) <==>
      exists k, m :: 0 <= k < |walk| && 0 <= m < |walk[k].files| &&
        Kept(walk[k].files[m], exts) && p == walk[k].corner + [SEP] + walk[k].files[m]
  {
    if walk != [] {
      var init := walk[..|walk| - 1];
      var last := walk[|walk| - 1];
      ListedMembers(init, exts, p);
      InFolderMembers(last.corner, last.files, exts, p);
      assert forall k :: 0 <= k < |init| ==> init[k] == walk[k];
    }
  }

  /** paths.py:60-83 with `target_path` and `miss_path` unset; `walk` is what
      `os.walk(folder)` yields, and `extensions` is `None` or the list (a single
      extension is a list of one). */
  method Files(walk: seq<WalkStep>, extensions: Option<seq<string>>) returns (files: seq<string>)
    ensures var exts := if extensions.None? then None else Some(NormaliseAll(extensions.value));
      files == Listed(walk, exts)
  {
    var exts: Option<seq<string>> := None;
    if extensions.Some? {
      exts := Some(NormaliseAll(extensions.value));
    }
    files := [];
    for k := 0 to |walk|
      invariant files == Listed(walk[..k], exts)
    {
      var found := FolderFiles(walk[k].corner, walk[k].files, exts);
      files := files + found;
      assert walk[..k + 1][..k] == walk[..k];
    }
    assert walk[..|walk|] == walk;
  }

  /** paths.py:72-82: the kept files of one folder of the walk. */
  method FolderFiles(corner: string, names: seq<string>, exts: Option<seq<string>>) returns (files: seq<string>)
    ensures files == InFolder(corner, names, exts)
  {
    files := [];
    for m := 0 to |names|
      invariant files == InFolder(corner, names[..m], exts)
    {
      var keep := true;
      if exts.Some? {
        keep := HasExtension(names[m], exts.value);
      }
      if keep {
        files := files + [corner + [SEP] + names[m]];
      }
      assert names[..m + 1][..m] == names[..m];
    }
    assert names[..|names|] == names;
  }

  /** paths.py:77: the negation of `all(not file.lower().endswith(ext) ...)`. */
  method HasExtension(file: string, exts: seq<string>) returns (keep: bool)
    ensures keep <==> Kept(file, Some(exts))
  {
    keep := false;
    for e := 0 to |exts|
      invariant keep <==> exists i :: 0 <= i < e && EndsWith(Lower(file), exts[i])
    {
      if EndsWith(Lower(file), exts[e]) {
        keep := true;
      }
    }
  }
}
