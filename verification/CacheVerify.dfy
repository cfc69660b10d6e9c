/** Checking a cached model against its manifest: src/sek8s/sek8s/system_manager/cache/util.py, and how
    src/sek8s/sek8s/system_manager/cache/manager.py reads the outcome. */
module CacheVerify {
  import opened Text
  import opened OrderedDict

  // ---------------------------------------------------------------------------
  // Manifest and disk
  // ---------------------------------------------------------------------------

  datatype Item = Item(path: Option<string>, isLfs: bool, sha256: Option<string>, blobId: Option<string>,
                       size: Option<int>)

  datatype Expected = Expected(hash: Option<string>, size: Option<int>)

  /** A file or symbolic link below the snapshot directory: the link's target, and the size of what the
      path resolves to, if that exists. */
  datatype Local = Local(target: Option<string>, size: Option<nat>)

  predicate Hidden(name: string) {
    name != "" && name[0] == '_'
  }

  predicate AnyHidden(parts: seq<string>) {
    exists i :: 0 <= i < |parts| && Hidden(parts[i])
  }

  predicate HiddenPart(path: string) {
    AnyHidden(Split(path, '/'))
  }

  function ExpectedOf(item: Item): Expected {
    Expected(if item.isLfs then item.sha256 else item.blobId, item.size)
  }

  predicate Retained(item: Item) {
    item.path.Some? && !Hidden(item.path.value)
  }

  /** The dictionary of remote files; none when an item has no path. */
  function RemoteFiles(items: seq<Item>): Option<Dict<Expected>> {
    if items == [] then Some(Dict([], map[]))
    else
      var d, item := RemoteFiles(items[..|items| - 1]), items[|items| - 1];
      if d.None? || item.path.None? then None
      else if Hidden(item.path.value) then d
      else Some(Put(d.value, item.path.value, ExpectedOf(item)))
  }

  /** The last non-empty component of a link target other than ".". */
  function LastPart(parts: seq<string>): string {
    if parts == [] then ""
    else
      var last := parts[|parts| - 1];
      if last == "" || last == "." then LastPart(parts[..|parts| - 1]) else last
  }

  function SymlinkHash(l: Local): Option<string> {
    if l.target.Some? && |LastPart(Split(l.target.value, '/'))| == 64 then Some(LastPart(Split(l.target.value, '/')))
    else None
  }

  // ---------------------------------------------------------------------------
  // What passes
  // ---------------------------------------------------------------------------

  predicate Checkable(e: Expected) {
    e.hash.Some? && |e.hash.value| != 40
  }

  /** The file is listed and, if checkable, of the right size and linked to the right blob. */
  predicate FileOk(disk: map<string, Local>, path: string, e: Expected) {
    && path in disk && !HiddenPart(path)
    && (Checkable(e) ==>
          && (e.size.Some? ==> disk[path].size.Some? && disk[path].size.value == e.size.value)
          && (SymlinkHash(disk[path]).Some? ==> SymlinkHash(disk[path]) == e.hash))
  }

  /** The item is the last of its path, so the one that counts. */
  ghost predicate Decides(items: seq<Item>, i: nat) {
    && i < |items| && Retained(items[i])
    && forall j :: i < j < |items| ==> items[j].path != items[i].path
  }

  ghost predicate AllOk(items: seq<Item>, disk: map<string, Local>) {
    && (forall i :: 0 <= i < |items| ==> items[i].path.Some?)
    && (forall i: nat :: Decides(items, i) ==> FileOk(disk, items[i].path.value, ExpectedOf(items[i])))
  }

  /** The distinct paths of the manifest files that are not hidden. */
  ghost function RetainedPaths(items: seq<Item>): set<string> {
    set i | 0 <= i < |items| && Retained(items[i]) :: items[i].path.value
  }

  lemma {:induction false} RemoteNone(items: seq<Item>)
    ensures RemoteFiles(items).None? <==> exists i :: 0 <= i < |items| && items[i].path.None?
  {
    if items != [] {
      var t := items[..|items| - 1];
      RemoteNone(t);
      assert forall i :: 0 <= i < |t| ==> t[i] == items[i];
      assert items[|t|] == items[|items| - 1];
    }
  }

  lemma {:induction false} RemoteValid(items: seq<Item>)
    requires RemoteFiles(items).Some?
    ensures RemoteFiles(items).value.Valid()
  {
    if items != [] {
      RemoteValid(items[..|items| - 1]);
    }
  }

  lemma RetainedPathsAppend(items: seq<Item>, item: Item)
    ensures RetainedPaths(items + [item]) == RetainedPaths(items) + if Retained(item) then {item.path.value} else {}
  {
    var all := items + [item];
    assert all[|items|] == item;
    assert forall i :: 0 <= i < |items| ==> all[i] == items[i];
    forall p | p in RetainedPaths(items) ensures p in RetainedPaths(all) {
      var i :| 0 <= i < |items| && Retained(items[i]) && items[i].path.value == p;
      assert Retained(all[i]) && all[i].path.value == p;
    }
  }

  lemma {:induction false} RemoteKeys(items: seq<Item>)
    requires RemoteFiles(items).Some?
    ensures RemoteFiles(items).value.at.Keys == RetainedPaths(items)
  {
    if items != [] {
      var t, last := items[..|items| - 1], items[|items| - 1];
      RemoteKeys(t);
      RetainedPathsAppend(t, last);
      assert t + [last] == items;
    }
  }

  lemma {:induction false} RemoteDecided(items: seq<Item>, i: nat)
    requires RemoteFiles(items).Some? && Decides(items, i)
    ensures items[i].path.value in RemoteFiles(items).value.at
    ensures RemoteFiles(items).value.at[items[i].path.value] == ExpectedOf(items[i])
  {
    var t := items[..|items| - 1];
    if i < |t| {
      assert forall j :: 0 <= j < |t| ==> t[j] == items[j];
      RemoteDecided(t, i);
      assert items[|t|].path != items[i].path;
    }
  }

  lemma {:induction false} LastOf(items: seq<Item>, p: string) returns (i: nat)
    requires p in RetainedPaths(items)
    ensures Decides(items, i) && items[i].path.value == p
  {
    var n := |items| - 1;
    if Retained(items[n]) && items[n].path.value == p {
      i := n;
    } else {
      assert items[..n] + [items[n]] == items;
      RetainedPathsAppend(items[..n], items[n]);
      i := LastOf(items[..n], p);
      assert forall j :: 0 <= j < n ==> items[..n][j] == items[j];
    }
  }

  lemma DecidedIff(items: seq<Item>, ok: (string, Expected) -> bool)
    requires RemoteFiles(items).Some?
    ensures (forall i: nat :: Decides(items, i) ==> ok(items[i].path.value, ExpectedOf(items[i])))
       <==> (forall p :: p in RemoteFiles(items).value.at ==> ok(p, RemoteFiles(items).value.at[p]))
  {
    RemoteKeys(items);
    var at := RemoteFiles(items).value.at;
    forall p | p in at
      ensures exists i: nat :: Decides(items, i) && items[i].path.value == p && ExpectedOf(items[i]) == at[p] {
      var i := LastOf(items, p);
      RemoteDecided(items, i);
    }
    forall i: nat | Decides(items, i)
      ensures items[i].path.value in at && at[items[i].path.value] == ExpectedOf(items[i]) {
      RemoteDecided(items, i);
    }
  }

  lemma AllOkIff(items: seq<Item>, disk: map<string, Local>)
    requires RemoteFiles(items).Some?
    ensures AllOk(items, disk)
       <==> forall p :: p in RemoteFiles(items).value.at ==> FileOk(disk, p, RemoteFiles(items).value.at[p])
  {
    RemoteNone(items);
    DecidedIff(items, (p, e) => FileOk(disk, p, e));
  }

  // ---------------------------------------------------------------------------
  // The check
  // ---------------------------------------------------------------------------

  datatype CacheError =
    | NoManifest
    | NoDirectory(dir: string)
    | MissingFile(path: string)
    | SizeMismatch(path: string, wanted: int, actual: nat)
    | HashMismatch(path: string, wantedHash: string, linked: string)

  /** `verify_cache` returns its counts, raises ValueError, or lets another exception through. */
  datatype Outcome = Passed(verified: nat, skipped: nat, total: nat) | Rejected(error: CacheError) | Crashed

  /** The first test a file fails, or how it counts. */
  datatype Check = Good | Skip | Bad(error: CacheError) | Broken

  function CheckFile(disk: map<string, Local>, path: string, e: Expected): (r: Check)
    ensures r.Good? || r.Skip? <==> FileOk(disk, path, e)
    ensures r.Skip? ==> !Checkable(e)
    ensures r.Good? ==> Checkable(e)
  {
    if path !in disk || HiddenPart(path) then Bad(MissingFile(path))
    else if !Checkable(e) then Skip
    else if e.size.Some? && disk[path].size.None? then Broken
    else if e.size.Some? && disk[path].size.value != e.size.value
    then Bad(SizeMismatch(path, e.size.value, disk[path].size.value))
    else if SymlinkHash(disk[path]).Some? && SymlinkHash(disk[path]) != e.hash
    then Bad(HashMismatch(path, e.hash.value, SymlinkHash(disk[path]).value))
    else Good
  }

  ghost function Skipped(at: map<string, Expected>, keys: seq<string>): nat
    requires forall k :: k in keys ==> k in at
  {
    if keys == [] then 0
    else Skipped(at, keys[..|keys| - 1]) + if Checkable(at[keys[|keys| - 1]]) then 0 else 1
  }

  /** The error names a manifest file and tells the truth about it. */
  ghost predicate Explains(e: CacheError, manifest: Option<seq<Item>>, exists_: bool, disk: map<string, Local>) {
    match e
    case NoManifest => manifest.None?
    case NoDirectory(_) => manifest.Some? && !exists_
    case MissingFile(p) => manifest.Some? && p in RetainedPaths(manifest.value) && (p !in disk || HiddenPart(p))
    case SizeMismatch(p, wanted, actual) =>
      manifest.Some? && p in RetainedPaths(manifest.value) && p in disk
      && disk[p].size == Some(actual) && wanted != actual
    case HashMismatch(p, wanted, linked) =>
      manifest.Some? && p in RetainedPaths(manifest.value) && p in disk && SymlinkHash(disk[p]) == Some(linked)
      && wanted != linked
  }

  method BuildRemote(items: seq<Item>) returns (r: Option<Dict<Expected>>)
    ensures r == RemoteFiles(items)
  {
    var d: Dict<Expected> := Dict([], map[]);
    var i := 0;
    while i < |items|
      invariant 0 <= i <= |items| && RemoteFiles(items[..i]) == Some(d)
    {
      assert items[..i + 1][..i] == items[..i];
      if items[i].path.None? {
        RemoteNone(items);
        return None;
      }
      if !Hidden(items[i].path.value) {
        d := Put(d, items[i].path.value, ExpectedOf(items[i]));
      }
      i := i + 1;
    }
    assert items[..i] == items;
    return Some(d);
  }

  /** The first `i` files of the dictionary are in order, and counted. */
  ghost predicate Checked(d: Dict<Expected>, disk: map<string, Local>, i: nat, verified: nat, skipped: nat)
    requires d.Valid()
  {
    && i <= |d.keys| && verified + skipped == i && skipped == Skipped(d.at, d.keys[..i])
    && forall j :: 0 <= j < i ==> FileOk(disk, d.keys[j], d.at[d.keys[j]])
  }

  lemma CheckedNext(d: Dict<Expected>, disk: map<string, Local>, i: nat, verified: nat, skipped: nat)
    requires d.Valid() && Checked(d, disk, i, verified, skipped) && i < |d.keys|
    ensures d.keys[i] in d.at
    ensures CheckFile(disk, d.keys[i], d.at[d.keys[i]]) == Good ==> Checked(d, disk, i + 1, verified + 1, skipped)
    ensures CheckFile(disk, d.keys[i], d.at[d.keys[i]]) == Skip ==> Checked(d, disk, i + 1, verified, skipped + 1)
  {
    assert d.keys[i] in d.keys;
    assert d.keys[..i + 1][..i] == d.keys[..i];
  }

  lemma CheckedAll(d: Dict<Expected>, disk: map<string, Local>, verified: nat, skipped: nat)
    requires d.Valid() && Checked(d, disk, |d.keys|, verified, skipped)
    ensures forall p :: p in d.at ==> FileOk(disk, p, d.at[p])
    ensures skipped == Skipped(d.at, d.keys)
  {
    assert d.keys[..|d.keys|] == d.keys;
    forall p | p in d.at ensures FileOk(disk, p, d.at[p]) {
      var j :| 0 <= j < |d.keys| && d.keys[j] == p;
    }
  }

  method CheckFiles(d: Dict<Expected>, disk: map<string, Local>) returns (r: Outcome)
    requires d.Valid()
    ensures r.Passed? <==> forall p :: p in d.at ==> FileOk(disk, p, d.at[p])
    ensures r.Passed? ==> r.verified + r.skipped == r.total == |d.keys| && r.skipped == Skipped(d.at, d.keys)
    ensures r.Rejected? ==> exists p :: p in d.at && CheckFile(disk, p, d.at[p]) == Bad(r.error)
  {
    var verified, skipped := 0, 0;
    var i := 0;
    while i < |d.keys|
      invariant Checked(d, disk, i, verified, skipped)
    {
      var p := d.keys[i];
      CheckedNext(d, disk, i, verified, skipped);
      match CheckFile(disk, p, d.at[p]) {
        case Bad(error) => return Rejected(error);
        case Broken => return Crashed;
        case Skip => skipped := skipped + 1;
        case Good => verified := verified + 1;
      }
      i := i + 1;
    }
    CheckedAll(d, disk, verified, skipped);
    return Passed(verified, skipped, |d.keys|);
  }

  /** `verify_cache`: it passes exactly when the manifest is there, the snapshot directory exists and
      every manifest file is as it should be; every file is counted once; an error tells the truth. */
  method VerifyCache(manifest: Option<seq<Item>>, dir: string, exists_: bool, disk: map<string, Local>)
    returns (r: Outcome)
    ensures r.Passed? <==> manifest.Some? && exists_ && AllOk(manifest.value, disk)
    ensures r.Passed? ==> r.verified + r.skipped == r.total == |RetainedPaths(manifest.value)|
    ensures r.Rejected? ==> Explains(r.error, manifest, exists_, disk)
  {
    if manifest.None? {
      return Rejected(NoManifest);
    }
    var items := manifest.value;
    RemoteNone(items);
    var remote := BuildRemote(items);
    if remote.None? {
      return Crashed;
    }
    if !exists_ {
      return Rejected(NoDirectory(dir));
    }
    RemoteValid(items);
    RemoteKeys(items);
    AllOkIff(items, disk);
    KeyCount(remote.value);
    r := CheckFiles(remote.value, disk);
    if r.Rejected? {
      var p :| p in remote.value.at && CheckFile(disk, p, remote.value.at[p]) == Bad(r.error);
      BadExplains(items, disk, p, remote.value.at[p], r.error);
    }
  }

  lemma BadExplains(items: seq<Item>, disk: map<string, Local>, p: string, e: Expected, error: CacheError)
    requires p in RetainedPaths(items) && CheckFile(disk, p, e) == Bad(error)
    ensures Explains(error, Some(items), true, disk)
  {
  }

  /** No check of the item can fail on every disk: its path has no hidden component, and a size that is
      checked is not negative. */
  predicate Checks(path: string, e: Expected) {
    !HiddenPart(path) && (Checkable(e) && e.size.Some? ==> e.size.value >= 0)
  }

  ghost predicate CanPass(items: seq<Item>) {
    exists disk :: AllOk(items, disk)
  }

  ghost predicate Passable(items: seq<Item>) {
    && (forall i :: 0 <= i < |items| ==> items[i].path.Some?)
    && (forall i: nat :: Decides(items, i) ==> Checks(items[i].path.value, ExpectedOf(items[i])))
  }

  /** A disk with a plain file of the right size for every path. */
  ghost function IdealDisk(at: map<string, Expected>): map<string, Local> {
    map p | p in at ::
      Local(None, Some(if at[p].size.Some? && at[p].size.value >= 0 then at[p].size.value else 0))
  }

  /** The manifest is filtered by the first character of a path, the listing by that of each component. So
      some disk satisfies a manifest if and only if every item has a path, no deciding item lies below a
      hidden directory, and no checked size is negative. */
  lemma CanPassIff(items: seq<Item>)
    ensures CanPass(items) <==> Passable(items)
  {
    if Passable(items) {
      RemoteNone(items);
      var at := RemoteFiles(items).value.at;
      DecidedIff(items, (p, e) => Checks(p, e));
      AllOkIff(items, IdealDisk(at));
      forall p | p in at ensures FileOk(IdealDisk(at), p, at[p]) {
        IdealFile(at, p);
      }
    }
  }

  lemma IdealFile(at: map<string, Expected>, p: string)
    requires p in at && Checks(p, at[p])
    ensures FileOk(IdealDisk(at), p, at[p])
  {
    assert SymlinkHash(IdealDisk(at)[p]).None?;
  }

  /** A manifest with a file below a hidden directory never passes, whatever is on disk. */
  lemma HiddenPartNeverPasses(items: seq<Item>, disk: map<string, Local>, i: nat)
    requires i < |items| && Retained(items[i]) && HiddenPart(items[i].path.value)
    ensures !AllOk(items, disk)
  {
    var p := items[i].path.value;
    assert p in RetainedPaths(items);
    var k := LastOf(items, p);
    assert !FileOk(disk, p, ExpectedOf(items[k]));
  }

  lemma HiddenName(dir: string, name: string)
    requires '/' !in dir && '/' !in name && Hidden(name)
    ensures HiddenPart(dir + ['/'] + name)
  {
    var path := dir + ['/'] + name;
    BeforeUnique(dir, '/', name);
    assert path[|dir|] == '/';
    assert Split(path, '/')[1] == name;
  }

  /** Such as the manifest of one file "a/_b", although its path does not start with an underscore. */
  lemma HiddenFileExample(item: Item, disk: map<string, Local>)
    requires item.path == Some("a/_b")
    ensures Retained(item) && !AllOk([item], disk)
  {
    HiddenName("a", "_b");
    assert "a" + ['/'] + "_b" == "a/_b";
    HiddenPartNeverPasses([item], disk, 0);
  }

  // ---------------------------------------------------------------------------
  // Character by character
  // ---------------------------------------------------------------------------

  /** An underscore stands at the start of the path or behind a slash. */
  ghost predicate HasUnderscorePart(path: string) {
    || (path != "" && path[0] == '_')
    || exists i :: 0 < i < |path| && path[i - 1] == '/' && path[i] == '_'
  }

  lemma {:induction false} HiddenPartIff(path: string)
    ensures HiddenPart(path) <==> HasUnderscorePart(path)
    decreases |path|
  {
    if '/' in path {
      var h, t := Before(path, '/'), After(path, '/');
      HiddenPartIff(t);
      HiddenFirstOrRest(h, Split(t, '/'));
      UnderscoreFirstOrRest(path, h, t);
    } else {
      assert Split(path, '/') == [path];
      HiddenFirstOrRest(path, []);
      assert forall i :: 0 <= i < |path| ==> path[i] != '/';
    }
  }

  lemma HiddenFirstOrRest(h: string, rest: seq<string>)
    ensures AnyHidden([h] + rest) <==> Hidden(h) || AnyHidden(rest)
    ensures [h] + [] == [h]
  {
    var parts := [h] + rest;
    assert parts[0] == h && forall i :: 0 <= i < |rest| ==> parts[i + 1] == rest[i];
    if AnyHidden(rest) {
      var i :| 0 <= i < |rest| && Hidden(rest[i]);
      assert Hidden(parts[i + 1]);
    }
  }

  lemma UnderscoreFirstOrRest(path: string, h: string, t: string)
    requires path == h + ['/'] + t && '/' !in h
    ensures HasUnderscorePart(path) <==> Hidden(h) || HasUnderscorePart(t)
  {
    assert forall i :: 0 <= i < |h| ==> path[i] == h[i];
    assert path[|h|] == '/';
    assert forall i :: 0 <= i < |t| ==> path[|h| + 1 + i] == t[i];
    if HasUnderscorePart(t) {
      UnderscoreInRest(path, |h| + 1, t);
    }
    if i :| 0 < i < |path| && path[i - 1] == '/' && path[i] == '_' {
      if i > |h| + 1 {
        assert t[i - |h| - 2] == '/' && t[i - |h| - 1] == '_';
      } else {
        assert i == |h| + 1 && t[0] == '_';
      }
    }
  }

  lemma UnderscoreInRest(path: string, n: nat, t: string)
    requires 0 < n && |path| == n + |t| && path[n - 1] == '/' && HasUnderscorePart(t)
    requires forall i :: 0 <= i < |t| ==> path[n + i] == t[i]
    ensures HasUnderscorePart(path)
  {
    if t[0] == '_' {
      assert path[n] == '_';
    } else {
      var i :| 0 < i < |t| && t[i - 1] == '/' && t[i] == '_';
      assert path[n + i] == '_' && path[n + (i - 1)] == '/';
    }
  }

  /** The name of the blob that a link points to is what stands behind its last slash. */
  lemma LinkName(folder: string, blob: string)
    requires '/' !in blob && blob != "" && blob != "."
    ensures LastPart(Split(folder + "/" + blob, '/')) == blob
  {
    assert folder + ['/'] + blob == folder + "/" + blob;
    SplitEnd(folder, blob);
    LastPartIs(Split(folder, '/'), blob);
  }

  lemma {:induction false} JoinAppend(parts: seq<string>, b: string)
    requires parts != []
    ensures Join(parts + [b], '/') == Join(parts, '/') + ['/'] + b
  {
    if |parts| > 1 {
      JoinAppend(parts[1..], b);
      assert (parts + [b])[1..] == parts[1..] + [b];
    } else {
      assert (parts + [b])[1..] == [b];
    }
  }

  lemma {:induction false} NoSlashInParts(s: string, i: nat)
    requires i < |Split(s, '/')|
    ensures '/' !in Split(s, '/')[i]
    decreases |s|
  {
    if '/' in s && i > 0 {
      NoSlashInParts(After(s, '/'), i - 1);
    }
  }

  lemma SplitEnd(a: string, b: string)
    requires '/' !in b
    ensures Split(a + ['/'] + b, '/') == Split(a, '/') + [b]
  {
    var parts := Split(a, '/');
    JoinSplit(a, '/');
    JoinAppend(parts, b);
    forall i | 0 <= i < |parts| ensures '/' !in parts[i] {
      NoSlashInParts(a, i);
    }
    SplitJoin(parts + [b], '/');
  }

  /** A slash or a "." behind it changes nothing. */
  lemma LinkNameTrailing(target: string)
    ensures LastPart(Split(target + "/", '/')) == LastPart(Split(target, '/'))
    ensures LastPart(Split(target + "/.", '/')) == LastPart(Split(target, '/'))
  {
    assert target + "/" == target + ['/'] + "" && target + "/." == target + ['/'] + ".";
    SplitEnd(target, "");
    SplitEnd(target, ".");
    LastPartIs(Split(target, '/'), "");
    LastPartIs(Split(target, '/'), ".");
  }

  lemma LastPartIs(parts: seq<string>, last: string)
    ensures LastPart(parts + [last]) == if last == "" || last == "." then LastPart(parts) else last
  {
    assert (parts + [last])[..|parts|] == parts;
  }

  /** The hash of a large file is its sha256, that of any other its blob id. */
  ghost function ManifestHash(item: Item): Option<string> {
    if item.isLfs then item.sha256 else item.blobId
  }

  /** A manifest of one file, linked to `blob` on disk: it passes if and only if the manifest gives no hash or
      one of 40 characters, or the size is as given and the blob's name, if it has 64 characters, is the hash. */
  lemma LinkedFileIff(item: Item, folder: string, blob: string, size: nat)
    requires item.path.Some? && !HasUnderscorePart(item.path.value)
    requires '/' !in blob && blob != "" && blob != "."
    ensures AllOk([item], map[item.path.value := Local(Some(folder + "/" + blob), Some(size))])
       <==> || ManifestHash(item).None? || |ManifestHash(item).value| == 40
            || ((item.size.Some? ==> item.size.value == size) && (|blob| == 64 ==> blob == ManifestHash(item).value))
  {
    var disk := map[item.path.value := Local(Some(folder + "/" + blob), Some(size))];
    LinkName(folder, blob);
    HiddenPartIff(item.path.value);
    OneItem(item, disk);
  }

  lemma OneItem(item: Item, disk: map<string, Local>)
    requires item.path.Some? && !HasUnderscorePart(item.path.value)
    ensures AllOk([item], disk) <==> FileOk(disk, item.path.value, ExpectedOf(item))
  {
    assert [item][0] == item;
    assert Decides([item], 0);
  }

  /** A file that is no link is checked by its size alone. */
  lemma PlainFileIff(item: Item, size: nat)
    requires item.path.Some? && !HasUnderscorePart(item.path.value)
    ensures AllOk([item], map[item.path.value := Local(None, Some(size))])
       <==> || ManifestHash(item).None? || |ManifestHash(item).value| == 40
            || (item.size.Some? ==> item.size.value == size)
  {
    HiddenPartIff(item.path.value);
    OneItem(item, map[item.path.value := Local(None, Some(size))]);
  }

  // ---------------------------------------------------------------------------
  // How `reconcile` reads an error
  // ---------------------------------------------------------------------------

  predicate OccursAt(s: string, pat: string, i: nat) {
    i + |pat| <= |s| && forall k :: 0 <= k < |pat| ==> pat[k] == s[i + k]
  }

  predicate Contains(s: string, pat: string) {
    exists i :: 0 <= i <= |s| && OccursAt(s, pat, i)
  }

  function Tail(wanted: string, actual: string): string {
    " (expected=" + wanted + ", actual=" + actual + ")"
  }

  function Short(hash: string): string {
    if |hash| <= 12 then hash else hash[..12]
  }

  function Message(e: CacheError): string {
    match e
    case NoManifest =>
      "Cache " + "verification failed"
      + ": could not fetch repo info from validator (required to verify cache integrity)"
    case NoDirectory(dir) => "Cache directory " + "not found" + (": " + dir)
    case MissingFile(p) => "" + "Missing file" + (": " + p)
    case SizeMismatch(p, wanted, actual) => "Size mismatch: " + (p + Tail(IntText(wanted), IntText(actual)))
    case HashMismatch(p, wanted, linked) => "Hash mismatch: " + (p + Tail(Short(wanted), Short(linked)))
  }

  datatype Reading = Incomplete | Unavailable | Stale(reason: string)

  /** The error text searched for three phrases, in this order. */
  function ReadMessage(m: string): Reading {
    if Contains(m, "Missing file") || Contains(m, "not found") then Incomplete
    else if Contains(m, "verification failed") then Unavailable
    else Stale(m)
  }

  function Read(e: CacheError): Reading {
    ReadMessage(Message(e))
  }

  lemma OccursWithin(a: string, pat: string, b: string)
    ensures Contains(a + pat + b, pat)
  {
    assert OccursAt(a + pat + b, pat, |a|);
  }

  lemma ReadsIncomplete(a: string, b: string)
    ensures ReadMessage(a + "Missing file" + b) == Incomplete
    ensures ReadMessage(a + "not found" + b) == Incomplete
  {
    OccursWithin(a, "Missing file", b);
    OccursWithin(a, "not found", b);
  }

  lemma ReadsFailed(a: string, b: string)
    ensures !ReadMessage(a + "verification failed" + b).Stale?
  {
    OccursWithin(a, "verification failed", b);
  }

  /** A missing manifest, directory or file never counts as stale, whatever the names involved. */
  lemma AbsenceIsNotStale(e: CacheError)
    requires e.NoManifest? || e.NoDirectory? || e.MissingFile?
    ensures !Read(e).Stale?
    ensures !e.NoManifest? ==> Read(e) == Incomplete
  {
    match e
    case NoManifest =>
      ReadsFailed("Cache ", ": could not fetch repo info from validator (required to verify cache integrity)");
    case NoDirectory(dir) => ReadsIncomplete("Cache directory ", ": " + dir);
    case MissingFile(p) => ReadsIncomplete("", ": " + p);
  }

  /** Between two texts stands a separator that no occurrence of the pattern can touch. */
  ghost predicate Separates(sep: string, pat: string) {
    && sep != "" && pat != "" && pat[0] !in sep
    && (sep[0] !in pat || (|sep| >= 2 && sep[1] !in pat && pat[|pat| - 1] != sep[0]))
  }

  lemma CharInPattern(s: string, pat: string, i: nat, q: nat)
    requires OccursAt(s, pat, i) && q < |s|
    ensures i <= q < i + |pat| ==> s[q] in pat
  {
    if i <= q < i + |pat| {
      assert pat[q - i] == s[i + (q - i)];
    }
  }

  lemma OccursShift(pre: string, s: string, pat: string, j: nat)
    ensures OccursAt(pre + s, pat, |pre| + j) <==> OccursAt(s, pat, j)
  {
    if OccursAt(pre + s, pat, |pre| + j) {
      assert forall k :: 0 <= k < |pat| ==> pat[k] == s[j + k];
    }
  }

  /** An occurrence lies before the separator or behind it. */
  lemma OccursAround(a: string, sep: string, b: string, pat: string, i: nat)
    requires Separates(sep, pat) && OccursAt(a + (sep + b), pat, i)
    ensures i + |pat| <= |a| || i >= |a| + |sep|
  {
    var s := a + (sep + b);
    assert forall q :: |a| <= q < |a| + |sep| ==> s[q] == sep[q - |a|];
    assert pat[0] == s[i] && pat[|pat| - 1] == s[i + |pat| - 1];
    CharInPattern(s, pat, i, |a|);
    if |sep| >= 2 {
      CharInPattern(s, pat, i, |a| + 1);
    }
  }

  lemma ContainsAround(a: string, sep: string, b: string, pat: string)
    requires Separates(sep, pat)
    ensures Contains(a + (sep + b), pat) <==> Contains(a, pat) || Contains(b, pat)
  {
    var s := a + (sep + b);
    if i :| 0 <= i <= |s| && OccursAt(s, pat, i) {
      OccursAround(a, sep, b, pat, i);
      if i + |pat| <= |a| {
        assert OccursAt(a, pat, i);
      } else {
        var j := i - |a| - |sep|;
        assert s == (a + sep) + b;
        OccursShift(a + sep, b, pat, j);
        assert OccursAt(b, pat, j);
      }
    }
    if j :| 0 <= j <= |a| && OccursAt(a, pat, j) {
      assert OccursAt(s, pat, j);
    }
    if j :| 0 <= j <= |b| && OccursAt(b, pat, j) {
      assert s == (a + sep) + b;
      OccursShift(a + sep, b, pat, j);
    }
  }

  /** The text holds one of the three phrases. */
  predicate Misleading(text: string) {
    Contains(text, "Missing file") || Contains(text, "not found") || Contains(text, "verification failed")
  }

  ghost predicate SeparatesPhrases(sep: string) {
    Separates(sep, "Missing file") && Separates(sep, "not found") && Separates(sep, "verification failed")
  }

  /** What the phrases have in common. */
  ghost predicate IsPhrase(pat: string) {
    pat != "" && pat[0] in "Mnv" && pat[|pat| - 1] != ' ' && forall i :: 0 <= i < |pat| ==> InPhrase(pat[i])
  }

  ghost predicate InPhrase(c: char) {
    'a' <= c <= 'z' || c == ' ' || c == 'M'
  }

  ghost predicate IsSeparator(sep: string) {
    && sep != "" && 'M' !in sep && 'n' !in sep && 'v' !in sep
    && (sep[0] in "SH,)" || (sep[0] == ' ' && |sep| >= 2 && sep[1] == '('))
  }

  lemma SeparatorSeparates(sep: string)
    requires IsSeparator(sep)
    ensures SeparatesPhrases(sep)
  {
    MissingIsPhrase();
    NotFoundIsPhrase();
    FailedIsPhrase();
    PhraseSeparated(sep, "Missing file");
    PhraseSeparated(sep, "not found");
    PhraseSeparated(sep, "verification failed");
  }

  lemma MissingIsPhrase()
    ensures IsPhrase("Missing file")
  {
  }

  lemma NotFoundIsPhrase()
    ensures IsPhrase("not found")
  {
  }

  lemma FailedIsPhrase()
    ensures IsPhrase("verification failed")
  {
  }

  lemma PhraseSeparated(sep: string, pat: string)
    requires IsSeparator(sep) && IsPhrase(pat)
    ensures Separates(sep, pat)
  {
    assert !InPhrase('S') && !InPhrase('H') && !InPhrase('(') && !InPhrase(',') && !InPhrase(')');
  }

  lemma MisleadingAround(a: string, sep: string, b: string)
    requires SeparatesPhrases(sep)
    ensures Misleading(a + (sep + b)) <==> Misleading(a) || Misleading(b)
  {
    ContainsAround(a, sep, b, "Missing file");
    ContainsAround(a, sep, b, "not found");
    ContainsAround(a, sep, b, "verification failed");
  }

  lemma NoPhraseInNothing()
    ensures !Misleading("")
  {
  }

  lemma MismatchReading(pre: string, path: string, wanted: string, actual: string)
    requires pre == "Size mismatch: " || pre == "Hash mismatch: "
    ensures ReadMessage(pre + (path + Tail(wanted, actual))).Stale?
       <==> !Misleading(path) && !Misleading(wanted) && !Misleading(actual)
  {
    NoPhraseInNothing();
    HeadSeparates(pre);
    TailSeparates();
    TailMisleading(wanted, actual, path);
    MisleadingAround("", pre, path + Tail(wanted, actual));
    assert "" + (pre + (path + Tail(wanted, actual))) == pre + (path + Tail(wanted, actual));
  }

  lemma HeadSeparates(pre: string)
    requires pre == "Size mismatch: " || pre == "Hash mismatch: "
    ensures SeparatesPhrases(pre)
  {
    SeparatorSeparates(pre);
  }

  lemma TailSeparates()
    ensures SeparatesPhrases(" (expected=") && SeparatesPhrases(", actual=") && SeparatesPhrases(")")
  {
    SeparatorSeparates(" (expected=");
    SeparatorSeparates(", actual=");
    SeparatorSeparates(")");
  }

  lemma TailMisleading(wanted: string, actual: string, path: string)
    requires SeparatesPhrases(" (expected=") && SeparatesPhrases(", actual=") && SeparatesPhrases(")")
    requires !Misleading("")
    ensures Misleading(path + Tail(wanted, actual)) <==> Misleading(path) || Misleading(wanted) || Misleading(actual)
  {
    var end := actual + (")" + "");
    MisleadingAround(path, " (expected=", wanted + (", actual=" + end));
    MisleadingAround(wanted, ", actual=", end);
    MisleadingAround(actual, ")", "");
    assert Tail(wanted, actual) == " (expected=" + (wanted + (", actual=" + end));
  }

  /** A file of the wrong size makes the cache stale, as documented, if and only if its own path holds
      none of the phrases that the error text is searched for. */
  lemma SizeMismatchStaleIff(path: string, wanted: int, actual: nat)
    ensures Read(SizeMismatch(path, wanted, actual)).Stale? <==> !Misleading(path)
  {
    MismatchReading("Size mismatch: ", path, IntText(wanted), IntText(actual));
    NotMisleading(IntText(wanted));
    NotMisleading(IntText(actual));
  }

  /** At most the first twelve characters. */
  ghost function Start(hash: string): string {
    hash[..if |hash| < 12 then |hash| else 12]
  }

  /** The same for a file linked to the wrong blob; here the printed starts of the hashes count too. */
  lemma HashMismatchStaleIff(path: string, wanted: string, linked: string)
    ensures Read(HashMismatch(path, wanted, linked)).Stale?
       <==> !Misleading(path) && !Misleading(Start(wanted)) && !Misleading(Start(linked))
  {
    assert Short(wanted) == Start(wanted) && Short(linked) == Start(linked);
    MismatchReading("Hash mismatch: ", path, Short(wanted), Short(linked));
  }

  /** A text without a space holds none of the phrases. */
  lemma NotMisleading(text: string)
    requires ' ' !in text
    ensures !Misleading(text)
  {
    assert "Missing file"[7] == ' ' && "not found"[3] == ' ' && "verification failed"[12] == ' ';
  }

  /** So a model file called "not found.bin" is never reported stale. */
  lemma MisleadingName(wanted: int, actual: nat)
    ensures Read(SizeMismatch("not found.bin", wanted, actual)) == Incomplete
  {
    var tail := Tail(IntText(wanted), IntText(actual));
    ReadsIncomplete("Size mismatch: ", ".bin" + tail);
    assert "not found.bin" == "not found" + ".bin";
    assert "Size mismatch: " + ("not found.bin" + tail) == "Size mismatch: " + "not found" + (".bin" + tail);
  }
}
