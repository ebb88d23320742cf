/**
 * `resolve_snapshot_path` of handler.py: maps a Hugging Face model id
 * `org/name` to one snapshot directory of the local cache
 *   <cacheRoot>/models--<org>--<name>/refs/main
 *   <cacheRoot>/models--<org>--<name>/snapshots/<hash>/
 * preferring the snapshot `refs/main` names and otherwise falling back to
 * the lexicographically smallest snapshot directory.
 *
 * The filesystem is a read-only value: a map from path to node.
 */
module SnapshotStore {
  import opened Wrappers
  import opened Text
  import opened Sorting
  import opened Paths

  /** The cache root handler.py uses. */
  const HfCacheRoot: string := "/runpod-volume/huggingface-cache/hub"

  /** A regular file with its (decoded) text, or a directory with the names
      `os.listdir` reports for it, in whatever order it reports them. */
  datatype Node = File(contents: string) | Dir(entries: seq<string>)

  type FileSystem = map<string, Node>

  /** `os.path.isfile` */
  predicate IsFile(fs: FileSystem, p: string) {
    p in fs && fs[p].File?
  }

  /** `os.path.isdir` */
  predicate IsDir(fs: FileSystem, p: string) {
    p in fs && fs[p].Dir?
  }

  /** The three ways resolution fails; all are raised, never caught. */
  datatype ResolveError =
    | NotOrgName(modelId: string)        // ValueError
    | SnapshotsDirNotFound(dir: string)  // RuntimeError
    | NoSnapshotDirs(dir: string)        // RuntimeError
  {
    /** The exception's message: it quotes the rejected id, or ends with the
        directory path it reports. */
    function Message(): (r: string)
      ensures this.NotOrgName? ==>
                |r| >= 10 + |this.modelId| && r[..10] == "MODEL_ID '"
                && r[10..10 + |this.modelId|] == this.modelId
      ensures !this.NotOrgName? ==> |r| >= |this.dir| && r[|r| - |this.dir|..] == this.dir
    {
      match this
      case NotOrgName(id) => "MODEL_ID '" + id + "' is not in 'org/name' format"
      case SnapshotsDirNotFound(d) => "[ModelStore] snapshots directory not found: " + d
      case NoSnapshotDirs(d) => "[ModelStore] No snapshot subdirectories found under " + d
    }
  }

  function ModelRoot(cacheRoot: string, org: string, name: string): string {
    Join(cacheRoot, "models--" + org + "--" + name)
  }

  function RefsMain(modelRoot: string): string {
    Join(Join(modelRoot, "refs"), "main")
  }

  function SnapshotsDir(modelRoot: string): string {
    Join(modelRoot, "snapshots")
  }

  /** The model root for an id that contains a `/`. */
  function ModelRootFor(cacheRoot: string, modelId: string): string
    requires '/' in modelId
  {
    var parts := SplitOnFirst(modelId, '/');
    ModelRoot(cacheRoot, parts.0, parts.1)
  }

  /** The snapshot path `refs/main` names, when `refs/main` is a regular
      file: its contents stripped of surrounding whitespace, below
      `snapshots`. */
  function RefsCandidate(fs: FileSystem, modelRoot: string): Option<string> {
    var refs := RefsMain(modelRoot);
    if IsFile(fs, refs) then Some(Join(SnapshotsDir(modelRoot), Strip(fs[refs].contents)))
    else None
  }

  /** The preferred branch returns: `refs/main` names an existing directory. */
  predicate PreferredApplies(fs: FileSystem, modelRoot: string) {
    var c := RefsCandidate(fs, modelRoot);
    c.Some? && IsDir(fs, c.value)
  }

  /** `d` is listed under `snapshots` and is itself a directory; plain files
      under `snapshots` are not snapshots. */
  predicate IsSnapshotEntry(fs: FileSystem, snapshots: string, d: string) {
    IsDir(fs, snapshots) && d in fs[snapshots].entries && IsDir(fs, Join(snapshots, d))
  }

  /** `v` is a snapshot entry not greater than any other snapshot entry. */
  ghost predicate IsLeastSnapshot(fs: FileSystem, snapshots: string, v: string) {
    && IsSnapshotEntry(fs, snapshots, v)
    && forall w :: IsSnapshotEntry(fs, snapshots, w) ==> LexLe(v, w)
  }

  /** `resolve_snapshot_path(model_id)` with the cache root and the
      filesystem as parameters. */
  method ResolveSnapshotPath(fs: FileSystem, cacheRoot: string, modelId: string)
    returns (r: Result<string, ResolveError>)
    ensures '/' !in modelId <==> r == Failure(NotOrgName(modelId))
    ensures '/' in modelId ==>
              var root := ModelRootFor(cacheRoot, modelId);
              var snapshots := SnapshotsDir(root);
              && (PreferredApplies(fs, root) ==> r == Success(RefsCandidate(fs, root).value))
              && (!PreferredApplies(fs, root) && !IsDir(fs, snapshots) ==>
                    r == Failure(SnapshotsDirNotFound(snapshots)))
              && (!PreferredApplies(fs, root) && IsDir(fs, snapshots) ==>
                    && (r.Failure? <==> forall d :: !IsSnapshotEntry(fs, snapshots, d))
                    && (r.Failure? ==> r.error == NoSnapshotDirs(snapshots))
                    && (r.Success? ==>
                          exists v :: IsLeastSnapshot(fs, snapshots, v) && r.value == Join(snapshots, v)))
  {
    if '/' !in modelId {
      return Failure(NotOrgName(modelId));
    }
    var parts := SplitOnFirst(modelId, '/');
    var root := ModelRoot(cacheRoot, parts.0, parts.1);
    var refs := RefsMain(root);
    var snapshots := SnapshotsDir(root);

    if IsFile(fs, refs) {
      var hash := Strip(fs[refs].contents);
      var candidate := Join(snapshots, hash);
      if IsDir(fs, candidate) {
        return Success(candidate);
      }
    }

    if !IsDir(fs, snapshots) {
      return Failure(SnapshotsDirNotFound(snapshots));
    }

    var chosen := FallbackSnapshot(fs, snapshots);
    if chosen.None? {
      return Failure(NoSnapshotDirs(snapshots));
    }
    r := Success(Join(snapshots, chosen.value));
  }

  /** The fallback branch: the directory entries of `snapshots`, sorted,
      and the first of them; `None` when there is no directory entry. */
  method FallbackSnapshot(fs: FileSystem, snapshots: string) returns (r: Option<string>)
    requires IsDir(fs, snapshots)
    ensures r.None? <==> forall d :: !IsSnapshotEntry(fs, snapshots, d)
    ensures r.Some? ==> IsLeastSnapshot(fs, snapshots, r.value)
  {
    var entries := fs[snapshots].entries;
    var versions: seq<string> := [];
    for i := 0 to |entries|
      invariant forall d :: d in versions <==> d in entries[..i] && IsDir(fs, Join(snapshots, d))
    {
      if IsDir(fs, Join(snapshots, entries[i])) {
        versions := versions + [entries[i]];
      }
    }
    assert entries[..|entries|] == entries;

    if versions == [] {
      return None;
    }

    var sorted := Sort(versions);
    assert forall d :: d in sorted <==> d in versions by {
      forall d ensures d in sorted <==> d in versions {
        assert d in sorted <==> d in multiset(sorted);
        assert d in versions <==> d in multiset(versions);
      }
    }
    SortedHeadIsLeast(sorted);
    assert sorted[0] in versions;
    assert IsSnapshotEntry(fs, snapshots, sorted[0]);
    r := Some(sorted[0]);
  }

  /** At most one entry is the least, so the fallback result is determined. */
  lemma LeastSnapshotUnique(fs: FileSystem, snapshots: string, v1: string, v2: string)
    requires IsLeastSnapshot(fs, snapshots, v1) && IsLeastSnapshot(fs, snapshots, v2)
    ensures v1 == v2
  {
    LexLeAntisymmetric(v1, v2);
  }

  /** Below a cache root that does not end in `/`, the model root is
      `<cacheRoot>/models--<org>--<name>`. */
  lemma ModelRootLayout(cacheRoot: string, org: string, name: string)
    requires cacheRoot != [] && !EndsWithSep(cacheRoot)
    ensures ModelRoot(cacheRoot, org, name) == cacheRoot + "/models--" + org + "--" + name
    ensures !EndsWithSep(name) ==> !EndsWithSep(ModelRoot(cacheRoot, org, name))
  {
  }

  /** Below the cache root handler.py uses, the model root of `org/name` is
      `/runpod-volume/huggingface-cache/hub/models--<org>--<name>`. */
  lemma HfCacheRootLayout(org: string, name: string)
    ensures ModelRoot(HfCacheRoot, org, name)
            == "/runpod-volume/huggingface-cache/hub/models--" + org + "--" + name
  {
    assert !EndsWithSep(HfCacheRoot);
    ModelRootLayout(HfCacheRoot, org, name);
  }

  /** Below a model root that does not end in `/`, the refs file is
      `<root>/refs/main` and the snapshots directory `<root>/snapshots`. */
  lemma ModelDirsLayout(root: string)
    requires root != [] && !EndsWithSep(root)
    ensures RefsMain(root) == root + "/refs/main"
    ensures SnapshotsDir(root) == root + "/snapshots"
  {
    JoinBelow(root, "refs");
    JoinBelow(root + "/refs", "main");
    JoinBelow(root, "snapshots");
  }

  /** The layout paths for the id "o/n" below a cache root. */
  lemma OrgNameLayout(cacheRoot: string)
    requires cacheRoot != [] && !EndsWithSep(cacheRoot)
    ensures '/' in "o/n"
    ensures ModelRootFor(cacheRoot, "o/n") == ModelRoot(cacheRoot, "o", "n")
    ensures var root := ModelRoot(cacheRoot, "o", "n");
            root != [] && !EndsWithSep(root) && SnapshotsDir(root) == root + "/snapshots"
  {
    assert "o" + ['/'] + "n" == "o/n";
    SplitOnFirstUnique("o/n", '/', "o", "n");
    ModelRootLayout(cacheRoot, "o", "n");
    ModelDirsLayout(ModelRoot(cacheRoot, "o", "n"));
  }

  /** Distinct entry names give distinct paths below one directory. */
  lemma ChildrenDistinct(dir: string, x: string, y: string)
    requires !IsAbsolute(x) && !IsAbsolute(y) && x != y
    ensures Join(dir, x) != Join(dir, y)
  {
    JoinShape(dir, x);
    JoinShape(dir, y);
    if |x| == |y| {
      var r, t := Join(dir, x), Join(dir, y);
      assert r[|r| - |x|..] == x && t[|t| - |y|..] == y;
    }
  }

  /** `refs/main` is neither the snapshots directory nor any entry in it. */
  lemma RefsNotBelowSnapshots(root: string, x: string)
    requires root != [] && !EndsWithSep(root)
    ensures RefsMain(root) != SnapshotsDir(root)
    ensures x != [] && !IsAbsolute(x) ==> RefsMain(root) != Join(SnapshotsDir(root), x)
  {
    ModelDirsLayout(root);
    var refs := root + "/refs/main";
    assert refs[|root| + 1] == 'r';
    assert (root + "/snapshots")[|root| + 1] == 's';
    if x != [] && !IsAbsolute(x) {
      JoinBelow(root + "/snapshots", x);
      assert (root + "/snapshots/" + x)[|root| + 1] == 's';
    }
  }

  /** The model root of the id "o/n" below the cache root handler.py uses. */
  const SampleRoot: string := "/runpod-volume/huggingface-cache/hub/models--o--n"

  /** "o/n" has the model root `SampleRoot` below that cache root. */
  lemma SampleRootLayout()
    ensures '/' in "o/n" && ModelRootFor(HfCacheRoot, "o/n") == SampleRoot
  {
    assert !EndsWithSep(HfCacheRoot);
    OrgNameLayout(HfCacheRoot);
    HfCacheRootLayout("o", "n");
    assert "/runpod-volume/huggingface-cache/hub/models--" + "o" + "--" + "n" == SampleRoot;
  }

  /** The layout paths below `SampleRoot`. */
  lemma SampleDirsLayout()
    ensures RefsMain(SampleRoot) == SampleRoot + "/refs/main"
    ensures SnapshotsDir(SampleRoot) == SampleRoot + "/snapshots"
    ensures Join(SampleRoot + "/snapshots", "h1") == SampleRoot + "/snapshots/h1"
  {
    ModelDirsLayout(SampleRoot);
    JoinBelow(SampleRoot + "/snapshots", "h1");
    assert SampleRoot + "/snapshots" + "/" + "h1" == SampleRoot + "/snapshots/h1";
  }

  /** Below `SampleRoot`: the snapshot directories "a" and "h1", and
      `refs/main` holding "h1" and a newline. */
  function SampleFs(): FileSystem {
    map[SampleRoot + "/snapshots" := Dir(["a", "h1"]),
        SampleRoot + "/snapshots/a" := Dir([]),
        SampleRoot + "/snapshots/h1" := Dir([]),
        SampleRoot + "/refs/main" := File("h1\n")]
  }

  /** The contents "h1" and a newline name the snapshot "h1". */
  lemma SampleRefsLine()
    ensures Strip("h1\n") == "h1"
  {
    StripSurroundingSpace([], "h1", "\n");
    assert [] + "h1" + "\n" == "h1\n";
  }

  /** In `SampleFs()`, `refs/main` names `snapshots/h1`. */
  lemma SampleCandidate()
    ensures RefsCandidate(SampleFs(), SampleRoot) == Some(SampleRoot + "/snapshots/h1")
  {
    SampleDirsLayout();
    SampleRefsLine();
  }

  /** In `SampleFs()` the preferred branch applies. */
  lemma SamplePreferred()
    ensures PreferredApplies(SampleFs(), SampleRoot)
  {
    SampleCandidate();
    assert |SampleRoot + "/snapshots/h1"| != |SampleRoot + "/refs/main"|;
  }

  /** Resolving "o/n" in `SampleFs()` takes the snapshot `refs/main` names,
      `snapshots/h1`, although "a" sorts first. */
  method PreferredScenario() returns (r: Result<string, ResolveError>)
    ensures r == Success(SampleRoot + "/snapshots/h1")
  {
    SampleRootLayout();
    SampleCandidate();
    SamplePreferred();
    r := ResolveSnapshotPath(SampleFs(), HfCacheRoot, "o/n");
  }

  /** Snapshot directories "b", "a", "c" and a plain file "0" under the
      directory "/s": the fallback picks "a". */
  method FallbackScenario() {
    var fs := map["/s" := Dir(["b", "a", "0", "c"]),
                  "/s/b" := Dir([]), "/s/a" := Dir([]), "/s/0" := File(""), "/s/c" := Dir([])];
    assert Join("/s", "a") == "/s/a" && Join("/s", "0") == "/s/0";
    assert IsSnapshotEntry(fs, "/s", "a");
    var r := FallbackSnapshot(fs, "/s");
    var v := r.value;
    assert v in ["b", "a", "0", "c"] && v != "0";
    assert LexLe(v, "a");
    assert !LexLe("b", "a") && !LexLe("c", "a");
    assert r == Some("a");
  }

  /** A `snapshots` directory that holds only a plain file has no snapshot. */
  method NoSnapshotDirsScenario(snapshots: string) {
    JoinShape(snapshots, "x");
    var fs := map[snapshots := Dir(["x"]), Join(snapshots, "x") := File("")];
    var r := FallbackSnapshot(fs, snapshots);
    assert r == None;
  }

  /** An id without `/` is rejected. */
  method NotOrgNameScenario(fs: FileSystem, cacheRoot: string) {
    var r := ResolveSnapshotPath(fs, cacheRoot, "phi");
    assert r == Failure(NotOrgName("phi"));
  }

  /** `refs/main` names a snapshot that is missing and there is no
      `snapshots` directory. */
  method MissingSnapshotsScenario(cacheRoot: string)
    requires cacheRoot != [] && !EndsWithSep(cacheRoot)
  {
    OrgNameLayout(cacheRoot);
    var root := ModelRoot(cacheRoot, "o", "n");
    var snapshots := SnapshotsDir(root);
    RefsNotBelowSnapshots(root, "h1");
    var fs := map[RefsMain(root) := File("h1")];
    assert !PreferredApplies(fs, root);
    assert !IsDir(fs, snapshots);
    var r := ResolveSnapshotPath(fs, cacheRoot, "o/n");
    assert r == Failure(SnapshotsDirNotFound(snapshots));
  }
}
