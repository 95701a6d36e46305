/** The download manager of core/downloader.py: for each media item it
    removes a leftover `.part` file, keeps or flags an existing destination,
    or fetches into `.part` and renames; every item bumps exactly one
    per-kind counter of the shared statistics tracker. */
module Downloader {
  import opened Common

  type Path = string

  /** The four media kinds, dispatched on the codes 'p', 'v', 'a' and 'f'. */
  datatype Kind = Photo | Video | Audio | File

  /** The outcome of one item: the three values `_download_file_if_not_exists`
      returns, plus `"error"` for an item whose transfer raised. */
  datatype Status = Downloaded | Passed | Incomplete | Error

  /** What the network did for one transfer: the whole file arrived, or the
      transfer failed, possibly leaving a partial file behind. */
  datatype Transfer = Fetched(size: nat) | Failed(leftover: Option<nat>)

  /** Everything the outside world decides for one item: whether deleting a
      leftover `.part` succeeds, what `get_content_length` answers, how the
      transfer ends and whether `os.replace` succeeds. */
  datatype ItemEnv = ItemEnv(unlinkOk: bool, probe: Option<int>, transfer: Transfer, renameOk: bool)

  /** One media item of a pool: `name` is the id (or, for attached files,
      the title), `meta` the optional video metadata. */
  datatype Item = Item(name: string, url: string, meta: Option<map<string, string>>, env: ItemEnv)

  datatype MediaPool = MediaPool(images: seq<Item>, videos: seq<Item>, audios: seq<Item>, files: seq<Item>)

  function ItemsOf(pool: MediaPool, k: Kind): seq<Item> {
    match k
    case Photo => pool.images
    case Video => pool.videos
    case Audio => pool.audios
    case File => pool.files
  }

  /** The dispatch of `_get_file_and_raise_stat` on its one-letter code. */
  function KindOf(code: char): (k: Option<Kind>)
    ensures k.Some? <==> code == 'p' || code == 'v' || code == 'a' || code == 'f'
  {
    match code
    case 'p' => Some(Photo)
    case 'v' => Some(Video)
    case 'a' => Some(Audio)
    case 'f' => Some(File)
    case _ => None
  }

  function CodeOf(k: Kind): (c: char)
    ensures KindOf(c) == Some(k)
  {
    match k
    case Photo => 'p'
    case Video => 'v'
    case Audio => 'a'
    case File => 'f'
  }

  function SubDir(k: Kind): string {
    match k
    case Photo => "photos"
    case Video => "videos"
    case Audio => "audios"
    case File => "files"
  }

  function FileName(k: Kind, name: string): string {
    match k
    case Photo => name + ".jpg"
    case Video => name + ".mp4"
    case Audio => name + ".mp3"
    case File => name
  }

  /** `<base>/photos/<id>.jpg`, `<base>/videos/<id>.mp4`,
      `<base>/audios/<id>.mp3` or `<base>/files/<title>`. */
  function Destination(base: Path, k: Kind, name: string): Path {
    JoinPath(JoinPath(base, SubDir(k)), FileName(k, name))
  }

  function Destinations(base: Path, k: Kind, items: seq<Item>): (ps: seq<Path>)
    ensures |ps| == |items|
    ensures forall i :: 0 <= i < |items| ==> ps[i] == Destination(base, k, items[i].name)
    decreases |items|
  {
    if items == [] then []
    else Destinations(base, k, items[..|items| - 1]) + [Destination(base, k, items[|items| - 1].name)]
  }

  /** A name `pathlib` joins as one more segment: no separator, and for an
      attached file's title not empty, `.` or `..` either. */
  predicate PlainName(k: Kind, name: string) {
    && '/' !in name
    && (k == File ==> name != "" && name != "." && name != "..")
  }

  /** Two items under the same base share a destination only if they are of
      the same kind and carry the same id (or the same title). */
  lemma DestinationInjective(base: Path, k1: Kind, n1: string, k2: Kind, n2: string)
    requires PlainName(k1, n1) && PlainName(k2, n2)
    requires Destination(base, k1, n1) == Destination(base, k2, n2)
    ensures k1 == k2 && n1 == n2
  {
    var f1, f2 := FileName(k1, n1), FileName(k2, n2);
    var s1, s2 := SubDir(k1), SubDir(k2);
    var d1 := base + "/" + s1 + "/" + f1;
    var d2 := base + "/" + s2 + "/" + f2;
    assert Destination(base, k1, n1) == d1;
    assert Destination(base, k2, n2) == d2;
    assert d1[|base| + 1] == s1[0];
    assert d2[|base| + 1] == s2[0];
    assert k1 == k2;
    assert f1 == d1[|base| + |s1| + 2..];
    assert f2 == d2[|base| + |s2| + 2..];
    assert f1 == f2;
    assert n1 == f1[..|n1|];
    assert n2 == f2[..|n2|];
  }

  function PartPath(p: Path): Path {
    p + ".part"
  }

  lemma PartPathDiffers(p: Path)
    ensures PartPath(p) != p
  {
    assert |PartPath(p)| == |p| + 5;
  }

  /** The leftover-part cleanup: a `.part` beside the destination is deleted
      when the deletion succeeds, and kept (with a warning) otherwise. */
  function Cleanup(files: map<Path, nat>, path: Path, env: ItemEnv): map<Path, nat> {
    var part := PartPath(path);
    if part in files && env.unlinkOk then files - {part} else files
  }

  predicate IsPlaylist(url: string) {
    Contains(Lower(url), ".m3u8")
  }

  /** The length the size check compares against: never probed for an HLS
      playlist URL. */
  function ExpectedLength(url: string, env: ItemEnv): Option<int> {
    if IsPlaylist(url) then None else env.probe
  }

  /** `actual < expected * 0.8`, in integers. */
  predicate BelowThreshold(actual: int, expected: int) {
    5 * actual < 4 * expected
  }

  /** How `_download_file_if_not_exists` ended: it returned a status, or it
      raised. */
  datatype Attempt = Returned(status: Status) | Raised

  datatype Decision = Decision(files: map<Path, nat>, attempt: Attempt)

  /** The per-item decision of `_download_file_if_not_exists` on the file
      system `files`: the file system afterwards and how the call ended. */
  function Decide(files: map<Path, nat>, url: string, path: Path, env: ItemEnv): (d: Decision)
    ensures d.attempt != Returned(Error)
  {
    var f := Cleanup(files, path, env);
    var part := PartPath(path);
    if path in f then
      var expected := ExpectedLength(url, env);
      if TruthyInt(expected) && BelowThreshold(f[path], expected.value) then Decision(f, Returned(Incomplete))
      else Decision(f, Returned(Passed))
    else
      match env.transfer
      case Failed(leftover) =>
        Decision(if leftover.Some? then f[part := leftover.value] else f, Raised)
      case Fetched(size) =>
        if env.renameOk then Decision((f - {part})[path := size], Returned(Downloaded))
        else Decision(f[part := size], Raised)
  }

  /** The item is flagged incomplete exactly when the destination exists,
      the URL is not a playlist, the probe gave a non-zero length, and the
      file holds less than 80% of it; the file system is then left as the
      cleanup made it. */
  lemma IncompleteExactly(files: map<Path, nat>, url: string, path: Path, env: ItemEnv)
    ensures Decide(files, url, path, env).attempt == Returned(Incomplete)
        <==> path in files && !IsPlaylist(url) && TruthyInt(env.probe)
             && BelowThreshold(files[path], env.probe.value)
    ensures Decide(files, url, path, env).attempt == Returned(Incomplete)
        ==> Decide(files, url, path, env).files == Cleanup(files, path, env)
  {
    PartPathDiffers(path);
  }

  /** An existing destination is never transferred again: it is kept as it
      is and the item is `passed` unless it is flagged incomplete. */
  lemma ExistingIsKept(files: map<Path, nat>, url: string, path: Path, env: ItemEnv)
    requires path in files
    ensures var d := Decide(files, url, path, env);
      && d.files == Cleanup(files, path, env)
      && path in d.files && d.files[path] == files[path]
      && (d.attempt == Returned(Passed) || d.attempt == Returned(Incomplete))
  {
    PartPathDiffers(path);
  }

  /** The answer of the length probe is irrelevant for a playlist URL, and
      such an item is never flagged incomplete. */
  lemma PlaylistNeverProbed(files: map<Path, nat>, url: string, path: Path, env: ItemEnv, probe: Option<int>)
    requires IsPlaylist(url)
    ensures Decide(files, url, path, env) == Decide(files, url, path, env.(probe := probe))
    ensures Decide(files, url, path, env).attempt != Returned(Incomplete)
  {
  }

  /** Whether deleting a leftover `.part` succeeds never changes the outcome. */
  lemma UnlinkFailureHarmless(files: map<Path, nat>, url: string, path: Path, env: ItemEnv, ok: bool)
    ensures Decide(files, url, path, env).attempt == Decide(files, url, path, env.(unlinkOk := ok)).attempt
  {
    PartPathDiffers(path);
  }

  /** A missing destination is downloaded exactly when the transfer and the
      rename both succeed; the destination then holds the transferred bytes
      and no `.part` file is left. */
  lemma DownloadedExactly(files: map<Path, nat>, url: string, path: Path, env: ItemEnv)
    ensures Decide(files, url, path, env).attempt == Returned(Downloaded)
        <==> path !in files && env.transfer.Fetched? && env.renameOk
    ensures Decide(files, url, path, env).attempt == Returned(Downloaded)
        ==> var f := Decide(files, url, path, env).files;
            path in f && f[path] == env.transfer.size && PartPath(path) !in f
  {
    PartPathDiffers(path);
  }

  /** A transfer that raised never creates the destination. */
  lemma RaisedLeavesNoDestination(files: map<Path, nat>, url: string, path: Path, env: ItemEnv)
    requires Decide(files, url, path, env).attempt == Raised
    ensures path !in files && path !in Decide(files, url, path, env).files
  {
    PartPathDiffers(path);
  }

  /** Running the same item again after a download never downloads it a
      second time; if the probe reports the size that was stored, it passes. */
  lemma SecondRunPasses(files: map<Path, nat>, url: string, path: Path, env: ItemEnv, env2: ItemEnv)
    requires Decide(files, url, path, env).attempt == Returned(Downloaded)
    ensures var f := Decide(files, url, path, env).files;
      && Decide(f, url, path, env2).attempt != Returned(Downloaded)
      && (env2.probe == Some(env.transfer.size) ==> Decide(f, url, path, env2).attempt == Returned(Passed))
  {
    DownloadedExactly(files, url, path, env);
    var f := Decide(files, url, path, env).files;
    ExistingIsKept(f, url, path, env2);
  }

  function StatusOf(a: Attempt): Status {
    match a
    case Returned(s) => s
    case Raised => Error
  }

  /** The per-kind counters of the statistics tracker. */
  datatype Counters = Counters(passed: nat, downloaded: nat, errors: nat)

  function Total(c: Counters): nat {
    c.passed + c.downloaded + c.errors
  }

  /** The counter dispatch: `downloaded` bumps the downloaded counter, any
      other returned status the passed counter, an exception the error
      counter. */
  function Bump(c: Counters, a: Attempt): (r: Counters)
    ensures Total(r) == Total(c) + 1
  {
    match a
    case Returned(Downloaded) => c.(downloaded := c.downloaded + 1)
    case Returned(_) => c.(passed := c.passed + 1)
    case Raised => c.(errors := c.errors + 1)
  }

  /** Metadata is forced away for every kind but videos. */
  function MetaFor(k: Kind, meta: Option<map<string, string>>): Option<map<string, string>> {
    if k == Video then meta else None
  }

  /** Metadata is written only after a completed download, when requested
      and when there is some. */
  predicate WritesMeta(saveMeta: bool, meta: Option<map<string, string>>, a: Attempt) {
    saveMeta && a == Returned(Downloaded) && meta.Some? && |meta.value| > 0
  }

  /** Everything the download manager can change: the files, the metadata
      writes, the counters and the tracker's list of incomplete files. */
  datatype Effects = Effects(
    files: map<Path, nat>,
    metadataLog: seq<Path>,
    counts: map<Kind, Counters>,
    incompleteFiles: seq<Path>)

  /** One call of `_get_file_and_raise_stat` for a known kind. */
  function ItemStep(e: Effects, k: Kind, url: string, path: Path, meta: Option<map<string, string>>, env: ItemEnv,
                    saveMeta: bool): (r: (Effects, Status))
    requires k in e.counts
    ensures r.0.counts.Keys == e.counts.Keys
  {
    var d := Decide(e.files, url, path, env);
    var a := d.attempt;
    (Effects(
       d.files,
       e.metadataLog + (if WritesMeta(saveMeta, MetaFor(k, meta), a) then [path] else []),
       e.counts[k := Bump(e.counts[k], a)],
       e.incompleteFiles + (if a == Returned(Incomplete) then [path] else [])),
     StatusOf(a))
  }

  /** The items of one kind, processed in order (the gathered tasks, run one
      after the other). */
  function Batch(e: Effects, k: Kind, base: Path, items: seq<Item>, saveMeta: bool): (r: (Effects, seq<Status>))
    requires k in e.counts
    ensures r.0.counts.Keys == e.counts.Keys
    ensures |r.1| == |items|
    decreases |items|
  {
    if items == [] then (e, [])
    else
      var n := |items| - 1;
      var prev := Batch(e, k, base, items[..n], saveMeta);
      var it := items[n];
      var step := ItemStep(prev.0, k, it.url, Destination(base, k, it.name), it.meta, it.env, saveMeta);
      (step.0, prev.1 + [step.1])
  }

  /** Extending a batch by the next item runs one more item step. */
  lemma BatchSnoc(e: Effects, k: Kind, base: Path, items: seq<Item>, i: nat, saveMeta: bool)
    requires k in e.counts && i < |items|
    ensures var prev := Batch(e, k, base, items[..i], saveMeta);
      var it := items[i];
      var step := ItemStep(prev.0, k, it.url, Destination(base, k, it.name), it.meta, it.env, saveMeta);
      Batch(e, k, base, items[..i + 1], saveMeta) == (step.0, prev.1 + [step.1])
  {
    assert items[..i + 1][..i] == items[..i];
  }

  /** The destinations whose result is `"incomplete"`, in item order. */
  function IncompletePaths(paths: seq<Path>, results: seq<Status>): (r: seq<Path>)
    requires |paths| == |results|
    decreases |paths|
  {
    if paths == [] then []
    else
      var n := |paths| - 1;
      IncompletePaths(paths[..n], results[..n]) + (if results[n] == Incomplete then [paths[n]] else [])
  }

  lemma {:induction false} IncompletePathsMembers(paths: seq<Path>, results: seq<Status>, p: Path)
    requires |paths| == |results|
    ensures p in IncompletePaths(paths, results)
        <==> exists i :: 0 <= i < |paths| && paths[i] == p && results[i] == Incomplete
    decreases |paths|
  {
    if paths != [] {
      var n := |paths| - 1;
      IncompletePathsMembers(paths[..n], results[..n], p);
      if p in IncompletePaths(paths[..n], results[..n]) {
        var i :| 0 <= i < n && paths[..n][i] == p && results[..n][i] == Incomplete;
        assert paths[i] == p && results[i] == Incomplete;
      }
    }
  }

  /** No incomplete path is reported exactly when no result is incomplete. */
  lemma {:induction false} IncompletePathsEmpty(paths: seq<Path>, results: seq<Status>)
    requires |paths| == |results|
    ensures IncompletePaths(paths, results) == [] <==> Incomplete !in results
    decreases |paths|
  {
    if paths != [] {
      var n := |paths| - 1;
      IncompletePathsEmpty(paths[..n], results[..n]);
      assert results == results[..n] + [results[n]];
    }
  }

  function Count(rs: seq<Status>, s: Status): nat
    decreases |rs|
  {
    if rs == [] then 0 else Count(rs[..|rs| - 1], s) + (if rs[|rs| - 1] == s then 1 else 0)
  }

  /** One item step bumps exactly the counter its status names, in its own
      kind only. */
  lemma StepCounts(e: Effects, k: Kind, url: string, path: Path, meta: Option<map<string, string>>, env: ItemEnv,
                   saveMeta: bool)
    requires k in e.counts
    ensures var r := ItemStep(e, k, url, path, meta, env, saveMeta);
      && (forall k' :: k' in e.counts && k' != k ==> r.0.counts[k'] == e.counts[k'])
      && r.0.counts[k].downloaded == e.counts[k].downloaded + (if r.1 == Downloaded then 1 else 0)
      && r.0.counts[k].passed == e.counts[k].passed + (if r.1 == Passed || r.1 == Incomplete then 1 else 0)
      && r.0.counts[k].errors == e.counts[k].errors + (if r.1 == Error then 1 else 0)
  {
    var a := Decide(e.files, url, path, env).attempt;
    assert a != Returned(Error);
  }

  /** A batch leaves the counters of every other kind untouched. */
  lemma {:induction false} BatchOtherKinds(e: Effects, k: Kind, base: Path, items: seq<Item>, saveMeta: bool)
    requires k in e.counts
    ensures var r := Batch(e, k, base, items, saveMeta);
      forall k' :: k' in e.counts && k' != k ==> r.0.counts[k'] == e.counts[k']
    decreases |items|
  {
    if items != [] {
      var n := |items| - 1;
      BatchOtherKinds(e, k, base, items[..n], saveMeta);
      var prev := Batch(e, k, base, items[..n], saveMeta);
      var it := items[n];
      StepCounts(prev.0, k, it.url, Destination(base, k, it.name), it.meta, it.env, saveMeta);
    }
  }

  /** A batch bumps one counter of its kind per item. */
  lemma {:induction false} BatchTotal(e: Effects, k: Kind, base: Path, items: seq<Item>, saveMeta: bool)
    requires k in e.counts
    ensures var r := Batch(e, k, base, items, saveMeta);
      Total(r.0.counts[k]) == Total(e.counts[k]) + |items|
    decreases |items|
  {
    if items != [] {
      var n := |items| - 1;
      BatchTotal(e, k, base, items[..n], saveMeta);
      var prev := Batch(e, k, base, items[..n], saveMeta);
      var it := items[n];
      StepCounts(prev.0, k, it.url, Destination(base, k, it.name), it.meta, it.env, saveMeta);
    }
  }

  /** Each item bumps exactly one counter of its own kind: the downloaded
      counter grows by the number of `downloaded` results, the passed
      counter by the `passed` and `incomplete` ones, the error counter by
      the `error` ones; the other kinds' counters are untouched. */
  lemma {:induction false} BatchCounts(e: Effects, k: Kind, base: Path, items: seq<Item>, saveMeta: bool)
    requires k in e.counts
    ensures var r := Batch(e, k, base, items, saveMeta);
      && (forall k' :: k' in e.counts && k' != k ==> r.0.counts[k'] == e.counts[k'])
      && r.0.counts[k].downloaded == e.counts[k].downloaded + Count(r.1, Downloaded)
      && r.0.counts[k].passed == e.counts[k].passed + Count(r.1, Passed) + Count(r.1, Incomplete)
      && r.0.counts[k].errors == e.counts[k].errors + Count(r.1, Error)
    decreases |items|
  {
    BatchOtherKinds(e, k, base, items, saveMeta);
    if items != [] {
      var n := |items| - 1;
      BatchCounts(e, k, base, items[..n], saveMeta);
      var prev := Batch(e, k, base, items[..n], saveMeta);
      var it := items[n];
      StepCounts(prev.0, k, it.url, Destination(base, k, it.name), it.meta, it.env, saveMeta);
      var r := Batch(e, k, base, items, saveMeta);
      assert r.1[..n] == prev.1;
    }
  }

  /** The tracker's global list of incomplete files grows by exactly the
      incomplete paths the batch returns. */
  lemma {:induction false} BatchIncompleteAgrees(e: Effects, k: Kind, base: Path, items: seq<Item>, saveMeta: bool)
    requires k in e.counts
    ensures var r := Batch(e, k, base, items, saveMeta);
      r.0.incompleteFiles == e.incompleteFiles + IncompletePaths(Destinations(base, k, items), r.1)
    decreases |items|
  {
    if items != [] {
      var n := |items| - 1;
      BatchIncompleteAgrees(e, k, base, items[..n], saveMeta);
      var prev := Batch(e, k, base, items[..n], saveMeta);
      var r := Batch(e, k, base, items, saveMeta);
      var ps := Destinations(base, k, items);
      assert ps[..n] == Destinations(base, k, items[..n]);
      assert r.1[..n] == prev.1;
    }
  }

  /** The file system: file sizes by path, and the paths metadata was
      written to. Directories are not represented. */
  class FileSystem {
    var files: map<Path, nat>
    var metadataLog: seq<Path>

    constructor (files: map<Path, nat>)
      ensures this.files == files && metadataLog == []
    {
      this.files := files;
      metadataLog := [];
    }
  }

  /** The shared statistics tracker: per-kind counters and the list of
      files found incomplete. */
  class StatTracker {
    var counts: map<Kind, Counters>
    var incompleteFiles: seq<Path>

    ghost predicate Valid()
      reads this
    {
      forall k: Kind :: k in counts
    }

    constructor ()
      ensures Valid() && incompleteFiles == []
      ensures forall k: Kind :: counts[k] == Counters(0, 0, 0)
    {
      var zero := Counters(0, 0, 0);
      counts := map[Photo := zero, Video := zero, Audio := zero, File := zero];
      incompleteFiles := [];
      new;
      forall k: Kind ensures k in counts && counts[k] == zero {
        match k
        case Photo =>
        case Video =>
        case Audio =>
        case File =>
      }
    }

    method Record(k: Kind, a: Attempt)
      requires Valid()
      modifies this
      ensures Valid() && incompleteFiles == old(incompleteFiles)
      ensures counts == old(counts)[k := Bump(old(counts[k]), a)]
    {
      counts := counts[k := Bump(counts[k], a)];
    }

    method AddIncompleteFile(p: Path)
      modifies this
      ensures counts == old(counts) && incompleteFiles == old(incompleteFiles) + [p]
    {
      incompleteFiles := incompleteFiles + [p];
    }
  }

  ghost function Snapshot(fs: FileSystem, stats: StatTracker): Effects
    reads fs, stats
  {
    Effects(fs.files, fs.metadataLog, stats.counts, stats.incompleteFiles)
  }

  /** The media types a page of the media feed holds. */
  datatype ContentType = Image | VideoContent | AudioContent

  function KindOfContent(t: ContentType): Kind {
    match t
    case Image => Photo
    case VideoContent => Video
    case AudioContent => Audio
  }

  /** One downloader per pool and destination base. The semaphore that bounds
      parallel transfers has no counterpart: items run one after the other. */
  class Downloader {
    const pool: MediaPool
    const basePath: Path
    const maxParallel: int
    const saveMeta: bool
    const fs: FileSystem
    const stats: StatTracker

    constructor (pool: MediaPool, basePath: Path, maxParallel: int, saveMeta: bool, fs: FileSystem, stats: StatTracker)
      ensures this.pool == pool && this.basePath == basePath && this.maxParallel == maxParallel
      ensures this.saveMeta == saveMeta && this.fs == fs && this.stats == stats
    {
      this.pool := pool;
      this.basePath := basePath;
      this.maxParallel := maxParallel;
      this.saveMeta := saveMeta;
      this.fs := fs;
      this.stats := stats;
    }

    /** `_download_file_if_not_exists`: returns the status, or `Raised` where
        the source raises. */
    method DownloadFileIfNotExists(url: string, path: Path, meta: Option<map<string, string>>, env: ItemEnv)
      returns (a: Attempt)
      modifies fs, stats
      ensures Decision(fs.files, a) == Decide(old(fs.files), url, path, env)
      ensures stats.counts == old(stats.counts)
      ensures stats.incompleteFiles == old(stats.incompleteFiles) + (if a == Returned(Incomplete) then [path] else [])
      ensures fs.metadataLog == old(fs.metadataLog) + (if WritesMeta(saveMeta, meta, a) then [path] else [])
    {
      PartPathDiffers(path);
      var part := PartPath(path);
      if part in fs.files {
        if env.unlinkOk {
          fs.files := fs.files - {part};
        }
      }
      if path in fs.files {
        var expected: Option<int> := None;
        if !Contains(Lower(url), ".m3u8") {
          expected := env.probe;
        }
        if TruthyInt(expected) {
          var actual := fs.files[path];
          if 5 * actual < 4 * expected.value {
            stats.AddIncompleteFile(path);
            return Returned(Incomplete);
          }
        }
        return Returned(Passed);
      }
      match env.transfer {
        case Failed(leftover) =>
          if leftover.Some? {
            fs.files := fs.files[part := leftover.value];
          }
          return Raised;
        case Fetched(size) =>
          fs.files := fs.files[part := size];
          if !env.renameOk {
            return Raised;
          }
          fs.files := (fs.files - {part})[path := size];
          if saveMeta && meta.Some? && |meta.value| > 0 {
            fs.metadataLog := fs.metadataLog + [path];
          }
          return Returned(Downloaded);
      }
    }

    /** `_get_file_and_raise_stat`: an unknown code returns nothing and
        touches nothing; otherwise one item is processed and exactly one
        counter of its kind is bumped. */
    method GetFileAndRaiseStat(url: string, path: Path, code: char, meta: Option<map<string, string>>, env: ItemEnv)
      returns (r: Option<Status>)
      requires stats.Valid()
      modifies fs, stats
      ensures stats.Valid()
      ensures KindOf(code).None? ==> r.None? && Snapshot(fs, stats) == old(Snapshot(fs, stats))
      ensures KindOf(code).Some? ==>
        var step := ItemStep(old(Snapshot(fs, stats)), KindOf(code).value, url, path, meta, env, saveMeta);
        Snapshot(fs, stats) == step.0 && r == Some(step.1)
    {
      var k := KindOf(code);
      if k.None? {
        return None;
      }
      var m := MetaFor(k.value, meta);
      var a := DownloadFileIfNotExists(url, path, m, env);
      stats.Record(k.value, a);
      r := Some(StatusOf(a));
    }

    /** `download_photos`, `download_videos`, `download_audios` and
        `download_files`: every item of one kind, one result per item, and
        the destinations whose result is incomplete. */
    method DownloadKind(k: Kind) returns (results: seq<Status>, incomplete: seq<Path>)
      requires stats.Valid()
      modifies fs, stats
      ensures stats.Valid()
      ensures var r := Batch(old(Snapshot(fs, stats)), k, basePath, ItemsOf(pool, k), saveMeta);
        Snapshot(fs, stats) == r.0 && results == r.1
      ensures incomplete == IncompletePaths(Destinations(basePath, k, ItemsOf(pool, k)), results)
    {
      var items := ItemsOf(pool, k);
      var paths := Destinations(basePath, k, items);
      ghost var e0 := Snapshot(fs, stats);
      results := [];
      var i := 0;
      while i < |items|
        invariant 0 <= i <= |items|
        invariant stats.Valid()
        invariant Batch(e0, k, basePath, items[..i], saveMeta) == (Snapshot(fs, stats), results)
      {
        results := DownloadItem(k, items, i, results, e0);
        i := i + 1;
      }
      assert items[..i] == items;
      incomplete := IncompletePaths(paths, results);
    }

    /** One item of a per-kind loop: the batch so far grows by that item. */
    method DownloadItem(k: Kind, items: seq<Item>, i: nat, results: seq<Status>, ghost e0: Effects)
      returns (results': seq<Status>)
      requires i < |items| && stats.Valid() && k in e0.counts
      requires Batch(e0, k, basePath, items[..i], saveMeta) == (Snapshot(fs, stats), results)
      modifies fs, stats
      ensures stats.Valid()
      ensures Batch(e0, k, basePath, items[..i + 1], saveMeta) == (Snapshot(fs, stats), results')
    {
      var r := GetFileAndRaiseStat(items[i].url, Destination(basePath, k, items[i].name), CodeOf(k), items[i].meta, items[i].env);
      BatchSnoc(e0, k, basePath, items, i, saveMeta);
      results' := results + [r.value];
    }

    /** `download_by_content_type`: the media feed's type picks the kind. */
    method DownloadByContentType(t: ContentType)
      requires stats.Valid()
      modifies fs, stats
      ensures stats.Valid()
      ensures Snapshot(fs, stats)
           == Batch(old(Snapshot(fs, stats)), KindOfContent(t), basePath, ItemsOf(pool, KindOfContent(t)), saveMeta).0
    {
      var _, _ := DownloadKind(KindOfContent(t));
    }
  }
}
