/** What core/launchers.py does for one post, in both the posts feed and the
    single-post mode: pick its directory (the stored or masqueraded one, or
    the post id), then run the enabled per-kind downloads into it. */
module Posts {
  import opened Common
  import opened Downloader
  import Registry

  /** A post of the feed: its id, its title and that title made safe as a
      directory name, its text and its attached media. */
  datatype Post = Post(id: string, title: string, safeTitle: string, text: string, pool: MediaPool)

  /** The configuration switches the launchers consult. */
  datatype Config = Config(
    needPhoto: bool,
    needVideo: bool,
    needAudio: bool,
    needFiles: bool,
    useCookie: bool,
    masquerade: bool,
    saveMeta: bool,
    maxParallel: int)

  /** Whether a post's per-kind task for `k` is built: photos and videos
      whenever enabled, audios and attached files only with authorisation. */
  predicate Wanted(cfg: Config, k: Kind) {
    match k
    case Photo => cfg.needPhoto
    case Video => cfg.needVideo
    case Audio => cfg.needAudio && cfg.useCookie
    case File => cfg.needFiles && cfg.useCookie
  }

  predicate Distinct(ks: seq<Kind>) {
    ks == [] || (ks[0] !in ks[1..] && Distinct(ks[1..]))
  }

  /** The kinds of `order` that are wanted, in the same order. */
  function Select(cfg: Config, order: seq<Kind>): (ks: seq<Kind>)
    ensures forall k :: k in ks <==> k in order && Wanted(cfg, k)
    ensures Distinct(order) ==> Distinct(ks)
  {
    if order == [] then []
    else
      var rest := Select(cfg, order[1..]);
      if Wanted(cfg, order[0]) then
        assert ([order[0]] + rest)[1..] == rest;
        [order[0]] + rest
      else rest
  }

  /** The download tasks built for a post, in task order: each wanted kind
      exactly once. */
  function EnabledKinds(cfg: Config): (ks: seq<Kind>)
    ensures forall k :: k in ks <==> Wanted(cfg, k)
    ensures Distinct(ks)
  {
    var order := [Photo, Video, Audio, File];
    assert order[1..] == [Video, Audio, File] && order[1..][1..] == [Audio, File] && order[1..][1..][1..] == [File];
    assert Distinct([File]) && Distinct([Audio, File]) && Distinct([Video, Audio, File]);
    Select(cfg, order)
  }

  /** Every kind has its counters. */
  ghost predicate AllKinds(counts: map<Kind, Counters>) {
    forall k: Kind :: k in counts
  }

  lemma SameKeysAllKinds(a: map<Kind, Counters>, b: map<Kind, Counters>)
    requires AllKinds(a) && a.Keys == b.Keys
    ensures AllKinds(b)
  {
    forall k: Kind ensures k in b {
      assert k in a.Keys;
    }
  }

  /** The number of items the given kinds of a pool hold. */
  function ItemCount(pool: MediaPool, kinds: seq<Kind>): nat
    decreases |kinds|
  {
    if kinds == [] then 0 else ItemCount(pool, kinds[..|kinds| - 1]) + |ItemsOf(pool, kinds[|kinds| - 1])|
  }

  /** The per-kind downloads of one post, run one after the other: the
      effects, the statuses of all items, and their incomplete paths. */
  function KindsRun(e: Effects, pool: MediaPool, base: Path, kinds: seq<Kind>, saveMeta: bool)
    : (r: (Effects, seq<Status>, seq<Path>))
    requires AllKinds(e.counts)
    ensures AllKinds(r.0.counts)
    ensures |r.1| == ItemCount(pool, kinds)
    decreases |kinds|
  {
    if kinds == [] then (e, [], [])
    else
      var n := |kinds| - 1;
      var prev := KindsRun(e, pool, base, kinds[..n], saveMeta);
      var k := kinds[n];
      var b := Batch(prev.0, k, base, ItemsOf(pool, k), saveMeta);
      (b.0, prev.1 + b.1, prev.2 + IncompletePaths(Destinations(base, k, ItemsOf(pool, k)), b.1))
  }

  /** Extending the kinds by one more runs that kind's batch. */
  lemma KindsRunSnoc(e: Effects, pool: MediaPool, base: Path, kinds: seq<Kind>, i: nat, saveMeta: bool)
    requires AllKinds(e.counts) && i < |kinds|
    ensures var prev := KindsRun(e, pool, base, kinds[..i], saveMeta);
      var k := kinds[i];
      var b := Batch(prev.0, k, base, ItemsOf(pool, k), saveMeta);
      KindsRun(e, pool, base, kinds[..i + 1], saveMeta)
        == (b.0, prev.1 + b.1, prev.2 + IncompletePaths(Destinations(base, k, ItemsOf(pool, k)), b.1))
  {
    assert kinds[..i + 1][..i] == kinds[..i];
  }

  /** A post reports incomplete paths exactly when one of its items is
      incomplete, so the lonely-post test "incomplete status or incomplete
      paths" is the same as either half alone. */
  lemma {:induction false} KindsRunIncomplete(e: Effects, pool: MediaPool, base: Path, kinds: seq<Kind>, saveMeta: bool)
    requires AllKinds(e.counts)
    ensures var r := KindsRun(e, pool, base, kinds, saveMeta);
      r.2 == [] <==> Incomplete !in r.1
    decreases |kinds|
  {
    if kinds != [] {
      var n := |kinds| - 1;
      KindsRunIncomplete(e, pool, base, kinds[..n], saveMeta);
      var prev := KindsRun(e, pool, base, kinds[..n], saveMeta);
      var k := kinds[n];
      var b := Batch(prev.0, k, base, ItemsOf(pool, k), saveMeta);
      IncompletePathsEmpty(Destinations(base, k, ItemsOf(pool, k)), b.1);
    }
  }

  /** Every item of every enabled kind bumps exactly one counter. */
  lemma {:induction false} KindsRunCounts(e: Effects, pool: MediaPool, base: Path, kinds: seq<Kind>, saveMeta: bool)
    requires AllKinds(e.counts)
    ensures var r := KindsRun(e, pool, base, kinds, saveMeta);
      GrandTotal(r.0.counts) == GrandTotal(e.counts) + ItemCount(pool, kinds)
    decreases |kinds|
  {
    if kinds != [] {
      var n := |kinds| - 1;
      KindsRunCounts(e, pool, base, kinds[..n], saveMeta);
      var prev := KindsRun(e, pool, base, kinds[..n], saveMeta);
      BatchGrandTotal(prev.0, kinds[n], base, ItemsOf(pool, kinds[n]), saveMeta);
    }
  }

  /** The sum of all counters of all kinds. */
  ghost function GrandTotal(counts: map<Kind, Counters>): nat
    requires AllKinds(counts)
  {
    Total(counts[Photo]) + Total(counts[Video]) + Total(counts[Audio]) + Total(counts[File])
  }

  lemma BatchGrandTotal(e: Effects, k: Kind, base: Path, items: seq<Item>, saveMeta: bool)
    requires AllKinds(e.counts)
    ensures var r := Batch(e, k, base, items, saveMeta);
      AllKinds(r.0.counts) && GrandTotal(r.0.counts) == GrandTotal(e.counts) + |items|
  {
    BatchOtherKinds(e, k, base, items, saveMeta);
    BatchTotal(e, k, base, items, saveMeta);
  }

  /** The directory a post's files go to: the registry's answer in
      masquerade mode, `<posts>/<post id>` otherwise. */
  function PostDir(rows: map<string, Registry.Entry>, cfg: Config, postsPath: Path, post: Post): Path
  {
    if cfg.masquerade then Registry.MasqueradePath(rows, postsPath, post.id, post.title, post.safeTitle)
    else JoinPath(postsPath, post.id)
  }

  function PostRows(rows: map<string, Registry.Entry>, cfg: Config, creator: string, postsPath: Path, post: Post): map<string, Registry.Entry>
  {
    if cfg.masquerade then Registry.MasqueradeRows(rows, creator, postsPath, post.id, post.title, post.safeTitle)
    else rows
  }

  /** What processing posts changes: the download effects and the registry
      rows. */
  datatype FeedState = FeedState(effects: Effects, rows: map<string, Registry.Entry>)

  /** One post processed against state `st`: the new state, every item's
      status and the incomplete paths. */
  function PostStep(st: FeedState, post: Post, cfg: Config, creator: string, postsPath: Path)
    : (r: (FeedState, seq<Status>, seq<Path>))
    requires AllKinds(st.effects.counts)
    ensures AllKinds(r.0.effects.counts)
  {
    var path := PostDir(st.rows, cfg, postsPath, post);
    var k := KindsRun(st.effects, post.pool, path, EnabledKinds(cfg), cfg.saveMeta);
    (FeedState(k.0, PostRows(st.rows, cfg, creator, postsPath, post)), k.1, k.2)
  }

  /** Posts processed one after the other. */
  function PostsRun(st: FeedState, posts: seq<Post>, cfg: Config, creator: string, postsPath: Path): (r: FeedState)
    requires AllKinds(st.effects.counts)
    ensures AllKinds(r.effects.counts)
    decreases |posts|
  {
    if posts == [] then st
    else
      var n := |posts| - 1;
      PostStep(PostsRun(st, posts[..n], cfg, creator, postsPath), posts[n], cfg, creator, postsPath).0
  }

  /** One more post runs that post's step. */
  lemma PostsRunSnoc(st: FeedState, done: seq<Post>, post: Post, cfg: Config, creator: string, postsPath: Path)
    requires AllKinds(st.effects.counts)
    ensures PostsRun(st, done + [post], cfg, creator, postsPath)
         == PostStep(PostsRun(st, done, cfg, creator, postsPath), post, cfg, creator, postsPath).0
  {
    assert (done + [post])[..|done|] == done;
  }

  /** The number of items the enabled kinds of the given posts hold. */
  function PostItems(posts: seq<Post>, cfg: Config): nat
    decreases |posts|
  {
    if posts == [] then 0
    else PostItems(posts[..|posts| - 1], cfg) + ItemCount(posts[|posts| - 1].pool, EnabledKinds(cfg))
  }

  /** Every item of every enabled kind of every post bumps exactly one
      counter. */
  lemma {:induction false} PostsRunCounts(st: FeedState, posts: seq<Post>, cfg: Config, creator: string, postsPath: Path)
    requires AllKinds(st.effects.counts)
    ensures GrandTotal(PostsRun(st, posts, cfg, creator, postsPath).effects.counts)
         == GrandTotal(st.effects.counts) + PostItems(posts, cfg)
    decreases |posts|
  {
    if posts != [] {
      var n := |posts| - 1;
      PostsRunCounts(st, posts[..n], cfg, creator, postsPath);
      var prev := PostsRun(st, posts[..n], cfg, creator, postsPath);
      var path := PostDir(prev.rows, cfg, postsPath, posts[n]);
      KindsRunCounts(prev.effects, posts[n].pool, path, EnabledKinds(cfg), cfg.saveMeta);
    }
  }

  /** The registry rows after resolving the given posts in turn. */
  function RowsRun(rows: map<string, Registry.Entry>, posts: seq<Post>, cfg: Config, creator: string, postsPath: Path): map<string, Registry.Entry>
    decreases |posts|
  {
    if posts == [] then rows
    else
      var n := |posts| - 1;
      PostRows(RowsRun(rows, posts[..n], cfg, creator, postsPath), cfg, creator, postsPath, posts[n])
  }

  /** The registry part of a run of posts depends on the rows alone. */
  lemma {:induction false} PostsRunRows(st: FeedState, posts: seq<Post>, cfg: Config, creator: string, postsPath: Path)
    requires AllKinds(st.effects.counts)
    ensures PostsRun(st, posts, cfg, creator, postsPath).rows == RowsRun(st.rows, posts, cfg, creator, postsPath)
    decreases |posts|
  {
    if posts != [] {
      PostsRunRows(st, posts[..|posts| - 1], cfg, creator, postsPath);
    }
  }

  /** Rows that existed keep their directory; without masquerade the
      registry is untouched. */
  lemma {:induction false} RowsRunKeeps(rows: map<string, Registry.Entry>, posts: seq<Post>, cfg: Config,
                                        creator: string, postsPath: Path)
    ensures var r := RowsRun(rows, posts, cfg, creator, postsPath);
      && (forall id :: id in rows ==> id in r && r[id] == rows[id])
      && (!cfg.masquerade ==> r == rows)
    decreases |posts|
  {
    if posts != [] {
      RowsRunKeeps(rows, posts[..|posts| - 1], cfg, creator, postsPath);
    }
  }

  /** In masquerade mode every resolved post has a row. */
  lemma {:induction false} RowsRunCovers(rows: map<string, Registry.Entry>, posts: seq<Post>, cfg: Config,
                                         creator: string, postsPath: Path)
    requires cfg.masquerade
    ensures forall i :: 0 <= i < |posts| ==> posts[i].id in RowsRun(rows, posts, cfg, creator, postsPath)
    decreases |posts|
  {
    if posts != [] {
      var n := |posts| - 1;
      RowsRunCovers(rows, posts[..n], cfg, creator, postsPath);
      forall i | 0 <= i < n
        ensures posts[i].id in RowsRun(rows, posts[..n], cfg, creator, postsPath)
      {
        assert posts[..n][i] == posts[i];
      }
    }
  }

  /** No row appears for an id that was not resolved. */
  lemma {:induction false} RowsRunOnlyPosts(rows: map<string, Registry.Entry>, posts: seq<Post>, cfg: Config,
                                            creator: string, postsPath: Path)
    ensures forall id :: id in RowsRun(rows, posts, cfg, creator, postsPath) ==>
      id in rows || exists i :: 0 <= i < |posts| && posts[i].id == id
    decreases |posts|
  {
    if posts != [] {
      var n := |posts| - 1;
      RowsRunOnlyPosts(rows, posts[..n], cfg, creator, postsPath);
      var prev := RowsRun(rows, posts[..n], cfg, creator, postsPath);
      forall id | id in RowsRun(rows, posts, cfg, creator, postsPath)
        ensures id in rows || exists i :: 0 <= i < |posts| && posts[i].id == id
      {
        if id !in prev {
          assert posts[n].id == id;
        } else if id !in rows {
          var i :| 0 <= i < n && posts[..n][i].id == id;
          assert posts[i].id == id;
        }
      }
    }
  }

  /** The registry after a run of posts: rows that existed keep their
      directory, in masquerade mode every processed post has a row, and no
      row appears for an id that was not processed; without masquerade the
      registry is untouched. */
  lemma PostsRunRegisters(st: FeedState, posts: seq<Post>, cfg: Config, creator: string,
                          postsPath: Path)
    requires AllKinds(st.effects.counts)
    ensures var r := PostsRun(st, posts, cfg, creator, postsPath);
      && (forall id :: id in st.rows ==> id in r.rows && r.rows[id] == st.rows[id])
      && (cfg.masquerade ==> forall i :: 0 <= i < |posts| ==> posts[i].id in r.rows)
      && (forall id :: id in r.rows ==> id in st.rows || exists i :: 0 <= i < |posts| && posts[i].id == id)
      && (!cfg.masquerade ==> r.rows == st.rows)
  {
    PostsRunRows(st, posts, cfg, creator, postsPath);
    RowsRunKeeps(st.rows, posts, cfg, creator, postsPath);
    RowsRunOnlyPosts(st.rows, posts, cfg, creator, postsPath);
    if cfg.masquerade {
      RowsRunCovers(st.rows, posts, cfg, creator, postsPath);
    }
  }

  /** One post: resolve its directory, then run the enabled downloads and
      collect every item's status and the incomplete paths. */
  method ProcessPost(post: Post, cfg: Config, creator: string, postsPath: Path,
                     db: Registry.PostDb, fs: FileSystem, stats: StatTracker)
    returns (path: Path, statuses: seq<Status>, incomplete: seq<Path>)
    requires stats.Valid()
    modifies db, fs, stats
    ensures stats.Valid()
    ensures path == PostDir(old(db.rows), cfg, postsPath, post)
    ensures (FeedState(Snapshot(fs, stats), db.rows), statuses, incomplete)
         == PostStep(FeedState(old(Snapshot(fs, stats)), old(db.rows)), post, cfg, creator, postsPath)
  {
    path := JoinPath(postsPath, post.id);
    if cfg.masquerade {
      path := Registry.ResolvePostPath(db, creator, postsPath, post.id, post.title, post.safeTitle);
    }
    var dl := new Downloader(post.pool, path, cfg.maxParallel, cfg.saveMeta, fs, stats);
    statuses, incomplete := GatherKinds(dl, EnabledKinds(cfg));
  }

  /** The gathered per-kind tasks of a post and the loop that concatenates
      their results: every item's status and the incomplete paths, kind by
      kind in task order. */
  method GatherKinds(dl: Downloader, kinds: seq<Kind>) returns (statuses: seq<Status>, incomplete: seq<Path>)
    requires dl.stats.Valid()
    modifies dl.fs, dl.stats
    ensures dl.stats.Valid()
    ensures var r := KindsRun(old(Snapshot(dl.fs, dl.stats)), dl.pool, dl.basePath, kinds, dl.saveMeta);
      Snapshot(dl.fs, dl.stats) == r.0 && statuses == r.1 && incomplete == r.2
  {
    ghost var e0 := Snapshot(dl.fs, dl.stats);
    statuses, incomplete := [], [];
    var i := 0;
    while i < |kinds|
      invariant 0 <= i <= |kinds|
      invariant dl.stats.Valid()
      invariant KindsRun(e0, dl.pool, dl.basePath, kinds[..i], dl.saveMeta) == (Snapshot(dl.fs, dl.stats), statuses, incomplete)
    {
      var rs, inc := dl.DownloadKind(kinds[i]);
      KindsRunSnoc(e0, dl.pool, dl.basePath, kinds, i, dl.saveMeta);
      statuses := statuses + rs;
      incomplete := incomplete + inc;
      i := i + 1;
    }
    assert kinds[..i] == kinds;
  }
}
