/** `fetch_and_save_lonely_post` in core/launchers.py: one post fetched by
    id, its posts processed like the posts feed's, and the per-post outcomes
    folded into three flags that decide the single status reported to the
    batch driver. */
module LonelyPost {
  import opened Common
  import opened Downloader
  import opened Posts
  import opened SyncStore
  import Registry

  /** What one post's downloads report: every item's status and the
      destinations left incomplete. */
  datatype PostOutcome = PostOutcome(statuses: seq<Status>, incomplete: seq<Path>)

  /** The three flags the loop accumulates. */
  datatype Flags = Flags(anyDownloaded: bool, anyErrors: bool, anySkipped: bool)

  const NoFlags := Flags(false, false, false)

  /** `has_incomplete`: an item reported incomplete, or paths came back. */
  predicate HasIncomplete(o: PostOutcome) {
    Incomplete in o.statuses || o.incomplete != []
  }

  /** The flag update after one post. */
  function Note(f: Flags, o: PostOutcome): Flags {
    var hasDownloaded := Downloaded in o.statuses;
    var hasError := Error in o.statuses;
    var f1 := if hasError then f.(anyErrors := true) else f;
    var f2 :=
      if !hasDownloaded && !hasError then f1.(anySkipped := true)
      else if hasDownloaded && !hasError then f1.(anyDownloaded := true)
      else f1;
    if HasIncomplete(o) then f2.(anySkipped := true) else f2
  }

  /** The flags and the collected incomplete paths after the given
      outcomes, one post after the other. */
  function Aggregate(outs: seq<PostOutcome>): (Flags, seq<Path>)
    decreases |outs|
  {
    if outs == [] then (NoFlags, [])
    else
      var n := |outs| - 1;
      var prev := Aggregate(outs[..n]);
      (Note(prev.0, outs[n]), if HasIncomplete(outs[n]) then prev.1 + outs[n].incomplete else prev.1)
  }

  /** The status the flags decide: errors first, then downloads, then
      skips; `"ok"` when no flag is set. */
  function Verdict(f: Flags): string {
    if f.anyErrors then "error"
    else if f.anyDownloaded then "downloaded"
    else if f.anySkipped then "skipped"
    else "ok"
  }

  /** Every post's incomplete paths, in post order. */
  function AllIncomplete(outs: seq<PostOutcome>): seq<Path>
    decreases |outs|
  {
    if outs == [] then [] else AllIncomplete(outs[..|outs| - 1]) + outs[|outs| - 1].incomplete
  }

  lemma AggregateSnoc(outs: seq<PostOutcome>, o: PostOutcome)
    ensures var prev := Aggregate(outs);
      Aggregate(outs + [o]) == (Note(prev.0, o), if HasIncomplete(o) then prev.1 + o.incomplete else prev.1)
  {
    assert (outs + [o])[..|outs|] == outs;
  }

  /** The error flag is set exactly when some post had an item error. */
  lemma {:induction false} AggregateErrors(outs: seq<PostOutcome>)
    ensures Aggregate(outs).0.anyErrors <==> exists o :: o in outs && Error in o.statuses
    decreases |outs|
  {
    if outs != [] {
      var n := |outs| - 1;
      AggregateErrors(outs[..n]);
      assert outs == outs[..n] + [outs[n]];
    }
  }

  /** The download flag is set exactly when some post downloaded an item
      and had no item error. */
  lemma {:induction false} AggregateDownloaded(outs: seq<PostOutcome>)
    ensures Aggregate(outs).0.anyDownloaded <==>
      exists o :: o in outs && Downloaded in o.statuses && Error !in o.statuses
    decreases |outs|
  {
    if outs != [] {
      var n := |outs| - 1;
      AggregateDownloaded(outs[..n]);
      assert outs == outs[..n] + [outs[n]];
    }
  }

  /** Whether one post counts as skipped: nothing downloaded and no error,
      or something left incomplete. */
  predicate Skipped(o: PostOutcome) {
    (Downloaded !in o.statuses && Error !in o.statuses) || HasIncomplete(o)
  }

  /** The skip flag is set exactly when some post counts as skipped. */
  lemma {:induction false} AggregateSkipped(outs: seq<PostOutcome>)
    ensures Aggregate(outs).0.anySkipped <==> exists o :: o in outs && Skipped(o)
    decreases |outs|
  {
    if outs != [] {
      var n := |outs| - 1;
      AggregateSkipped(outs[..n]);
      assert Aggregate(outs).0.anySkipped == (Aggregate(outs[..n]).0.anySkipped || Skipped(outs[n]));
      assert outs == outs[..n] + [outs[n]];
    }
  }

  /** The collected paths are all posts' incomplete paths in order: the
      `has_incomplete` guard never drops any. */
  lemma {:induction false} AggregateFiles(outs: seq<PostOutcome>)
    ensures Aggregate(outs).1 == AllIncomplete(outs)
    decreases |outs|
  {
    if outs != [] {
      AggregateFiles(outs[..|outs| - 1]);
    }
  }

  /** Every post sets at least one flag. */
  lemma {:induction false} AggregateSetsAFlag(outs: seq<PostOutcome>)
    ensures var f := Aggregate(outs).0;
      outs != [] <==> f.anyErrors || f.anyDownloaded || f.anySkipped
    decreases |outs|
  {
    if outs != [] {
      AggregateSetsAFlag(outs[..|outs| - 1]);
    }
  }

  /** The status of a single-post download in terms of its posts: `"error"`
      when any item of any post failed; otherwise `"downloaded"` when any
      item was downloaded; otherwise `"skipped"` when there was a post at
      all; `"ok"` only for no posts. */
  lemma LonelyVerdict(outs: seq<PostOutcome>)
    ensures var v := Verdict(Aggregate(outs).0);
      && (v == "error" <==> exists o :: o in outs && Error in o.statuses)
      && (v == "downloaded" <==>
            (forall o :: o in outs ==> Error !in o.statuses) && exists o :: o in outs && Downloaded in o.statuses)
      && (v == "skipped" <==>
            outs != [] && forall o :: o in outs ==> Error !in o.statuses && Downloaded !in o.statuses)
      && (v == "ok" <==> outs == [])
  {
    AggregateErrors(outs);
    AggregateDownloaded(outs);
    AggregateSetsAFlag(outs);
  }

  /** The posts processed one after the other, with each post's outcome. */
  function LonelyRun(st: FeedState, posts: seq<Post>, cfg: Config, creator: string, postsPath: Path)
    : (r: (FeedState, seq<PostOutcome>))
    requires AllKinds(st.effects.counts)
    ensures AllKinds(r.0.effects.counts) && |r.1| == |posts|
    decreases |posts|
  {
    if posts == [] then (st, [])
    else
      var n := |posts| - 1;
      var prev := LonelyRun(st, posts[..n], cfg, creator, postsPath);
      var s := PostStep(prev.0, posts[n], cfg, creator, postsPath);
      (s.0, prev.1 + [PostOutcome(s.1, s.2)])
  }

  lemma LonelyRunSnoc(st: FeedState, done: seq<Post>, post: Post, cfg: Config, creator: string, postsPath: Path)
    requires AllKinds(st.effects.counts)
    ensures var prev := LonelyRun(st, done, cfg, creator, postsPath);
      var s := PostStep(prev.0, post, cfg, creator, postsPath);
      LonelyRun(st, done + [post], cfg, creator, postsPath) == (s.0, prev.1 + [PostOutcome(s.1, s.2)])
  {
    assert (done + [post])[..|done|] == done;
  }

  /** A single post is processed exactly as the posts feed processes it. */
  lemma {:induction false} LonelyRunIsPostsRun(st: FeedState, posts: seq<Post>, cfg: Config, creator: string,
                                               postsPath: Path)
    requires AllKinds(st.effects.counts)
    ensures LonelyRun(st, posts, cfg, creator, postsPath).0 == PostsRun(st, posts, cfg, creator, postsPath)
    decreases |posts|
  {
    if posts != [] {
      LonelyRunIsPostsRun(st, posts[..|posts| - 1], cfg, creator, postsPath);
    }
  }

  /** One post's outcome reports incomplete paths exactly when one of its
      items is incomplete. */
  lemma PostStepIncomplete(st: FeedState, post: Post, cfg: Config, creator: string, postsPath: Path)
    requires AllKinds(st.effects.counts)
    ensures var s := PostStep(st, post, cfg, creator, postsPath);
      HasIncomplete(PostOutcome(s.1, s.2)) <==> s.2 != []
  {
    var path := PostDir(st.rows, cfg, postsPath, post);
    KindsRunIncomplete(st.effects, post.pool, path, EnabledKinds(cfg), cfg.saveMeta);
  }

  /** For the outcomes downloads actually produce, a post has incomplete
      paths exactly when one of its items is incomplete, so either half of
      `has_incomplete` alone would do. */
  lemma {:induction false} LonelyRunIncomplete(st: FeedState, posts: seq<Post>, cfg: Config, creator: string,
                                               postsPath: Path)
    requires AllKinds(st.effects.counts)
    ensures var outs := LonelyRun(st, posts, cfg, creator, postsPath).1;
      forall o :: o in outs ==> (HasIncomplete(o) <==> o.incomplete != [])
    decreases |posts|
  {
    if posts != [] {
      var n := |posts| - 1;
      LonelyRunIncomplete(st, posts[..n], cfg, creator, postsPath);
      var prev := LonelyRun(st, posts[..n], cfg, creator, postsPath);
      PostStepIncomplete(prev.0, posts[n], cfg, creator, postsPath);
      var s := PostStep(prev.0, posts[n], cfg, creator, postsPath);
      var outs := LonelyRun(st, posts, cfg, creator, postsPath).1;
      assert outs == prev.1 + [PostOutcome(s.1, s.2)];
    }
  }

  /** The loop state after the posts `done`: the downloads and registry
      rows, the outcomes so far, and the flags and paths they fold to. */
  ghost predicate LonelyDone(fs: FileSystem, stats: StatTracker, db: Registry.PostDb, st0: FeedState,
                             done: seq<Post>, outs: seq<PostOutcome>, flags: Flags, files: seq<Path>,
                             cfg: Config, creator: string, postsPath: Path)
    requires AllKinds(st0.effects.counts)
    reads fs, stats, db
  {
    && (FeedState(Snapshot(fs, stats), db.rows), outs) == LonelyRun(st0, done, cfg, creator, postsPath)
    && (flags, files) == Aggregate(outs)
  }

  /** One iteration of the loop: process the post, then update the flags
      and extend the paths as its outcome demands. */
  method LonelyStep(post: Post, cfg: Config, creator: string, postsPath: Path,
                    db: Registry.PostDb, fs: FileSystem, stats: StatTracker, flags: Flags, files: seq<Path>,
                    ghost st0: FeedState, ghost done: seq<Post>, ghost outs: seq<PostOutcome>)
    returns (flags': Flags, files': seq<Path>, ghost outs': seq<PostOutcome>)
    requires stats.Valid() && AllKinds(st0.effects.counts)
    requires LonelyDone(fs, stats, db, st0, done, outs, flags, files, cfg, creator, postsPath)
    modifies db, fs, stats
    ensures stats.Valid()
    ensures LonelyDone(fs, stats, db, st0, done + [post], outs', flags', files', cfg, creator, postsPath)
  {
    var _, statuses, incomplete := ProcessPost(post, cfg, creator, postsPath, db, fs, stats);
    var hasDownloaded := Downloaded in statuses;
    var hasError := Error in statuses;
    var hasIncomplete := Incomplete in statuses || |incomplete| > 0;
    var anyDownloaded, anyErrors, anySkipped := flags.anyDownloaded, flags.anyErrors, flags.anySkipped;
    if hasError {
      anyErrors := true;
    }
    if !hasDownloaded && !hasError {
      anySkipped := true;
    } else if hasDownloaded && !hasError {
      anyDownloaded := true;
    }
    files' := files;
    if hasIncomplete {
      anySkipped := true;
      files' := files' + incomplete;
    }
    flags' := Flags(anyDownloaded, anyErrors, anySkipped);
    outs' := outs + [PostOutcome(statuses, incomplete)];
    LonelyRunSnoc(st0, done, post, cfg, creator, postsPath);
    AggregateSnoc(outs, PostOutcome(statuses, incomplete));
  }

  /** The loop over the fetched posts and the status it decides. */
  method DownloadLonelyPosts(posts: seq<Post>, cfg: Config, creator: string, postsPath: Path,
                             db: Registry.PostDb, fs: FileSystem, stats: StatTracker)
    returns (status: string, files: seq<Path>)
    requires stats.Valid()
    modifies db, fs, stats
    ensures stats.Valid()
    ensures var r := LonelyRun(FeedState(old(Snapshot(fs, stats)), old(db.rows)), posts, cfg, creator, postsPath);
      && FeedState(Snapshot(fs, stats), db.rows) == r.0
      && status == Verdict(Aggregate(r.1).0) && files == Aggregate(r.1).1
  {
    ghost var st0 := FeedState(Snapshot(fs, stats), db.rows);
    ghost var outs: seq<PostOutcome> := [];
    var flags := NoFlags;
    files := [];
    var j := 0;
    SliceEnds(posts);
    while j < |posts|
      invariant 0 <= j <= |posts| && stats.Valid()
      invariant LonelyDone(fs, stats, db, st0, posts[..j], outs, flags, files, cfg, creator, postsPath)
    {
      flags, files, outs := LonelyStep(posts[j], cfg, creator, postsPath, db, fs, stats, flags, files,
                                       st0, posts[..j], outs);
      SliceSnoc(posts, j);
      j := j + 1;
    }
    status := Verdict(flags);
  }

  /** The whole single-post download. In masquerade mode the registry's
      lock is fetched first and a registry store that cannot be created
      gives `("error", [])`; a failed fetch or an empty post list gives the
      fetch status (`"error"` when that is empty) and no paths. Otherwise
      the posts are processed, the sync time is recorded and the flags
      decide the status. */
  method FetchAndSaveLonelyPost(cfg: Config, creator: string, locks: Registry.LockRegistry, dbKey: string,
                                dbOk: bool, fetchStatus: string, posts: seq<Post>, db: Registry.PostDb,
                                sd: SyncData?, now: int, postsPath: Path, fs: FileSystem, stats: StatTracker)
    returns (status: string, files: seq<Path>)
    requires stats.Valid()
    modifies locks, db, fs, stats, sd
    ensures stats.Valid()
    ensures cfg.masquerade ==> dbKey in locks.locks
    ensures !cfg.masquerade ==> locks.locks == old(locks.locks)
    ensures LonelyOutcome(cfg, dbOk, fetchStatus, posts, creator, postsPath,
                          FeedState(old(Snapshot(fs, stats)), old(db.rows)))
         == (FeedState(Snapshot(fs, stats), db.rows), status, files)
    ensures sd != null ==> sd.last == old(sd.last) && sd.runtime == old(sd.runtime)
    ensures sd != null ==> sd.lastSyncUtc == (if Proceeds(cfg, dbOk, fetchStatus, posts) then Some(now)
                                              else old(sd.lastSyncUtc))
    ensures status == "ok" ==> fetchStatus == "ok" && posts == []
  {
    if cfg.masquerade {
      var _ := locks.GetLock(dbKey);
      if !dbOk {
        return "error", [];
      }
    }
    if fetchStatus != "ok" || posts == [] {
      status := if fetchStatus == "" then "error" else fetchStatus;
      return status, [];
    }
    status, files := SaveLonelyPosts(posts, cfg, creator, postsPath, db, fs, stats, sd, now);
  }

  /** The fetched posts downloaded, the sync time recorded, and the status
      decided: never `"ok"`, since there is at least one post. */
  method SaveLonelyPosts(posts: seq<Post>, cfg: Config, creator: string, postsPath: Path,
                         db: Registry.PostDb, fs: FileSystem, stats: StatTracker, sd: SyncData?, now: int)
    returns (status: string, files: seq<Path>)
    requires stats.Valid() && posts != []
    modifies db, fs, stats, sd
    ensures stats.Valid()
    ensures var r := LonelyRun(FeedState(old(Snapshot(fs, stats)), old(db.rows)), posts, cfg, creator, postsPath);
      && FeedState(Snapshot(fs, stats), db.rows) == r.0
      && status == Verdict(Aggregate(r.1).0) && files == Aggregate(r.1).1
    ensures status != "ok"
    ensures sd != null ==> sd.last == old(sd.last) && sd.runtime == old(sd.runtime) && sd.lastSyncUtc == Some(now)
  {
    ghost var st0 := FeedState(Snapshot(fs, stats), db.rows);
    status, files := DownloadLonelyPosts(posts, cfg, creator, postsPath, db, fs, stats);
    LonelyVerdict(LonelyRun(st0, posts, cfg, creator, postsPath).1);
    if sd != null {
      sd.SetLastSyncUtc(now);
    }
  }

  /** Whether the posts are processed at all: the registry store exists
      when it is wanted, and the fetch succeeded with posts. */
  predicate Proceeds(cfg: Config, dbOk: bool, fetchStatus: string, posts: seq<Post>) {
    (!cfg.masquerade || dbOk) && fetchStatus == "ok" && posts != []
  }

  /** The state, status and paths a single-post download ends with. */
  function LonelyOutcome(cfg: Config, dbOk: bool, fetchStatus: string, posts: seq<Post>, creator: string,
                         postsPath: Path, st: FeedState): (FeedState, string, seq<Path>)
    requires AllKinds(st.effects.counts)
  {
    if cfg.masquerade && !dbOk then (st, "error", [])
    else if fetchStatus != "ok" || posts == [] then (st, if fetchStatus == "" then "error" else fetchStatus, [])
    else
      var r := LonelyRun(st, posts, cfg, creator, postsPath);
      var a := Aggregate(r.1);
      (r.0, Verdict(a.0), a.1)
  }
}
