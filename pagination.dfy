/** The offset checkpoint state machine of core/launchers.py: a stream is
    scanned page by page, newest first, until the feed ends or a page's
    parsed offset reaches the stored high-water mark; after every page (or
    post) the token that page was fetched with is saved as the runtime
    resume token; on completion the resume token is cleared and the mark
    is raised to the first offset seen in this run. */
module Pagination {
  import opened Common
  import opened Downloader
  import opened SyncStore
  import Registry
  import opened Posts

  /** One page of a feed: what it holds, whether the API called it the last
      one, the next-page token it returned, and that token parsed into a
      comparable offset. */
  datatype Page<C> = Page(content: C, isLast: bool, next: Option<string>, parsed: Option<int>)

  type MediaPage = Page<MediaPool>

  type PostPage = Page<seq<Post>>

  /** The scan stops at a page whose parsed offset is at or below the stored
      mark, where a zero mark or offset counts as absent. */
  predicate StopsAt(eot: Option<int>, parsed: Option<int>) {
    TruthyInt(eot) && TruthyInt(parsed) && parsed.value <= eot.value
  }

  /** The page after which the loop exits. */
  predicate Terminal<C>(eot: Option<int>, p: Page<C>) {
    p.isLast || StopsAt(eot, p.parsed)
  }

  /** The feed the API serves ends: its final page says it is the last. */
  predicate EndsFeed<C>(pages: seq<Page<C>>) {
    |pages| > 0 && pages[|pages| - 1].isLast
  }

  /** How many pages a scan against mark `eot` fetches: up to and including
      the first terminal page. */
  function ScanLength<C>(pages: seq<Page<C>>, eot: Option<int>): (n: nat)
    requires EndsFeed(pages)
    ensures 1 <= n <= |pages|
    ensures Terminal(eot, pages[n - 1])
    ensures forall j :: 0 <= j < n - 1 ==> !Terminal(eot, pages[j])
    decreases |pages|
  {
    if Terminal(eot, pages[0]) then 1 else 1 + ScanLength(pages[1..], eot)
  }

  /** The token page `i` is fetched with: the start token for the first
      page, the previous page's returned token afterwards. */
  function TokenAt<C>(start: Option<string>, pages: seq<Page<C>>, i: nat): Option<string>
    requires i <= |pages|
  {
    if i == 0 then start else pages[i - 1].next
  }

  /** The runtime tokens saved while the media loop processes the first `n`
      pages: after each page, its fetch token when that is non-empty. */
  function RuntimeWrites<C>(start: Option<string>, pages: seq<Page<C>>, n: nat): seq<string>
    requires n <= |pages|
  {
    if n == 0 then []
    else
      RuntimeWrites(start, pages, n - 1)
      + (if TruthyStr(TokenAt(start, pages, n - 1)) then [TokenAt(start, pages, n - 1).value] else [])
  }

  /** `fot` after one more page: set to the page's offset when still absent
      and the offset is non-zero. */
  function NextFot(fot: Option<int>, parsed: Option<int>): Option<int> {
    if fot.None? && TruthyInt(parsed) then parsed else fot
  }

  /** `fot` after the first `n` pages. */
  function Fot<C>(pages: seq<Page<C>>, n: nat): (f: Option<int>)
    requires n <= |pages|
    ensures f.Some? ==> f.value != 0
  {
    if n == 0 then None else NextFot(Fot(pages, n - 1), pages[n - 1].parsed)
  }

  /** The stored mark after completion: raised to `fot` when that is present
      and higher, unchanged otherwise. */
  function NewMark(cur: Option<int>, fot: Option<int>): (m: Option<int>)
    ensures !TruthyInt(fot) ==> m == cur
    ensures TruthyInt(fot) ==> m.Some? && m.value >= fot.value
    ensures cur.Some? ==> m.Some? && m.value >= cur.value
    ensures m == cur || m == fot
  {
    if TruthyInt(fot) && (cur.None? || cur.value < fot.value) then fot else cur
  }

  // ----- Properties of the scan -----

  /** The first terminal page is the last page scanned. */
  lemma FirstTerminalEndsScan<C>(pages: seq<Page<C>>, eot: Option<int>, i: nat)
    requires EndsFeed(pages) && i < |pages|
    requires Terminal(eot, pages[i])
    requires forall j :: 0 <= j < i ==> !Terminal(eot, pages[j])
    ensures ScanLength(pages, eot) == i + 1
  {
  }

  /** A page whose parsed offset is at or below a non-zero stored mark is
      scanned at the latest as the last page, and its items are part of
      the scan. */
  lemma ScanStopsAtMark<C>(pages: seq<Page<C>>, eot: Option<int>, i: nat)
    requires EndsFeed(pages) && i < |pages|
    requires StopsAt(eot, pages[i].parsed)
    ensures ScanLength(pages, eot) <= i + 1
  {
  }

  /** `fot` is absent exactly when no page carried a non-zero offset. */
  lemma {:induction false} FotNone<C>(pages: seq<Page<C>>, n: nat)
    requires n <= |pages|
    ensures Fot(pages, n).None? <==> forall j :: 0 <= j < n ==> !TruthyInt(pages[j].parsed)
  {
    if n > 0 {
      FotNone(pages, n - 1);
    }
  }

  /** `fot` is the offset of the first page with a non-zero parsed offset. */
  lemma {:induction false} FotWitness<C>(pages: seq<Page<C>>, n: nat) returns (i: nat)
    requires n <= |pages| && Fot(pages, n).Some?
    ensures i < n && pages[i].parsed == Fot(pages, n)
    ensures forall j :: 0 <= j < i ==> !TruthyInt(pages[j].parsed)
  {
    if Fot(pages, n - 1).Some? {
      i := FotWitness(pages, n - 1);
    } else {
      FotNone(pages, n - 1);
      i := n - 1;
    }
  }

  /** Once set, `fot` never changes, whatever pages follow. */
  lemma {:induction false} FotStable<C>(pages: seq<Page<C>>, n: nat, m: nat)
    requires n <= m <= |pages| && Fot(pages, n).Some?
    ensures Fot(pages, m) == Fot(pages, n)
  {
    if m > n {
      FotStable(pages, n, m - 1);
    }
  }

  /** Re-running with no new remote content (the first page already at or
      below the mark) fetches one page and leaves the stored mark as it is. */
  lemma RerunKeepsMark<C>(pages: seq<Page<C>>, eot: Option<int>)
    requires EndsFeed(pages)
    requires StopsAt(eot, pages[0].parsed)
    ensures ScanLength(pages, eot) == 1
    ensures NewMark(eot, Fot(pages, 1)) == eot
  {
  }

  /** A stream with stored mark 50 whose first page returns offset 80 and
      second page offset 40: two pages are scanned and the mark becomes 80. */
  lemma TwoPageExample()
    ensures var empty := MediaPool([], [], [], []);
      var pages := [Page(empty, false, Some("a"), Some(80)), Page(empty, false, Some("b"), Some(40)),
                    Page(empty, true, None, None)];
      && ScanLength(pages, Some(50)) == 2
      && NewMark(Some(50), Fot(pages, 2)) == Some(80)
  {
    var empty := MediaPool([], [], [], []);
    var pages := [Page(empty, false, Some("a"), Some(80)), Page(empty, false, Some("b"), Some(40)),
                  Page(empty, true, None, None)];
    FirstTerminalEndsScan(pages, Some(50), 1);
    assert Fot(pages, 1) == Some(80);
  }

  /** The last runtime token saved during a scan is the token the final
      scanned page was fetched with (not the token that page returned),
      unless that token is empty, in which case it saves nothing. */
  lemma LastCheckpointIsFetchToken<C>(start: Option<string>, pages: seq<Page<C>>, n: nat)
    requires 0 < n <= |pages|
    ensures TruthyStr(TokenAt(start, pages, n - 1)) ==>
      var w := RuntimeWrites(start, pages, n);
      w != [] && w[|w| - 1] == TokenAt(start, pages, n - 1).value
    ensures !TruthyStr(TokenAt(start, pages, n - 1)) ==>
      RuntimeWrites(start, pages, n) == RuntimeWrites(start, pages, n - 1)
  {
  }

  /** Resuming from the token saved for page `i` fetches page `i` again and
      then exactly the pages the interrupted scan had not reached. */
  lemma {:induction false} ResumeReplaysFromCheckpoint<C>(start: Option<string>, pages: seq<Page<C>>,
                                                          eot: Option<int>, i: nat)
    requires EndsFeed(pages) && i < ScanLength(pages, eot)
    ensures EndsFeed(pages[i..])
    ensures ScanLength(pages[i..], eot) == ScanLength(pages, eot) - i
    ensures forall j :: 0 <= j <= |pages| - i ==> TokenAt(TokenAt(start, pages, i), pages[i..], j) == TokenAt(start, pages, i + j)
    decreases i
  {
    var n := ScanLength(pages, eot);
    var rest := pages[i..];
    assert forall j :: 0 <= j < |rest| ==> rest[j] == pages[i + j];
    FirstTerminalEndsScan(rest, eot, n - 1 - i);
  }

  /** The mark a resumed scan stores can be lower than the one an
      uninterrupted scan stores: the resumed run's `fot` is the offset of
      the page it resumed at, not of the newest page. */
  lemma ResumeCanLowerMark()
    ensures var empty := MediaPool([], [], [], []);
      var pages := [Page(empty, false, Some("a"), Some(100)), Page(empty, false, Some("b"), Some(90)),
                    Page(empty, true, None, None)];
      var full := ScanLength(pages, None);
      var resumed := ScanLength(pages[1..], None);
      && NewMark(None, Fot(pages, full)) == Some(100)
      && NewMark(None, Fot(pages[1..], resumed)) == Some(90)
  {
    var empty := MediaPool([], [], [], []);
    var pages := [Page(empty, false, Some("a"), Some(100)), Page(empty, false, Some("b"), Some(90)),
                  Page(empty, true, None, None)];
    FirstTerminalEndsScan(pages, None, 2);
    FirstTerminalEndsScan(pages[1..], None, 1);
    assert Fot(pages, 1) == Some(100);
    assert Fot(pages, 2) == Some(100);
    assert Fot(pages, 3) == Some(100);
    var rest := pages[1..];
    assert rest[0].parsed == Some(90) && rest[1].parsed == None;
    assert Fot(rest, 1) == Some(90);
    assert Fot(rest, 2) == Some(90);
  }

  // ----- Media streams -----

  function StreamOf(t: ContentType): Stream {
    match t
    case Image => PhotoStream
    case VideoContent => VideoStream
    case AudioContent => AudioStream
  }

  /** The downloads of the given pages of a media stream, page by page. */
  function MediaRun(e: Effects, k: Kind, base: Path, pages: seq<MediaPage>, saveMeta: bool): (r: Effects)
    requires AllKinds(e.counts)
    ensures AllKinds(r.counts)
    decreases |pages|
  {
    if pages == [] then e
    else
      var n := |pages| - 1;
      Batch(MediaRun(e, k, base, pages[..n], saveMeta), k, base, ItemsOf(pages[n].content, k), saveMeta).0
  }

  /** One more page runs that page's batch. */
  lemma MediaRunSnoc(e: Effects, k: Kind, base: Path, pages: seq<MediaPage>, i: nat, saveMeta: bool)
    requires AllKinds(e.counts) && i < |pages|
    ensures MediaRun(e, k, base, pages[..i + 1], saveMeta)
      == Batch(MediaRun(e, k, base, pages[..i], saveMeta), k, base, ItemsOf(pages[i].content, k), saveMeta).0
  {
    assert pages[..i + 1][..i] == pages[..i];
  }

  /** The number of items of kind `k` on the given pages. */
  function ScannedItems(pages: seq<MediaPage>, k: Kind): nat
    decreases |pages|
  {
    if pages == [] then 0 else ScannedItems(pages[..|pages| - 1], k) + |ItemsOf(pages[|pages| - 1].content, k)|
  }

  /** A media scan bumps one counter of the stream's kind per item on the
      scanned pages, the terminal page included, and no other kind's. */
  lemma {:induction false} MediaRunCounts(e: Effects, k: Kind, base: Path, pages: seq<MediaPage>, saveMeta: bool)
    requires AllKinds(e.counts)
    ensures var r := MediaRun(e, k, base, pages, saveMeta);
      && (forall k' :: k' != k ==> r.counts[k'] == e.counts[k'])
      && Total(r.counts[k]) == Total(e.counts[k]) + ScannedItems(pages, k)
    decreases |pages|
  {
    if pages != [] {
      var n := |pages| - 1;
      MediaRunCounts(e, k, base, pages[..n], saveMeta);
      var prev := MediaRun(e, k, base, pages[..n], saveMeta);
      BatchOtherKinds(prev, k, base, ItemsOf(pages[n].content, k), saveMeta);
      BatchTotal(prev, k, base, ItemsOf(pages[n].content, k), saveMeta);
    }
  }

  /** The download state is that of the first `i` pages of the scan. */
  ghost predicate PagesDownloaded(fs: FileSystem, stats: StatTracker, e0: Effects, t: ContentType, basePath: Path,
                                  pages: seq<MediaPage>, i: nat, saveMeta: bool)
    requires AllKinds(e0.counts) && i <= |pages|
    reads fs, stats
  {
    Snapshot(fs, stats) == MediaRun(e0, KindOfContent(t), basePath, pages[..i], saveMeta)
  }

  /** A fresh download manager for page `i`'s pool, run on the stream's
      content type: the scan's downloads grow by that page. */
  method DownloadPage(t: ContentType, pages: seq<MediaPage>, i: nat, basePath: Path, cfg: Config,
                      fs: FileSystem, stats: StatTracker, ghost e0: Effects)
    requires i < |pages| && stats.Valid() && AllKinds(e0.counts)
    requires PagesDownloaded(fs, stats, e0, t, basePath, pages, i, cfg.saveMeta)
    modifies fs, stats
    ensures stats.Valid()
    ensures PagesDownloaded(fs, stats, e0, t, basePath, pages, i + 1, cfg.saveMeta)
  {
    var dl := new Downloader(pages[i].content, basePath, cfg.maxParallel, cfg.saveMeta, fs, stats);
    dl.DownloadByContentType(t);
    MediaRunSnoc(e0, KindOfContent(t), basePath, pages, i, cfg.saveMeta);
  }

  /** The stored mark a scan starts from: the stored value when there is a
      record (any stored text is truthy, so even a stored zero is read),
      none otherwise. */
  function StoredMark(sd: SyncData?, s: Stream): Option<int>
    requires sd != null ==> sd.Valid()
    reads sd
  {
    if sd != null then sd.last[s] else None
  }

  /** No page before `i` ends the scan. */
  predicate NoneTerminal<C>(pages: seq<Page<C>>, eot: Option<int>, i: nat)
    requires i <= |pages|
  {
    forall j :: 0 <= j < i ==> !Terminal(eot, pages[j])
  }

  /** The scan's control state after `i` pages: the token to fetch with
      next, `fot`, and whether the loop has ended (then exactly the scan's
      pages have been fetched). */
  ghost predicate ScanControl<C>(pages: seq<Page<C>>, eot: Option<int>, start: Option<string>, i: nat,
                                 isLast: bool, offset: Option<string>, fot: Option<int>)
  {
    && EndsFeed(pages) && i <= |pages|
    && (!isLast ==> i < |pages| && NoneTerminal(pages, eot, i))
    && (isLast ==> 0 < i && Terminal(eot, pages[i - 1]) && NoneTerminal(pages, eot, i - 1))
    && offset == TokenAt(start, pages, i)
    && fot == Fot(pages, i)
  }

  /** One iteration of the scan loop moves the control state by one page. */
  lemma ControlStep<C>(pages: seq<Page<C>>, eot: Option<int>, start: Option<string>, i: nat,
                       offset: Option<string>, fot: Option<int>)
    requires ScanControl(pages, eot, start, i, false, offset, fot)
    ensures ScanControl(pages, eot, start, i + 1, Terminal(eot, pages[i]), pages[i].next,
                        NextFot(fot, pages[i].parsed))
  {
  }

  /** The record while a scan of stream `s` runs: only the stream's resume
      token has moved, and `checkpoints` lists the tokens saved so far. */
  ghost predicate CheckpointsSaved<C>(sd: SyncData?, s: Stream, rec0: Record,
                                      checkpoints: seq<string>, start: Option<string>, pages: seq<Page<C>>, i: nat)
    reads sd
  {
    if sd == null then checkpoints == []
    else
      && i <= |pages|
      && sd.Valid() && sd.last == rec0.last && sd.lastSyncUtc == rec0.lastSyncUtc
      && sd.runtime == rec0.runtime[s := sd.runtime[s]]
      && checkpoints == RuntimeWrites(start, pages, i)
  }

  /** The record while the posts scan runs: as for a media scan, with the
      expected tokens `expected` given outright. */
  ghost predicate PostCheckpointsSaved(sd: SyncData?, rec0: Record, checkpoints: seq<string>, expected: seq<string>)
    reads sd
  {
    if sd == null then checkpoints == []
    else
      && sd.Valid() && sd.last == rec0.last && sd.lastSyncUtc == rec0.lastSyncUtc
      && sd.runtime == rec0.runtime[PostsStream := sd.runtime[PostsStream]]
      && checkpoints == expected
  }

  /** After a page: save the token the page was fetched with as the resume
      token, when there is a record and the token is non-empty. */
  method SaveRuntimeToken<C>(sd: SyncData?, s: Stream, offset: Option<string>, checkpoints: seq<string>,
                             ghost rec0: Record, ghost start: Option<string>, ghost pages: seq<Page<C>>,
                             ghost i: nat)
    returns (saved: seq<string>)
    requires i < |pages| && offset == TokenAt(start, pages, i)
    requires CheckpointsSaved(sd, s, rec0, checkpoints, start, pages, i)
    modifies sd
    ensures CheckpointsSaved(sd, s, rec0, saved, start, pages, i + 1)
  {
    saved := checkpoints;
    if sd != null && TruthyStr(offset) {
      sd.SetRuntime(s, offset);
      saved := saved + [offset.value];
    }
  }

  /** The record's contents, or an empty record when there is none. */
  ghost function RecordOf(sd: SyncData?): Record
    reads sd
  {
    if sd != null then sd.State() else Record(map[], map[], None)
  }

  /** One iteration of the scan loop on page `i`: read the page's flags,
      download its media, save the token it was fetched with, and move on
      to the page's next token. */
  method ScanStep(t: ContentType, pages: seq<MediaPage>, i: nat, eot: Option<int>, offset: Option<string>,
                  fot: Option<int>, basePath: Path, cfg: Config, fs: FileSystem, stats: StatTracker,
                  sd: SyncData?, s: Stream, checkpoints: seq<string>,
                  ghost e0: Effects, ghost rec0: Record, ghost start: Option<string>)
    returns (isLast: bool, offset': Option<string>, fot': Option<int>, saved: seq<string>)
    requires ScanControl(pages, eot, start, i, false, offset, fot)
    requires stats.Valid() && AllKinds(e0.counts)
    requires PagesDownloaded(fs, stats, e0, t, basePath, pages, i, cfg.saveMeta)
    requires CheckpointsSaved(sd, s, rec0, checkpoints, start, pages, i)
    modifies sd, fs, stats
    ensures ScanControl(pages, eot, start, i + 1, isLast, offset', fot')
    ensures stats.Valid()
    ensures PagesDownloaded(fs, stats, e0, t, basePath, pages, i + 1, cfg.saveMeta)
    ensures CheckpointsSaved(sd, s, rec0, saved, start, pages, i + 1)
  {
    var page := pages[i];
    ControlStep(pages, eot, start, i, offset, fot);
    isLast, fot' := ReadPage(page, eot, fot);
    DownloadPage(t, pages, i, basePath, cfg, fs, stats, e0);
    saved := SaveRuntimeToken(sd, s, offset, checkpoints, rec0, start, pages, i);
    offset' := page.next;
  }

  /** Stream completion: clear the resume token and raise the stored mark
      to `fot` when that is present and higher. */
  method CompleteStream(sd: SyncData, s: Stream, fot: Option<int>)
    requires sd.Valid()
    modifies sd
    ensures sd.Valid()
    ensures sd.runtime == old(sd.runtime)[s := None]
    ensures sd.last == old(sd.last)[s := NewMark(old(sd.last[s]), fot)]
    ensures sd.lastSyncUtc == old(sd.lastSyncUtc)
  {
    sd.SetRuntime(s, None);
    RaiseMark(sd, s, fot);
  }

  /** The mark update at the end of a sync: the stored mark becomes `fot`
      when that is non-zero and the mark is absent or lower. */
  method RaiseMark(sd: SyncData, s: Stream, fot: Option<int>)
    requires sd.Valid()
    modifies sd
    ensures sd.Valid()
    ensures sd.last == old(sd.last)[s := NewMark(old(sd.last[s]), fot)]
    ensures sd.runtime == old(sd.runtime) && sd.lastSyncUtc == old(sd.lastSyncUtc)
  {
    var cur := sd.last[s];
    if TruthyInt(fot) {
      if cur.None? {
        sd.SetLast(s, fot);
      } else if cur.value < fot.value {
        sd.SetLast(s, fot);
      }
    }
  }

  /** Completion of the posts sync: clear the resume token, set the sync
      time, then raise the stored mark to `fot`. */
  method CompletePosts(sd: SyncData, fot: Option<int>, now: int)
    requires sd.Valid()
    modifies sd
    ensures sd.Valid()
    ensures sd.runtime == old(sd.runtime)[PostsStream := None]
    ensures sd.last == old(sd.last)[PostsStream := NewMark(old(sd.last[PostsStream]), fot)]
    ensures sd.lastSyncUtc == Some(now)
  {
    sd.SetRuntime(PostsStream, None);
    sd.SetLastSyncUtc(now);
    RaiseMark(sd, PostsStream, fot);
  }

  /** Overwriting one key twice keeps only the second value. */
  lemma UpdateTwice<K, V>(m: map<K, V>, k: K, a: V, b: V)
    ensures m[k := a][k := b] == m[k := b]
  {
  }

  /** The end of a posts sync, for a record that may be missing: what the
      scan saved is kept, the resume token is cleared, the sync time set
      and the mark raised to `fot`. */
  method FinishPosts(sd: SyncData?, fot: Option<int>, now: int, checkpoints: seq<string>, ghost rec0: Record,
                     ghost expected: seq<string>)
    requires PostCheckpointsSaved(sd, rec0, checkpoints, expected)
    modifies sd
    ensures sd == null ==> checkpoints == []
    ensures sd != null ==>
      && sd.Valid() && checkpoints == expected && PostsStream in rec0.last
      && sd.runtime == rec0.runtime[PostsStream := None]
      && sd.last == rec0.last[PostsStream := NewMark(rec0.last[PostsStream], fot)]
      && sd.lastSyncUtc == Some(now)
  {
    if sd != null {
      UpdateTwice(rec0.runtime, PostsStream, sd.runtime[PostsStream], None);
      CompletePosts(sd, fot, now);
    }
  }

  /** What the scan loop learns from a fetched page: whether the scan ends
      with it (the feed's last page, or an offset at or below the stored
      mark), and `fot` once the first non-zero offset is seen. */
  method ReadPage<C>(page: Page<C>, eot: Option<int>, fot: Option<int>) returns (isLast: bool, fot': Option<int>)
    ensures isLast == Terminal(eot, page)
    ensures fot' == NextFot(fot, page.parsed)
  {
    var parsed := page.parsed;
    isLast := page.isLast;
    fot' := fot;
    if fot.None? && TruthyInt(parsed) {
      fot' := parsed;
    }
    if TruthyInt(eot) && TruthyInt(parsed) {
      if parsed.value <= eot.value {
        isLast := true;
      }
    }
  }

  /** The loop of `_fetch_media`: fetch pages from `start` until one ends the
      scan against the stored mark `eot`, downloading each page and saving
      the token it was fetched with. Returns the number of pages scanned,
      `fot`, and the resume tokens saved, in order. */
  method ScanMedia(t: ContentType, pages: seq<MediaPage>, start: Option<string>, eot: Option<int>, sd: SyncData?,
                   s: Stream, basePath: Path, cfg: Config, fs: FileSystem, stats: StatTracker)
    returns (scanned: nat, fot: Option<int>, checkpoints: seq<string>)
    requires EndsFeed(pages)
    requires sd != null ==> sd.Valid()
    requires stats.Valid()
    modifies sd, fs, stats
    ensures stats.Valid()
    ensures scanned == ScanLength(pages, eot) && fot == Fot(pages, scanned)
    ensures Snapshot(fs, stats) == MediaRun(old(Snapshot(fs, stats)), KindOfContent(t), basePath, pages[..scanned], cfg.saveMeta)
    ensures CheckpointsSaved(sd, s, old(RecordOf(sd)), checkpoints, start, pages, scanned)
  {
    var offset := start;
    var isLast := false;
    fot := None;
    ghost var e0 := Snapshot(fs, stats);
    ghost var rec0 := RecordOf(sd);
    checkpoints := [];
    var i := 0;
    while !isLast
      invariant ScanControl(pages, eot, start, i, isLast, offset, fot)
      invariant stats.Valid()
      invariant PagesDownloaded(fs, stats, e0, t, basePath, pages, i, cfg.saveMeta)
      invariant CheckpointsSaved(sd, s, rec0, checkpoints, start, pages, i)
      decreases |pages| - i
    {
      isLast, offset, fot, checkpoints := ScanStep(t, pages, i, eot, offset, fot, basePath, cfg, fs, stats,
                                                   sd, s, checkpoints, e0, rec0, start);
      i := i + 1;
    }
    FirstTerminalEndsScan(pages, eot, i - 1);
    scanned := i;
  }

  /** `_fetch_media`: scan one media stream from the stored mark, then clear
      the resume token and raise the mark to `fot`. */
  method FetchMedia(t: ContentType, pages: seq<MediaPage>, start: Option<string>, sd: SyncData?, basePath: Path,
                    cfg: Config, fs: FileSystem, stats: StatTracker)
    returns (scanned: nat, checkpoints: seq<string>)
    requires EndsFeed(pages)
    requires sd != null ==> sd.Valid()
    requires stats.Valid()
    modifies sd, fs, stats
    ensures stats.Valid() && (sd != null ==> sd.Valid())
    ensures scanned == ScanLength(pages, old(StoredMark(sd, StreamOf(t))))
    ensures Snapshot(fs, stats) == MediaRun(old(Snapshot(fs, stats)), KindOfContent(t), basePath, pages[..scanned], cfg.saveMeta)
    ensures sd == null ==> checkpoints == []
    ensures sd != null ==>
      && checkpoints == RuntimeWrites(start, pages, scanned)
      && sd.runtime == old(sd.runtime)[StreamOf(t) := None]
      && sd.last == old(sd.last)[StreamOf(t) := NewMark(old(sd.last[StreamOf(t)]), Fot(pages, scanned))]
      && sd.lastSyncUtc == old(sd.lastSyncUtc)
  {
    var s := StreamOf(t);
    var eot: Option<int> := None;
    if sd != null {
      eot := sd.last[s];
    }
    var fot;
    scanned, fot, checkpoints := ScanMedia(t, pages, start, eot, sd, s, basePath, cfg, fs, stats);
    if sd != null {
      CompleteStream(sd, s, fot);
    }
  }

  /** The downloads of one media stream when it is enabled, none otherwise. */
  function StreamRun(e: Effects, enabled: bool, t: ContentType, base: Path, pages: seq<MediaPage>,
                     eot: Option<int>, saveMeta: bool): (r: Effects)
    requires AllKinds(e.counts)
    requires enabled ==> EndsFeed(pages)
    ensures AllKinds(r.counts)
  {
    if enabled then
      var n := ScanLength(pages, eot);
      MediaRun(e, KindOfContent(t), base, pages[..n], saveMeta)
    else e
  }

  /** The stored marks after one media stream's sync: raised to the stream's
      first parsed offset when it was enabled, untouched otherwise. */
  function StreamLast(last: map<Stream, Option<int>>, s: Stream, enabled: bool, pages: seq<MediaPage>)
    : map<Stream, Option<int>>
    requires s in last
    requires enabled ==> EndsFeed(pages)
  {
    if enabled then last[s := NewMark(last[s], Fot(pages, ScanLength(pages, last[s])))] else last
  }

  /** The resume tokens after one media stream's sync: cleared when the
      stream was enabled, untouched otherwise. */
  function StreamRuntime(runtime: map<Stream, Option<string>>, s: Stream, enabled: bool)
    : map<Stream, Option<string>>
  {
    if enabled then runtime[s := None] else runtime
  }

  /** One media stream of `fetch_and_save_media`, run only when enabled. */
  method FetchStream(enabled: bool, t: ContentType, pages: seq<MediaPage>, start: Option<string>, sd: SyncData?,
                     basePath: Path, cfg: Config, fs: FileSystem, stats: StatTracker)
    requires enabled ==> EndsFeed(pages)
    requires sd != null ==> sd.Valid()
    requires stats.Valid()
    modifies sd, fs, stats
    ensures stats.Valid()
    ensures Snapshot(fs, stats)
      == StreamRun(old(Snapshot(fs, stats)), enabled, t, basePath, pages, old(StoredMark(sd, StreamOf(t))), cfg.saveMeta)
    ensures sd != null ==>
      && sd.Valid()
      && sd.last == StreamLast(old(sd.last), StreamOf(t), enabled, pages)
      && sd.runtime == StreamRuntime(old(sd.runtime), StreamOf(t), enabled)
      && sd.lastSyncUtc == old(sd.lastSyncUtc)
  {
    if enabled {
      var _, _ := FetchMedia(t, pages, start, sd, basePath, cfg, fs, stats);
    }
  }

  /** The downloads of a media sync: the photo, video and audio streams in
      turn, each from its own stored mark. */
  function MediaSyncRun(e: Effects, cfg: Config, base: Path, photoPages: seq<MediaPage>, videoPages: seq<MediaPage>,
                        audioPages: seq<MediaPage>, photoMark: Option<int>, videoMark: Option<int>,
                        audioMark: Option<int>): (r: Effects)
    requires AllKinds(e.counts)
    requires cfg.needPhoto ==> EndsFeed(photoPages)
    requires cfg.needVideo ==> EndsFeed(videoPages)
    requires cfg.needAudio ==> EndsFeed(audioPages)
    ensures AllKinds(r.counts)
  {
    var e1 := StreamRun(e, cfg.needPhoto, Image, base, photoPages, photoMark, cfg.saveMeta);
    var e2 := StreamRun(e1, cfg.needVideo, VideoContent, base, videoPages, videoMark, cfg.saveMeta);
    StreamRun(e2, cfg.needAudio, AudioContent, base, audioPages, audioMark, cfg.saveMeta)
  }

  /** The stored marks after a media sync. */
  function MediaSyncLast(last: map<Stream, Option<int>>, cfg: Config, photoPages: seq<MediaPage>,
                         videoPages: seq<MediaPage>, audioPages: seq<MediaPage>): map<Stream, Option<int>>
    requires PhotoStream in last && VideoStream in last && AudioStream in last
    requires cfg.needPhoto ==> EndsFeed(photoPages)
    requires cfg.needVideo ==> EndsFeed(videoPages)
    requires cfg.needAudio ==> EndsFeed(audioPages)
  {
    var last1 := StreamLast(last, PhotoStream, cfg.needPhoto, photoPages);
    var last2 := StreamLast(last1, VideoStream, cfg.needVideo, videoPages);
    StreamLast(last2, AudioStream, cfg.needAudio, audioPages)
  }

  /** The resume tokens after a media sync. */
  function MediaSyncRuntime(runtime: map<Stream, Option<string>>, cfg: Config): map<Stream, Option<string>> {
    StreamRuntime(StreamRuntime(StreamRuntime(runtime, PhotoStream, cfg.needPhoto), VideoStream, cfg.needVideo),
                  AudioStream, cfg.needAudio)
  }

  /** `fetch_and_save_media`: the enabled photo, video and audio streams,
      one after the other, then the sync time. Attached files are never
      fetched in this mode, and the posts stream keeps its mark and token. */
  method FetchAndSaveMedia(cfg: Config, photoPages: seq<MediaPage>, videoPages: seq<MediaPage>,
                           audioPages: seq<MediaPage>, photoStart: Option<string>, videoStart: Option<string>,
                           audioStart: Option<string>, sd: SyncData?, basePath: Path, now: int,
                           fs: FileSystem, stats: StatTracker)
    requires cfg.needPhoto ==> EndsFeed(photoPages)
    requires cfg.needVideo ==> EndsFeed(videoPages)
    requires cfg.needAudio ==> EndsFeed(audioPages)
    requires sd != null ==> sd.Valid()
    requires stats.Valid()
    modifies sd, fs, stats
    ensures stats.Valid()
    ensures Snapshot(fs, stats)
      == MediaSyncRun(old(Snapshot(fs, stats)), cfg, basePath, photoPages, videoPages, audioPages,
                      old(StoredMark(sd, PhotoStream)), old(StoredMark(sd, VideoStream)), old(StoredMark(sd, AudioStream)))
    ensures sd != null ==>
      && sd.Valid()
      && sd.last == MediaSyncLast(old(sd.last), cfg, photoPages, videoPages, audioPages)
      && sd.runtime == MediaSyncRuntime(old(sd.runtime), cfg)
      && sd.lastSyncUtc == Some(now)
  {
    ghost var e0 := Snapshot(fs, stats);
    ghost var videoMark, audioMark := StoredMark(sd, VideoStream), StoredMark(sd, AudioStream);
    ghost var last0, runtime0 := if sd != null then sd.last else map[], if sd != null then sd.runtime else map[];
    FetchStream(cfg.needPhoto, Image, photoPages, photoStart, sd, basePath, cfg, fs, stats);
    assert StoredMark(sd, VideoStream) == videoMark && StoredMark(sd, AudioStream) == audioMark;
    ghost var last1, runtime1 := if sd != null then sd.last else map[], if sd != null then sd.runtime else map[];
    FetchStream(cfg.needVideo, VideoContent, videoPages, videoStart, sd, basePath, cfg, fs, stats);
    assert StoredMark(sd, AudioStream) == audioMark;
    ghost var last2, runtime2 := if sd != null then sd.last else map[], if sd != null then sd.runtime else map[];
    FetchStream(cfg.needAudio, AudioContent, audioPages, audioStart, sd, basePath, cfg, fs, stats);
    ghost var e3 := Snapshot(fs, stats);
    if sd != null {
      assert sd.last == StreamLast(last2, AudioStream, cfg.needAudio, audioPages);
      assert sd.runtime == StreamRuntime(runtime2, AudioStream, cfg.needAudio);
      sd.SetLastSyncUtc(now);
    }
    assert Snapshot(fs, stats) == e3;
  }

  /** A media sync never touches the posts stream, and never lowers the
      stored mark of a media stream. */
  lemma MediaSyncKeepsMarks(last: map<Stream, Option<int>>, s: Stream, enabled: bool, pages: seq<MediaPage>)
    requires s in last && s != PostsStream
    requires enabled ==> EndsFeed(pages)
    ensures var last1 := StreamLast(last, s, enabled, pages);
      && (forall s' :: s' in last && s' != s ==> s' in last1 && last1[s'] == last[s'])
      && (last[s].Some? ==> last1[s].Some? && last1[s].value >= last[s].value)
  {
  }

  // ----- The posts feed -----

  /** The posts the given pages hold, page by page. */
  function PostsOf(pages: seq<PostPage>): seq<Post>
    decreases |pages|
  {
    if pages == [] then [] else PostsOf(pages[..|pages| - 1]) + pages[|pages| - 1].content
  }

  lemma PostsOfSnoc(pages: seq<PostPage>, i: nat)
    requires i < |pages|
    ensures PostsOf(pages[..i + 1]) == PostsOf(pages[..i]) + pages[i].content
  {
    assert pages[..i + 1][..i] == pages[..i];
  }

  /** `m` saves of the token `tok`: none when the token is empty. */
  function Copies(tok: Option<string>, m: nat): seq<string> {
    if m == 0 || !TruthyStr(tok) then [] else Copies(tok, m - 1) + [tok.value]
  }

  /** Every saved copy is the token itself. */
  lemma {:induction false} CopiesMembers(tok: Option<string>, m: nat, w: string)
    requires w in Copies(tok, m)
    ensures tok == Some(w)
  {
    if w !in Copies(tok, m - 1) {
      assert w == tok.value;
    } else {
      CopiesMembers(tok, m - 1, w);
    }
  }

  lemma CopiesNone(before: seq<string>, tok: Option<string>)
    ensures before + Copies(tok, 0) == before
  {
    assert Copies(tok, 0) == [];
  }

  lemma CopiesSnoc(before: seq<string>, tok: Option<string>, m: nat)
    ensures (before + Copies(tok, m)) + Copies(tok, 1) == before + Copies(tok, m + 1)
  {
    if TruthyStr(tok) {
      assert Copies(tok, 1) == Copies(tok, 0) + [tok.value];
    }
  }

  /** The runtime tokens the posts loop saves on the first `n` pages: after
      every post, the token its page was fetched with, when that is
      non-empty. */
  function PostWrites(start: Option<string>, pages: seq<PostPage>, n: nat): seq<string>
    requires n <= |pages|
  {
    if n == 0 then []
    else PostWrites(start, pages, n - 1) + Copies(TokenAt(start, pages, n - 1), |pages[n - 1].content|)
  }

  /** Every token the posts loop saves is the token one of the scanned pages
      was fetched with. */
  lemma {:induction false} PostWritesAreFetchTokens(start: Option<string>, pages: seq<PostPage>, n: nat)
    requires n <= |pages|
    ensures forall w :: w in PostWrites(start, pages, n) ==> exists j :: 0 <= j < n && TokenAt(start, pages, j) == Some(w)
  {
    if n > 0 {
      PostWritesAreFetchTokens(start, pages, n - 1);
      forall w | w in PostWrites(start, pages, n)
        ensures exists j :: 0 <= j < n && TokenAt(start, pages, j) == Some(w)
      {
        if w !in PostWrites(start, pages, n - 1) {
          CopiesMembers(TokenAt(start, pages, n - 1), |pages[n - 1].content|, w);
        }
      }
    }
  }

  /** When every page holds exactly one post, the posts loop saves the same
      tokens as a media scan of those pages. */
  lemma {:induction false} OnePostPerPageSavesLikeMedia(start: Option<string>, pages: seq<PostPage>, n: nat)
    requires n <= |pages|
    requires forall j :: 0 <= j < n ==> |pages[j].content| == 1
    ensures PostWrites(start, pages, n) == RuntimeWrites(start, pages, n)
  {
    if n > 0 {
      OnePostPerPageSavesLikeMedia(start, pages, n - 1);
      var tok := TokenAt(start, pages, n - 1);
      assert |pages[n - 1].content| == 1;
      assert Copies(tok, 1) == if TruthyStr(tok) then [tok.value] else [];
    }
  }

  /** Unlike a media scan, the posts loop saves nothing for a page without
      posts: scanning two empty pages saves two tokens in a media stream and
      none in the posts feed. */
  lemma EmptyPagesSaveNoPostToken()
    ensures var pages: seq<PostPage> := [Page([], false, Some("b"), Some(5)), Page([], true, None, None)];
      && RuntimeWrites(Some("a"), pages, 2) == ["a", "b"]
      && PostWrites(Some("a"), pages, 2) == []
  {
    var pages: seq<PostPage> := [Page([], false, Some("b"), Some(5)), Page([], true, None, None)];
    assert RuntimeWrites(Some("a"), pages, 1) == ["a"];
  }

  /** The effects and the registry rows are those of processing `done` from
      `st0`. */
  ghost predicate PostsProcessed(fs: FileSystem, stats: StatTracker, db: Registry.PostDb, st0: FeedState,
                                 done: seq<Post>, cfg: Config, creator: string, postsPath: Path)
    requires AllKinds(st0.effects.counts)
    reads fs, stats, db
  {
    FeedState(Snapshot(fs, stats), db.rows) == PostsRun(st0, done, cfg, creator, postsPath)
  }

  /** The effects and the registry rows are those of processing every post
      of the first `i` pages. */
  ghost predicate PagesProcessed(fs: FileSystem, stats: StatTracker, db: Registry.PostDb, st0: FeedState,
                                 pages: seq<PostPage>, i: nat, cfg: Config, creator: string, postsPath: Path)
    requires AllKinds(st0.effects.counts) && i <= |pages|
    reads fs, stats, db
  {
    PostsProcessed(fs, stats, db, st0, PostsOf(pages[..i]), cfg, creator, postsPath)
  }

  /** One post of a page: resolve its directory and run its downloads. */
  method ProcessPostAt(post: Post, cfg: Config, creator: string, postsPath: Path,
                       db: Registry.PostDb, fs: FileSystem, stats: StatTracker, ghost st0: FeedState,
                       ghost done: seq<Post>)
    requires stats.Valid() && AllKinds(st0.effects.counts)
    requires PostsProcessed(fs, stats, db, st0, done, cfg, creator, postsPath)
    modifies db, fs, stats
    ensures stats.Valid()
    ensures PostsProcessed(fs, stats, db, st0, done + [post], cfg, creator, postsPath)
  {
    var _, _, _ := ProcessPost(post, cfg, creator, postsPath, db, fs, stats);
    PostsRunSnoc(st0, done, post, cfg, creator, postsPath);
  }

  /** One post of a page fetched with token `offset`: process it, then save the token. */
  method ProcessAndSavePost(post: Post, offset: Option<string>, cfg: Config, creator: string, postsPath: Path,
                  db: Registry.PostDb, fs: FileSystem, stats: StatTracker,
                  sd: SyncData?, checkpoints: seq<string>, ghost st0: FeedState, ghost done: seq<Post>,
                  ghost rec0: Record, ghost expected: seq<string>)
    returns (saved: seq<string>)
    requires stats.Valid() && AllKinds(st0.effects.counts)
    requires PostsProcessed(fs, stats, db, st0, done, cfg, creator, postsPath)
    requires PostCheckpointsSaved(sd, rec0, checkpoints, expected)
    modifies sd, db, fs, stats
    ensures stats.Valid()
    ensures PostsProcessed(fs, stats, db, st0, done + [post], cfg, creator, postsPath)
    ensures PostCheckpointsSaved(sd, rec0, saved, expected + Copies(offset, 1))
  {
    ProcessPostAt(post, cfg, creator, postsPath, db, fs, stats, st0, done);
    saved := SavePostToken(sd, offset, checkpoints, rec0, expected);
  }

  /** After a post of a page fetched with token `offset`: save that token
      when there is a record and the token is non-empty. */
  method SavePostToken(sd: SyncData?, offset: Option<string>, checkpoints: seq<string>, ghost rec0: Record,
                       ghost expected: seq<string>)
    returns (saved: seq<string>)
    requires PostCheckpointsSaved(sd, rec0, checkpoints, expected)
    modifies sd
    ensures PostCheckpointsSaved(sd, rec0, saved, expected + Copies(offset, 1))
  {
    saved := checkpoints;
    if sd != null && TruthyStr(offset) {
      sd.SetRuntime(PostsStream, offset);
      saved := saved + [offset.value];
    }
  }

  /** The posts of one page, one after the other. */
  method ProcessPagePosts(posts: seq<Post>, offset: Option<string>, cfg: Config, creator: string, postsPath: Path,
                          db: Registry.PostDb, fs: FileSystem, stats: StatTracker,
                          sd: SyncData?, checkpoints: seq<string>, ghost st0: FeedState, ghost done: seq<Post>,
                          ghost rec0: Record, ghost expected: seq<string>)
    returns (saved: seq<string>)
    requires stats.Valid() && AllKinds(st0.effects.counts)
    requires PostsProcessed(fs, stats, db, st0, done, cfg, creator, postsPath)
    requires PostCheckpointsSaved(sd, rec0, checkpoints, expected)
    modifies sd, db, fs, stats
    ensures stats.Valid()
    ensures PostsProcessed(fs, stats, db, st0, done + posts, cfg, creator, postsPath)
    ensures PostCheckpointsSaved(sd, rec0, saved, expected + Copies(offset, |posts|))
  {
    saved := checkpoints;
    var j := 0;
    ghost var cur := done;
    ghost var exp := expected;
    PrefixEnds(done, posts);
    CopiesNone(expected, offset);
    while j < |posts|
      invariant 0 <= j <= |posts| && stats.Valid()
      invariant cur == done + posts[..j]
      invariant exp == expected + Copies(offset, j)
      invariant PostsProcessed(fs, stats, db, st0, cur, cfg, creator, postsPath)
      invariant PostCheckpointsSaved(sd, rec0, saved, exp)
    {
      saved := ProcessAndSavePost(posts[j], offset, cfg, creator, postsPath, db, fs, stats, sd, saved, st0, cur, rec0, exp);
      CopiesSnoc(expected, offset, j);
      PrefixSnoc(done, posts, j);
      cur := cur + [posts[j]];
      exp := exp + Copies(offset, 1);
      j := j + 1;
    }
  }

  /** One iteration of the posts loop on page `i`: read the page's flags,
      process its posts, and move on to the page's next token. */
  method PostsScanStep(pages: seq<PostPage>, i: nat, eot: Option<int>, offset: Option<string>, fot: Option<int>,
                       cfg: Config, creator: string, postsPath: Path,
                       db: Registry.PostDb, fs: FileSystem, stats: StatTracker, sd: SyncData?,
                       checkpoints: seq<string>, ghost st0: FeedState, ghost rec0: Record,
                       ghost start: Option<string>)
    returns (isLast: bool, offset': Option<string>, fot': Option<int>, saved: seq<string>)
    requires ScanControl(pages, eot, start, i, false, offset, fot)
    requires stats.Valid() && AllKinds(st0.effects.counts)
    requires PagesProcessed(fs, stats, db, st0, pages, i, cfg, creator, postsPath)
    requires PostCheckpointsSaved(sd, rec0, checkpoints, PostWrites(start, pages, i))
    modifies sd, db, fs, stats
    ensures ScanControl(pages, eot, start, i + 1, isLast, offset', fot')
    ensures stats.Valid()
    ensures PagesProcessed(fs, stats, db, st0, pages, i + 1, cfg, creator, postsPath)
    ensures PostCheckpointsSaved(sd, rec0, saved, PostWrites(start, pages, i + 1))
  {
    var page := pages[i];
    ControlStep(pages, eot, start, i, offset, fot);
    isLast, fot' := ReadPage(page, eot, fot);
    PostsOfSnoc(pages, i);
    saved := ProcessPagePosts(page.content, offset, cfg, creator, postsPath, db, fs, stats, sd,
                              checkpoints, st0, PostsOf(pages[..i]), rec0, PostWrites(start, pages, i));
    offset' := page.next;
  }

  /** The loop of `fetch_and_save_posts`: fetch pages from `start` until one
      ends the scan against the stored mark `eot`, processing every post of
      every page and saving the page's fetch token after each post. */
  method ScanPosts(pages: seq<PostPage>, start: Option<string>, eot: Option<int>, cfg: Config, creator: string,
                   postsPath: Path, db: Registry.PostDb, sd: SyncData?,
                   fs: FileSystem, stats: StatTracker)
    returns (scanned: nat, fot: Option<int>, checkpoints: seq<string>)
    requires EndsFeed(pages)
    requires sd != null ==> sd.Valid()
    requires stats.Valid()
    modifies sd, db, fs, stats
    ensures stats.Valid()
    ensures scanned == ScanLength(pages, eot) && fot == Fot(pages, scanned)
    ensures PagesProcessed(fs, stats, db, FeedState(old(Snapshot(fs, stats)), old(db.rows)), pages, scanned,
                           cfg, creator, postsPath)
    ensures PostCheckpointsSaved(sd, old(RecordOf(sd)), checkpoints, PostWrites(start, pages, scanned))
  {
    var offset := start;
    var isLast := false;
    fot := None;
    ghost var st0 := FeedState(Snapshot(fs, stats), db.rows);
    ghost var rec0 := RecordOf(sd);
    checkpoints := [];
    var i := 0;
    while !isLast
      invariant ScanControl(pages, eot, start, i, isLast, offset, fot)
      invariant stats.Valid()
      invariant PagesProcessed(fs, stats, db, st0, pages, i, cfg, creator, postsPath)
      invariant PostCheckpointsSaved(sd, rec0, checkpoints, PostWrites(start, pages, i))
      decreases |pages| - i
    {
      isLast, offset, fot, checkpoints := PostsScanStep(pages, i, eot, offset, fot, cfg, creator, postsPath,
                                                        db, fs, stats, sd, checkpoints, st0, rec0, start);
      i := i + 1;
    }
    FirstTerminalEndsScan(pages, eot, i - 1);
    scanned := i;
  }

  /** `fetch_and_save_posts`: when the registry is wanted but its store
      cannot be created, nothing happens; otherwise scan the posts feed
      from the stored mark, then clear the resume token, set the sync time
      and raise the mark to `fot`. The registry's lock is not taken here. */
  method FetchAndSavePosts(cfg: Config, pages: seq<PostPage>, start: Option<string>, sd: SyncData?, dbOk: bool,
                           db: Registry.PostDb, creator: string, postsPath: Path,
                           now: int, fs: FileSystem, stats: StatTracker)
    returns (scanned: nat, checkpoints: seq<string>)
    requires EndsFeed(pages)
    requires sd != null ==> sd.Valid()
    requires stats.Valid()
    modifies sd, db, fs, stats
    ensures stats.Valid() && (sd != null ==> sd.Valid())
    ensures cfg.masquerade && !dbOk ==>
      && scanned == 0 && checkpoints == []
      && Snapshot(fs, stats) == old(Snapshot(fs, stats)) && db.rows == old(db.rows)
      && (sd != null ==> sd.State() == old(sd.State()))
    ensures !(cfg.masquerade && !dbOk) ==>
      && scanned == ScanLength(pages, old(StoredMark(sd, PostsStream)))
      && PostsProcessed(fs, stats, db, FeedState(old(Snapshot(fs, stats)), old(db.rows)), PostsOf(pages[..scanned]),
                        cfg, creator, postsPath)
      && (sd == null ==> checkpoints == [])
      && (sd != null ==>
        && checkpoints == PostWrites(start, pages, scanned)
        && sd.runtime == old(sd.runtime)[PostsStream := None]
        && sd.last == old(sd.last)[PostsStream := NewMark(old(sd.last[PostsStream]), Fot(pages, scanned))]
        && sd.lastSyncUtc == Some(now))
  {
    if cfg.masquerade && !dbOk {
      return 0, [];
    }
    scanned, checkpoints := SyncPosts(cfg, pages, start, sd, db, creator, postsPath, now, fs, stats);
  }

  /** The posts sync proper, once the registry (when wanted) is available. */
  method SyncPosts(cfg: Config, pages: seq<PostPage>, start: Option<string>, sd: SyncData?,
                   db: Registry.PostDb, creator: string, postsPath: Path,
                   now: int, fs: FileSystem, stats: StatTracker)
    returns (scanned: nat, checkpoints: seq<string>)
    requires EndsFeed(pages)
    requires sd != null ==> sd.Valid()
    requires stats.Valid()
    modifies sd, db, fs, stats
    ensures stats.Valid() && (sd != null ==> sd.Valid())
    ensures scanned == ScanLength(pages, old(StoredMark(sd, PostsStream)))
    ensures PostsProcessed(fs, stats, db, FeedState(old(Snapshot(fs, stats)), old(db.rows)), PostsOf(pages[..scanned]),
                           cfg, creator, postsPath)
    ensures sd == null ==> checkpoints == []
    ensures sd != null ==>
      && checkpoints == PostWrites(start, pages, scanned)
      && sd.runtime == old(sd.runtime)[PostsStream := None]
      && sd.last == old(sd.last)[PostsStream := NewMark(old(sd.last[PostsStream]), Fot(pages, scanned))]
      && sd.lastSyncUtc == Some(now)
  {
    var eot: Option<int> := None;
    if sd != null {
      eot := sd.last[PostsStream];
    }
    var fot;
    ghost var rec0 := RecordOf(sd);
    scanned, fot, checkpoints := ScanPosts(pages, start, eot, cfg, creator, postsPath, db, sd, fs, stats);
    FinishPosts(sd, fot, now, checkpoints, rec0, PostWrites(start, pages, scanned));
  }
}
