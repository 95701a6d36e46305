/** The media-metadata probe of api_test.py: parsing a post link,
    picking the hash-like fields of a media record, turning a post's media
    into downloadable items, and counting the items whose size cannot be
    verified. The HTTP requests are parameters: the Content-Length each
    probe returned is an input. */
module ApiCheck {
  import opened Common
  import Downloader

  /** `[^/\s]`: a character of a creator name. */
  predicate NameChar(c: char) {
    c != '/' && !IsSpace(c)
  }

  /** `[0-9a-fA-F-]`: a character of a post id. */
  predicate IdChar(c: char) {
    ('0' <= c <= '9') || ('a' <= c <= 'f') || ('A' <= c <= 'F') || c == '-'
  }

  /** A creator name: name characters only. */
  predicate IsName(s: string) {
    forall k :: 0 <= k < |s| ==> NameChar(s[k])
  }

  /** A post id: id characters only. */
  predicate IsId(s: string) {
    forall k :: 0 <= k < |s| ==> IdChar(s[k])
  }

  /** `[^/\s]+` taken greedily: the length of the run of name characters
      that starts at `i`. */
  function NameRun(s: string, i: nat): (n: nat)
    requires i <= |s|
    ensures i + n <= |s|
    decreases |s| - i
  {
    if i < |s| && NameChar(s[i]) then 1 + NameRun(s, i + 1) else 0
  }

  /** `[0-9a-fA-F-]+` taken greedily: the length of the run of id
      characters that starts at `i`. */
  function IdRun(s: string, i: nat): (n: nat)
    requires i <= |s|
    ensures i + n <= |s|
    decreases |s| - i
  {
    if i < |s| && IdChar(s[i]) then 1 + IdRun(s, i + 1) else 0
  }

  /** The name run holds only name characters and stops at the first
      other character. */
  lemma {:induction false} NameRunSpan(s: string, i: nat)
    requires i <= |s|
    ensures forall k :: i <= k < i + NameRun(s, i) ==> NameChar(s[k])
    ensures i + NameRun(s, i) < |s| ==> !NameChar(s[i + NameRun(s, i)])
    decreases |s| - i
  {
    if i < |s| && NameChar(s[i]) {
      NameRunSpan(s, i + 1);
    }
  }

  /** The id run holds only id characters and stops at the first other
      character. */
  lemma {:induction false} IdRunSpan(s: string, i: nat)
    requires i <= |s|
    ensures forall k :: i <= k < i + IdRun(s, i) ==> IdChar(s[k])
    ensures i + IdRun(s, i) < |s| ==> !IdChar(s[i + IdRun(s, i)])
    decreases |s| - i
  {
    if i < |s| && IdChar(s[i]) {
      IdRunSpan(s, i + 1);
    }
  }

  /** A run of name characters ending where they stop is the greedy one. */
  lemma {:induction false} NameRunIs(s: string, i: nat, n: nat)
    requires i + n <= |s| && IsName(s[i..i + n])
    requires i + n < |s| ==> !NameChar(s[i + n])
    ensures NameRun(s, i) == n
    decreases n
  {
    if n > 0 {
      assert s[i] == s[i..i + n][0];
      assert s[i + 1..i + n] == s[i..i + n][1..];
      NameRunIs(s, i + 1, n - 1);
    }
  }

  /** A run of id characters ending where they stop is the greedy one. */
  lemma {:induction false} IdRunIs(s: string, i: nat, n: nat)
    requires i + n <= |s| && IsId(s[i..i + n])
    requires i + n < |s| ==> !IdChar(s[i + n])
    ensures IdRun(s, i) == n
    decreases n
  {
    if n > 0 {
      assert s[i] == s[i..i + n][0];
      assert s[i + 1..i + n] == s[i..i + n][1..];
      IdRunIs(s, i + 1, n - 1);
    }
  }

  const Host := "boosty.to/"
  const PostsPart := "posts/"

  /** The pattern can start matching at `i`: the host, then at least one
      name character. */
  predicate MatchesAt(s: string, i: nat) {
    i + |Host| < |s| && s[i..i + |Host|] == Host && NameChar(s[i + |Host|])
  }

  /** `re.search`: the leftmost position at or after `i` where the pattern
      matches. */
  function FirstMatch(s: string, i: nat): (r: Option<nat>)
    requires i <= |s|
    ensures r.Some? ==> i <= r.value && r.value + |Host| < |s|
    decreases |s| - i
  {
    if i == |s| then None
    else if MatchesAt(s, i) then Some(i)
    else FirstMatch(s, i + 1)
  }

  /** The position found matches and none before it does; when none is
      found, no position at or after `i` matches. */
  lemma {:induction false} FirstMatchSpec(s: string, i: nat)
    requires i <= |s|
    ensures var r := FirstMatch(s, i);
      && (r.Some? ==> MatchesAt(s, r.value) && forall j :: i <= j < r.value ==> !MatchesAt(s, j))
      && (r.None? ==> forall j :: i <= j ==> !MatchesAt(s, j))
    decreases |s| - i
  {
    if i < |s| && !MatchesAt(s, i) {
      FirstMatchSpec(s, i + 1);
    }
  }

  /** A match at `m` with none before it is the leftmost one. */
  lemma {:induction false} FirstMatchAt(s: string, i: nat, m: nat)
    requires i <= m < |s| && MatchesAt(s, m)
    requires forall j :: i <= j < m ==> !MatchesAt(s, j)
    ensures FirstMatch(s, i) == Some(m)
    decreases m - i
  {
    if i < m {
      assert !MatchesAt(s, i);
      FirstMatchAt(s, i + 1, m);
    }
  }

  /** `/?`: the position after an optional slash at `e`. */
  function AfterSlash(raw: string, e: nat): (p: nat)
    requires e <= |raw|
    ensures e <= p <= |raw|
  {
    if e < |raw| && raw[e] == '/' then e + 1 else e
  }

  /** `(?:posts/([0-9a-fA-F-]+))?` at `p`: the id when `posts/` and at
      least one id character follow. */
  function IdGroup(raw: string, p: nat): Option<string>
    requires p <= |raw|
  {
    var q := p + |PostsPart|;
    if q <= |raw| && raw[p..q] == PostsPart && IdRun(raw, q) > 0 then Some(raw[q..q + IdRun(raw, q)])
    else None
  }

  /** The groups of a match at `i`: the greedy creator name, then the post
      id group after an optional slash. */
  function GroupsAt(raw: string, i: nat): (string, Option<string>)
    requires i + |Host| <= |raw|
  {
    var a := i + |Host|;
    var e := a + NameRun(raw, a);
    (raw[a..e], IdGroup(raw, AfterSlash(raw, e)))
  }

  /** `parse_boosty_link`. */
  function ParseBoostyLink(raw: string): (string, Option<string>) {
    match FirstMatch(raw, 0)
    case None => (raw, None)
    case Some(i) => GroupsAt(raw, i)
  }

  /** The creator group of a match is a non-empty name. */
  lemma GroupsAtName(raw: string, i: nat)
    requires MatchesAt(raw, i)
    ensures GroupsAt(raw, i).0 != [] && IsName(GroupsAt(raw, i).0)
  {
    var a := i + |Host|;
    var e := a + NameRun(raw, a);
    NameRunSpan(raw, a);
    assert NameChar(raw[a]);
    forall k | 0 <= k < e - a
      ensures NameChar(raw[a..e][k])
    {
      assert raw[a..e][k] == raw[a + k];
    }
    assert GroupsAt(raw, i).0 == raw[a..e];
  }

  /** The id group, when present, is a non-empty id that directly follows
      `posts/`. */
  lemma IdGroupShape(raw: string, p: nat)
    requires p <= |raw|
    ensures IdGroup(raw, p).Some? ==>
      var id := IdGroup(raw, p).value;
      && id != [] && IsId(id)
      && p + |PostsPart| + |id| <= |raw| && raw[p..p + |PostsPart|] == PostsPart
      && id == raw[p + |PostsPart|..p + |PostsPart| + |id|]
  {
    var q := p + |PostsPart|;
    if IdGroup(raw, p).Some? {
      var id := raw[q..q + IdRun(raw, q)];
      IdRunSpan(raw, q);
      forall k | 0 <= k < |id|
        ensures IdChar(id[k])
      {
        assert id[k] == raw[q + k];
      }
    }
  }

  /** Without a match the input comes back with no id; with one, the
      creator is a non-empty name and the id, when present, is non-empty
      and made of id characters. */
  lemma ParseBoostyLinkShape(raw: string)
    ensures (forall j :: !MatchesAt(raw, j)) ==> ParseBoostyLink(raw) == (raw, None)
    ensures (exists j :: MatchesAt(raw, j)) ==>
      var r := ParseBoostyLink(raw);
      r.0 != [] && IsName(r.0)
    ensures var r := ParseBoostyLink(raw);
      r.1.Some? ==> r.1.value != [] && IsId(r.1.value)
  {
    FirstMatchSpec(raw, 0);
    match FirstMatch(raw, 0)
    case None =>
    case Some(i) =>
      GroupsAtName(raw, i);
      var a := i + |Host|;
      IdGroupShape(raw, AfterSlash(raw, a + NameRun(raw, a)));
  }

  /** The scheme and host of a canonical link. */
  const LinkStart := "https://" + Host

  /** The five pieces of a concatenation, read back by slicing. */
  lemma FiveParts<T>(a: seq<T>, b: seq<T>, c: seq<T>, d: seq<T>, f: seq<T>)
    ensures var s := a + b + c + d + f;
      var i, j, k, l := |a|, |a| + |b|, |a| + |b| + |c|, |a| + |b| + |c| + |d|;
      && s[..i] == a && s[i..j] == b && s[j..k] == c && s[k..l] == d && s[l..] == f
  {
  }

  /** In a link that starts with the scheme and host followed by a name
      character, the pattern first matches right after the scheme. */
  lemma CanonicalMatch(s: string)
    requires |s| > 18 && s[..18] == LinkStart && NameChar(s[18])
    ensures FirstMatch(s, 0) == Some(8)
  {
    assert |LinkStart| == 18;
    forall j | 0 <= j < 8
      ensures !MatchesAt(s, j)
    {
      assert s[j] == LinkStart[j];
      assert s[j..j + |Host|][0] == s[j];
    }
    assert s[8..18] == Host;
    FirstMatchAt(s, 0, 8);
  }

  /** `posts/` followed by a greedy id run `id` at `p` gives that id. */
  lemma IdGroupIs(raw: string, p: nat, id: string)
    requires p + |PostsPart| + |id| <= |raw| && raw[p..p + |PostsPart|] == PostsPart
    requires IdRun(raw, p + |PostsPart|) == |id| > 0
    requires raw[p + |PostsPart|..p + |PostsPart| + |id|] == id
    ensures IdGroup(raw, p) == Some(id)
  {
  }

  /** In a canonical link the creator group is the creator, and the id
      group is read after the slash that follows it. */
  lemma CanonicalCreator(s: string, creator: string)
    requires creator != [] && IsName(creator)
    requires |s| > 18 + |creator| && s[..18] == LinkStart && s[18..18 + |creator|] == creator
    requires s[18 + |creator|] == '/'
    ensures ParseBoostyLink(s) == (creator, IdGroup(s, 19 + |creator|))
  {
    assert |Host| == 10;
    assert s[18] == creator[0];
    CanonicalMatch(s);
    var e := 18 + |creator|;
    NameRunIs(s, 18, |creator|);
    assert AfterSlash(s, e) == e + 1;
  }

  /** A canonical post link gives back its creator and post id. */
  lemma ParseCanonicalLink(creator: string, id: string)
    requires creator != [] && IsName(creator)
    requires id != [] && IsId(id)
    ensures ParseBoostyLink(LinkStart + creator + "/" + PostsPart + id) == (creator, Some(id))
  {
    var s := LinkStart + creator + "/" + PostsPart + id;
    FiveParts(LinkStart, creator, "/", PostsPart, id);
    assert |LinkStart| == 18 && |PostsPart| == 6;
    var p := 19 + |creator|;
    CanonicalCreator(s, creator);
    var w := s[p + 6..p + 6 + |id|];
    assert w == s[p + 6..] == id;
    assert IsId(w);
    IdRunIs(s, p + 6, |id|);
    IdGroupIs(s, p, id);
  }

  /** `find_hash_fields` keys: the lower-cased key mentions a hash. */
  predicate HashKey(key: string) {
    var lower := Lower(key);
    Contains(lower, "hash") || Contains(lower, "md5") || Contains(lower, "sha") || Contains(lower, "checksum")
  }

  /** The hash-like fields of a record, values unchanged. */
  function HashFields<V>(obj: map<string, V>): map<string, V> {
    map k | k in obj && HashKey(k) :: obj[k]
  }

  /** Filtering twice is filtering once, and the result only holds keys of
      the input. */
  lemma HashFieldsIdempotent<V>(obj: map<string, V>)
    ensures HashFields(HashFields(obj)) == HashFields(obj)
    ensures HashFields(obj).Keys <= obj.Keys
  {
    assert HashFields(HashFields(obj)).Keys == HashFields(obj).Keys;
  }

  /** `find_hash_fields`: the loop over the record's items. */
  method FindHashFields<V>(obj: map<string, V>) returns (r: map<string, V>)
    ensures forall k :: k in r <==> k in obj && HashKey(k)
    ensures forall k :: k in r ==> r[k] == obj[k]
    ensures r == HashFields(obj)
  {
    r := map[];
    var rest := obj.Keys;
    while rest != {}
      invariant rest <= obj.Keys
      invariant forall k :: k in r <==> k in obj && k !in rest && HashKey(k)
      invariant forall k :: k in r ==> r[k] == obj[k]
      decreases rest
    {
      var key :| key in rest;
      var lower := Lower(key);
      if Contains(lower, "hash") || Contains(lower, "md5") || Contains(lower, "sha") || Contains(lower, "checksum") {
        r := r[key := obj[key]];
      }
      rest := rest - {key};
    }
  }

  /** `is_playlist_url`: the lower-cased URL mentions `.m3u8` (or
      `video.m3u8`). */
  predicate IsPlaylistUrl(url: string) {
    var lowered := Lower(url);
    Contains(lowered, ".m3u8") || Contains(lowered, "video.m3u8")
  }

  /** The second test is subsumed by the first: the probe flags exactly
      the URLs the downloader treats as playlists. */
  lemma PlaylistTestsAgree(url: string)
    ensures IsPlaylistUrl(url) <==> Downloader.IsPlaylist(url)
  {
    if Contains(Lower(url), "video.m3u8") {
      assert "video.m3u8" == "video" + ".m3u8";
      ContainsTail(Lower(url), "video", ".m3u8");
    }
  }

  /** `format_check_status`. */
  function FormatCheckStatus(available: bool): (r: string)
    ensures r == "YES" <==> available
    ensures r == "NO" <==> !available
  {
    if available then "YES" else "NO"
  }

  /** JSON values carried through unchanged. */
  datatype Json = JNull | JBool(b: bool) | JInt(i: int) | JStr(s: string) | JOther

  /** One entry of a post's `data`: its type (`"unknown"` when absent), id,
      API size, url, the urls of its `playerUrls` entries, and the whole
      record as the hash scan sees it. */
  datatype Media = Media(kind: string, id: Option<string>, size: Option<int>, url: Option<string>,
                         playerUrls: seq<Option<string>>, fields: map<string, Json>)

  /** One media item to inspect. */
  datatype Item = Item(kind: string, id: Option<string>, url: string, size: Option<int>,
                       hashFields: map<string, Json>)

  /** The video items of an `ok_video` record: one per non-empty player url. */
  function VideoItems(m: Media, urls: seq<Option<string>>): seq<Item>
    decreases |urls|
  {
    if urls == [] then []
    else
      var n := |urls| - 1;
      VideoItems(m, urls[..n])
        + (if TruthyStr(urls[n]) then [Item("video", m.id, urls[n].value, m.size, HashFields(m.fields))] else [])
  }

  predicate SingleUrlKind(kind: string) {
    kind == "image" || kind == "audio_file" || kind == "file"
  }

  predicate SignedKind(kind: string) {
    kind == "audio_file" || kind == "file"
  }

  /** The items one media record contributes. */
  function MediaItems(m: Media, signedQuery: string): seq<Item> {
    if m.kind == "ok_video" then VideoItems(m, m.playerUrls)
    else if SingleUrlKind(m.kind) && TruthyStr(m.url) then
      [Item(m.kind, m.id, if SignedKind(m.kind) then m.url.value + signedQuery else m.url.value,
            m.size, HashFields(m.fields))]
    else []
  }

  /** The items of all media, in order. */
  function Items(media: seq<Media>, signedQuery: string): seq<Item>
    decreases |media|
  {
    if media == [] then [] else Items(media[..|media| - 1], signedQuery) + MediaItems(media[|media| - 1], signedQuery)
  }

  /** The number of non-empty urls. */
  function CountTruthy(urls: seq<Option<string>>): nat
    decreases |urls|
  {
    if urls == [] then 0 else CountTruthy(urls[..|urls| - 1]) + (if TruthyStr(urls[|urls| - 1]) then 1 else 0)
  }

  /** Video items: one per non-empty url, each carrying that url, the
      record's id, size and hash fields, and never the signed query. */
  lemma {:induction false} VideoItemsShape(m: Media, urls: seq<Option<string>>)
    ensures |VideoItems(m, urls)| == CountTruthy(urls)
    ensures forall it :: it in VideoItems(m, urls) ==>
      && it.kind == "video" && it.url != "" && Some(it.url) in urls
      && it.id == m.id && it.size == m.size && it.hashFields == HashFields(m.fields)
    decreases |urls|
  {
    if urls != [] {
      var n := |urls| - 1;
      VideoItemsShape(m, urls[..n]);
      forall it | it in VideoItems(m, urls)
        ensures Some(it.url) in urls
      {
        if it in VideoItems(m, urls[..n]) {
          assert Some(it.url) in urls[..n];
        } else {
          assert urls[n] == Some(it.url);
        }
      }
    }
  }

  /** What one record contributes: one item per non-empty player url for
      `ok_video`, one item for an image, audio file or file with a
      non-empty url, nothing otherwise; the signed query is appended to
      audio files and files only. */
  lemma MediaItemsShape(m: Media, signedQuery: string)
    ensures m.kind == "ok_video" ==> |MediaItems(m, signedQuery)| == CountTruthy(m.playerUrls)
    ensures SingleUrlKind(m.kind) ==> |MediaItems(m, signedQuery)| == (if TruthyStr(m.url) then 1 else 0)
    ensures m.kind != "ok_video" && !SingleUrlKind(m.kind) ==> MediaItems(m, signedQuery) == []
    ensures forall it :: it in MediaItems(m, signedQuery) ==>
      && it.url != "" && it.id == m.id && it.size == m.size && it.hashFields == HashFields(m.fields)
      && (it.kind == "video" ==> m.kind == "ok_video" && Some(it.url) in m.playerUrls)
      && (it.kind != "video" ==> it.kind == m.kind && SingleUrlKind(it.kind) && m.url.Some?)
      && (SignedKind(it.kind) ==> it.url == m.url.value + signedQuery)
      && (it.kind == "image" ==> it.url == m.url.value)
  {
    if m.kind == "ok_video" {
      VideoItemsShape(m, m.playerUrls);
    }
  }

  lemma ItemsSnoc(media: seq<Media>, i: nat, signedQuery: string)
    requires i < |media|
    ensures Items(media[..i + 1], signedQuery) == Items(media[..i], signedQuery) + MediaItems(media[i], signedQuery)
  {
    assert media[..i + 1][..i] == media[..i];
  }

  lemma VideoItemsSnoc(m: Media, urls: seq<Option<string>>, j: nat)
    requires j < |urls|
    ensures VideoItems(m, urls[..j + 1]) ==
      VideoItems(m, urls[..j]) + (if TruthyStr(urls[j]) then [Item("video", m.id, urls[j].value, m.size, HashFields(m.fields))] else [])
  {
    assert urls[..j + 1][..j] == urls[..j];
  }

  /** The body of the extraction loop for one media record. */
  method ItemsOfMedia(m: Media, signedQuery: string) returns (out: seq<Item>)
    ensures out == MediaItems(m, signedQuery)
  {
    out := [];
    var hashFields := FindHashFields(m.fields);
    if m.kind == "ok_video" {
      var j := 0;
      SliceEnds(m.playerUrls);
      while j < |m.playerUrls|
        invariant 0 <= j <= |m.playerUrls|
        invariant out == VideoItems(m, m.playerUrls[..j])
      {
        var url := m.playerUrls[j];
        VideoItemsSnoc(m, m.playerUrls, j);
        if TruthyStr(url) {
          out := out + [Item("video", m.id, url.value, m.size, hashFields)];
        }
        j := j + 1;
      }
    } else if m.kind == "image" || m.kind == "audio_file" || m.kind == "file" {
      if TruthyStr(m.url) {
        var url := m.url.value;
        if m.kind == "audio_file" || m.kind == "file" {
          url := url + signedQuery;
        }
        out := [Item(m.kind, m.id, url, m.size, hashFields)];
      }
    }
  }

  /** The extraction loop of the probe's `main` over the post's media. */
  method ExtractItems(media: seq<Media>, signedQuery: string) returns (items: seq<Item>)
    ensures items == Items(media, signedQuery)
  {
    items := [];
    var i := 0;
    SliceEnds(media);
    while i < |media|
      invariant 0 <= i <= |media|
      invariant items == Items(media[..i], signedQuery)
    {
      var out := ItemsOfMedia(media[i], signedQuery);
      ItemsSnoc(media, i, signedQuery);
      items := items + out;
      i := i + 1;
    }
  }

  /** Python's `items[:limit]`: a negative limit drops that many items
      from the end. */
  function Shown(items: seq<Item>, limit: int): (r: seq<Item>)
    ensures |r| <= |items| && r == items[..|r|]
    ensures limit >= 0 ==> |r| == if limit < |items| then limit else |items|
    ensures limit < 0 ==> |r| == if |items| + limit > 0 then |items| + limit else 0
  {
    if limit >= 0 then (if limit < |items| then items[..limit] else items)
    else if |items| + limit > 0 then items[..|items| + limit]
    else []
  }

  /** The gaps reported for one item whose probe returned `length`. */
  datatype Warning = PlaylistUrl | NoHash | NoLength | NoSize | SizeMismatch(apiSize: int, length: int)

  /** The warnings of one item, in the order they are reported. */
  function Warnings(it: Item, length: Option<int>): seq<Warning> {
    (if IsPlaylistUrl(it.url) then [PlaylistUrl] else [])
    + (if it.hashFields == map[] then [NoHash] else [])
    + (if length.None? then [NoLength] else [])
    + (if it.size.None? then [NoSize] else [])
    + (if length.Some? && it.size.Some? && it.size.value != length.value
       then [SizeMismatch(it.size.value, length.value)] else [])
  }

  /** An item goes unwarned exactly when every check is available, the
      two sizes agree and its url is no playlist; a size mismatch is
      reported exactly when both sizes are known and differ. */
  lemma WarningsIff(it: Item, length: Option<int>)
    ensures Warnings(it, length) == [] <==>
      !IsPlaylistUrl(it.url) && it.hashFields != map[] && length.Some? && it.size.Some?
      && it.size.value == length.value
    ensures (exists a, b :: SizeMismatch(a, b) in Warnings(it, length)) <==>
      length.Some? && it.size.Some? && it.size.value != length.value
  {
    var w := Warnings(it, length);
    if length.Some? && it.size.Some? && it.size.value != length.value {
      assert w[|w| - 1] == SizeMismatch(it.size.value, length.value);
    }
  }

  /** The number of warned items among `items`, probed as `lengths`. */
  function WarnedCount(items: seq<Item>, lengths: seq<Option<int>>): nat
    requires |lengths| == |items|
    decreases |items|
  {
    if items == [] then 0
    else
      var n := |items| - 1;
      WarnedCount(items[..n], lengths[..n]) + (if Warnings(items[n], lengths[n]) != [] then 1 else 0)
  }

  /** The count is at most the number of items, and zero exactly when no
      item has a warning. */
  lemma {:induction false} WarnedCountBounds(items: seq<Item>, lengths: seq<Option<int>>)
    requires |lengths| == |items|
    ensures WarnedCount(items, lengths) <= |items|
    ensures WarnedCount(items, lengths) == 0 <==> forall i :: 0 <= i < |items| ==> Warnings(items[i], lengths[i]) == []
    decreases |items|
  {
    if items != [] {
      var n := |items| - 1;
      WarnedCountBounds(items[..n], lengths[..n]);
      if WarnedCount(items, lengths) == 0 {
        forall i | 0 <= i < |items|
          ensures Warnings(items[i], lengths[i]) == []
        {
          if i < n {
            assert items[..n][i] == items[i] && lengths[..n][i] == lengths[i];
          }
        }
      } else if WarnedCount(items[..n], lengths[..n]) > 0 {
        var i :| 0 <= i < n && Warnings(items[..n][i], lengths[..n][i]) != [];
        assert items[..n][i] == items[i] && lengths[..n][i] == lengths[i];
      }
    }
  }

  lemma WarnedCountSnoc(items: seq<Item>, lengths: seq<Option<int>>, i: nat)
    requires i < |items| == |lengths|
    ensures WarnedCount(items[..i + 1], lengths[..i + 1]) ==
      WarnedCount(items[..i], lengths[..i]) + (if Warnings(items[i], lengths[i]) != [] then 1 else 0)
  {
    assert items[..i + 1][..i] == items[..i] && lengths[..i + 1][..i] == lengths[..i];
  }

  /** The warnings built for one inspected item. */
  method ItemWarnings(item: Item, length: Option<int>) returns (warnings: seq<Warning>)
    ensures warnings == Warnings(item, length)
  {
    warnings := [];
    if IsPlaylistUrl(item.url) {
      warnings := warnings + [PlaylistUrl];
    }
    if item.hashFields == map[] {
      warnings := warnings + [NoHash];
    }
    if length.None? {
      warnings := warnings + [NoLength];
    }
    if item.size.None? {
      warnings := warnings + [NoSize];
    }
    if length.Some? && item.size.Some? && item.size.value != length.value {
      warnings := warnings + [SizeMismatch(item.size.value, length.value)];
    }
  }

  /** The inspection loop: the shown items are probed (`lengths[i]` is the
      Content-Length returned for the i-th shown item), their warnings
      built, and the warned ones counted. */
  method CountWarned(items: seq<Item>, limit: int, lengths: seq<Option<int>>) returns (warned: nat)
    requires |lengths| == |Shown(items, limit)|
    ensures warned == WarnedCount(Shown(items, limit), lengths)
  {
    var shown := Shown(items, limit);
    warned := 0;
    var i := 0;
    SliceEnds(shown);
    SliceEnds(lengths);
    while i < |shown|
      invariant 0 <= i <= |shown|
      invariant warned == WarnedCount(shown[..i], lengths[..i])
    {
      var warnings := ItemWarnings(shown[i], lengths[i]);
      WarnedCountSnoc(shown, lengths, i);
      if warnings != [] {
        warned := warned + 1;
      }
      i := i + 1;
    }
  }
}
