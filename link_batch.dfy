/** The batch ("links file") mode of main.py: reading the links file into
    parsed and invalid links, the per-link wrapper around the single-post
    download, and the bucketing of the per-link results with de-duplicated
    incomplete links and files. */
module LinkBatch {
  import opened Common

  /** Whether a stripped line is wrapped in a matching pair of `c`. */
  predicate WrappedIn(s: string, c: char) {
    |s| > 0 && s[0] == c && s[|s| - 1] == c
  }

  /** Python's `s[1:-1]`: empty for a string of length one. */
  function Inner(s: string): (r: string)
    ensures |s| >= 2 ==> r == s[1..|s| - 1]
    ensures |s| < 2 ==> r == []
  {
    if |s| < 2 then [] else s[1..|s| - 1]
  }

  /** One line of the links file after cleaning: `None` when it is blank
      or a comment, otherwise the stripped line with one matching pair of
      outer quotes removed and stripped again. */
  function CleanLine(line: string): (r: Option<string>)
    ensures r.None? <==> Strip(line) == [] || Strip(line)[0] == '#'
    ensures r.Some? && r.value != [] ==> !IsSpace(r.value[0]) && !IsSpace(r.value[|r.value| - 1])
  {
    var stripped := Strip(line);
    if stripped == [] || stripped[0] == '#' then None
    else if WrappedIn(stripped, '"') || WrappedIn(stripped, '\'') then Some(Strip(Inner(stripped)))
    else Some(stripped)
  }

  /** Stripping a string without surrounding whitespace changes nothing. */
  lemma StripKeeps(s: string)
    requires s != [] && !IsSpace(s[0]) && !IsSpace(s[|s| - 1])
    ensures Strip(s) == s
  {
  }

  /** A quoted link loses exactly its outer pair of quotes, and what is
      inside is stripped. */
  lemma CleanLineUnquotes(t: string, q: char)
    requires q == '"' || q == '\''
    ensures CleanLine([q] + t + [q]) == Some(Strip(t))
  {
    var s := [q] + t + [q];
    StripKeeps(s);
    assert Inner(s) == t;
  }

  /** A link the parser accepted: creator, post id and the cleaned line. */
  datatype Link = Link(creator: string, postId: string, raw: string)

  /** What reading the links file yields: `Malformed` stands for raising
      `ConfigMalformedExc`. */
  datatype LinksFile = Malformed | Links(parsed: seq<Link>, invalid: seq<string>)

  /** The cleaned lines that are kept, in file order. */
  function Kept(lines: seq<string>): seq<string>
    decreases |lines|
  {
    if lines == [] then []
    else
      var n := |lines| - 1;
      Kept(lines[..n]) + (match CleanLine(lines[n]) case None => [] case Some(s) => [s])
  }

  /** The lines classified: a kept line whose parsed post id is non-empty
      becomes a link, any other kept line is invalid. */
  function ParseLines(lines: seq<string>, parse: string -> (string, Option<string>)): (seq<Link>, seq<string>)
    decreases |lines|
  {
    if lines == [] then ([], [])
    else
      var n := |lines| - 1;
      var prev := ParseLines(lines[..n], parse);
      match CleanLine(lines[n])
      case None => prev
      case Some(s) =>
        var (creator, postId) := parse(s);
        if TruthyStr(postId) then (prev.0 + [Link(creator, postId.value, s)], prev.1)
        else (prev.0, prev.1 + [s])
  }

  /** The cleaned lines of parsed links, in order. */
  function Raws(links: seq<Link>): seq<string>
    decreases |links|
  {
    if links == [] then [] else Raws(links[..|links| - 1]) + [links[|links| - 1].raw]
  }

  lemma ParseLinesSnoc(lines: seq<string>, line: string, parse: string -> (string, Option<string>))
    ensures var prev := ParseLines(lines, parse);
      ParseLines(lines + [line], parse) ==
        match CleanLine(line)
        case None => prev
        case Some(s) =>
          if TruthyStr(parse(s).1) then (prev.0 + [Link(parse(s).0, parse(s).1.value, s)], prev.1)
          else (prev.0, prev.1 + [s])
  {
    assert (lines + [line])[..|lines|] == lines;
  }

  /** Every kept line lands in exactly one of the two lists. */
  lemma {:induction false} ParseLinesPartition(lines: seq<string>, parse: string -> (string, Option<string>))
    ensures var r := ParseLines(lines, parse);
      multiset(Raws(r.0)) + multiset(r.1) == multiset(Kept(lines))
    decreases |lines|
  {
    if lines != [] {
      var n := |lines| - 1;
      ParseLinesPartition(lines[..n], parse);
      var prev := ParseLines(lines[..n], parse);
      match CleanLine(lines[n])
      case None =>
        assert Kept(lines) == Kept(lines[..n]);
      case Some(s) =>
        assert Kept(lines) == Kept(lines[..n]) + [s];
        var (creator, postId) := parse(s);
        if TruthyStr(postId) {
          var l := Link(creator, postId.value, s);
          assert (prev.0 + [l])[..|prev.0|] == prev.0;
        }
    }
  }

  /** Each parsed link is what the parser returned for its line, with a
      non-empty post id; each invalid line has none. */
  lemma {:induction false} ParseLinesClassified(lines: seq<string>, parse: string -> (string, Option<string>))
    ensures var r := ParseLines(lines, parse);
      && (forall l :: l in r.0 ==> parse(l.raw) == (l.creator, Some(l.postId)) && l.postId != "")
      && (forall s :: s in r.1 ==> !TruthyStr(parse(s).1))
    decreases |lines|
  {
    if lines != [] {
      var n := |lines| - 1;
      ParseLinesClassified(lines[..n], parse);
      var prev := ParseLines(lines[..n], parse);
      match CleanLine(lines[n])
      case None =>
      case Some(s) =>
        var (creator, postId) := parse(s);
        if TruthyStr(postId) {
          assert ParseLines(lines, parse) == (prev.0 + [Link(creator, postId.value, s)], prev.1);
        } else {
          assert ParseLines(lines, parse) == (prev.0, prev.1 + [s]);
        }
    }
  }

  /** The links-file branch of `main`: a file that cannot be read, or that
      yields no valid link, is malformed; otherwise the parsed links and
      the invalid lines, both in file order. */
  method ParseLinksFile(lines: Option<seq<string>>, parse: string -> (string, Option<string>)) returns (r: LinksFile)
    ensures lines.None? ==> r == Malformed
    ensures lines.Some? ==>
      var p := ParseLines(lines.value, parse);
      r == if p.0 == [] then Malformed else Links(p.0, p.1)
  {
    if lines.None? {
      return Malformed;
    }
    var raw := lines.value;
    var parsed: seq<Link> := [];
    var invalid: seq<string> := [];
    var i := 0;
    SliceEnds(raw);
    while i < |raw|
      invariant 0 <= i <= |raw|
      invariant (parsed, invalid) == ParseLines(raw[..i], parse)
    {
      ParseLinesSnoc(raw[..i], raw[i], parse);
      SliceSnoc(raw, i);
      var stripped := Strip(raw[i]);
      i := i + 1;
      if stripped == [] || stripped[0] == '#' {
        continue;
      }
      if WrappedIn(stripped, '"') || WrappedIn(stripped, '\'') {
        stripped := Strip(Inner(stripped));
      }
      var (creator, postId) := parse(stripped);
      if !TruthyStr(postId) {
        invalid := invalid + [stripped];
        continue;
      }
      parsed := parsed + [Link(creator, postId.value, stripped)];
    }
    if parsed == [] {
      return Malformed;
    }
    r := Links(parsed, invalid);
  }

  /** `max(1, max_download_parallel)`: the number of links processed at
      once is at least one. */
  function PostParallel(configured: int): (r: int)
    ensures r >= 1
    ensures r == configured || (configured < 1 && r == 1)
  {
    if configured < 1 then 1 else configured
  }

  /** What `process_link` returns for one link. */
  datatype LinkResult = LinkResult(raw: string, status: string, files: seq<string>)

  /** `process_link`: a creator whose sync data could not be prepared, or a
      single-post download that raised (`None`), gives `"error"` and no
      files; otherwise the download's own status and incomplete files. */
  function ProcessLink(creator: string, raw: string, syncDataErrors: set<string>,
                       outcome: Option<(string, seq<string>)>): (r: LinkResult)
    ensures r.raw == raw
    ensures creator in syncDataErrors || outcome.None? ==> r.status == "error" && r.files == []
    ensures creator !in syncDataErrors && outcome.Some? ==> r.status == outcome.value.0 && r.files == outcome.value.1
  {
    if creator in syncDataErrors then LinkResult(raw, "error", [])
    else match outcome
      case None => LinkResult(raw, "error", [])
      case Some((status, files)) => LinkResult(raw, status, files)
  }

  /** The three summary buckets. */
  datatype Bucket = Succeeded | Skipped | Failed

  /** `"downloaded"` and `"ok"` succeed, `"skipped"` is skipped, any other
      status fails. */
  function BucketOf(status: string): Bucket {
    if status == "downloaded" || status == "ok" then Succeeded
    else if status == "skipped" then Skipped
    else Failed
  }

  /** The links of the results that fall into bucket `b`, in result order. */
  function LinksIn(results: seq<LinkResult>, b: Bucket): seq<string>
    decreases |results|
  {
    if results == [] then []
    else
      var n := |results| - 1;
      LinksIn(results[..n], b) + (if BucketOf(results[n].status) == b then [results[n].raw] else [])
  }

  /** Every result lands in exactly one bucket. */
  lemma {:induction false} BucketsPartition(results: seq<LinkResult>)
    ensures multiset(LinksIn(results, Succeeded)) + multiset(LinksIn(results, Skipped))
          + multiset(LinksIn(results, Failed)) == multiset(ResultLinks(results))
    decreases |results|
  {
    if results != [] {
      var n := |results| - 1;
      var prev := results[..n];
      var raw := results[n].raw;
      BucketsPartition(prev);
      match BucketOf(results[n].status)
      case Succeeded =>
        assert LinksIn(results, Succeeded) == LinksIn(prev, Succeeded) + [raw];
        assert LinksIn(results, Skipped) == LinksIn(prev, Skipped);
        assert LinksIn(results, Failed) == LinksIn(prev, Failed);
      case Skipped =>
        assert LinksIn(results, Succeeded) == LinksIn(prev, Succeeded);
        assert LinksIn(results, Skipped) == LinksIn(prev, Skipped) + [raw];
        assert LinksIn(results, Failed) == LinksIn(prev, Failed);
      case Failed =>
        assert LinksIn(results, Succeeded) == LinksIn(prev, Succeeded);
        assert LinksIn(results, Skipped) == LinksIn(prev, Skipped);
        assert LinksIn(results, Failed) == LinksIn(prev, Failed) + [raw];
    }
  }

  /** The links of the results, in order. */
  function ResultLinks(results: seq<LinkResult>): seq<string>
    decreases |results|
  {
    if results == [] then [] else ResultLinks(results[..|results| - 1]) + [results[|results| - 1].raw]
  }

  /** Append `x` unless it is already present. */
  function AppendNew(acc: seq<string>, x: string): seq<string> {
    if x in acc then acc else acc + [x]
  }

  /** The values of `xs` appended to `acc` one by one, skipping those
      already present. */
  function DedupInto(acc: seq<string>, xs: seq<string>): seq<string>
    decreases |xs|
  {
    if xs == [] then acc else AppendNew(DedupInto(acc, xs[..|xs| - 1]), xs[|xs| - 1])
  }

  predicate NoDuplicates(s: seq<string>) {
    forall i, j :: 0 <= i < j < |s| ==> s[i] != s[j]
  }

  /** The elements of `xs` at their first occurrence, in order. */
  function FirstOccurrences(xs: seq<string>): seq<string>
    decreases |xs|
  {
    if xs == [] then []
    else
      var n := |xs| - 1;
      FirstOccurrences(xs[..n]) + (if xs[n] in xs[..n] then [] else [xs[n]])
  }

  /** De-duplicating keeps what was there, adds exactly the new values, and
      never repeats one. */
  lemma {:induction false} DedupIntoMembers(acc: seq<string>, xs: seq<string>)
    requires NoDuplicates(acc)
    ensures var r := DedupInto(acc, xs);
      && NoDuplicates(r)
      && |acc| <= |r| && r[..|acc|] == acc
      && forall x :: x in r <==> x in acc || x in xs
    decreases |xs|
  {
    if xs != [] {
      var n := |xs| - 1;
      DedupIntoMembers(acc, xs[..n]);
      assert xs == xs[..n] + [xs[n]];
    }
  }

  /** Starting empty, de-duplication keeps each value at its first
      occurrence, in first-seen order. */
  lemma {:induction false} DedupIsFirstOccurrences(xs: seq<string>)
    ensures DedupInto([], xs) == FirstOccurrences(xs)
    decreases |xs|
  {
    if xs != [] {
      var n := |xs| - 1;
      DedupIsFirstOccurrences(xs[..n]);
      DedupIntoMembers([], xs[..n]);
    }
  }

  /** De-duplicating a concatenation is de-duplicating one part after the
      other. */
  lemma {:induction false} DedupIntoAppend(acc: seq<string>, xs: seq<string>, ys: seq<string>)
    ensures DedupInto(acc, xs + ys) == DedupInto(DedupInto(acc, xs), ys)
    decreases |ys|
  {
    if ys == [] {
      assert xs + ys == xs;
    } else {
      var n := |ys| - 1;
      DedupIntoAppend(acc, xs, ys[..n]);
      assert (xs + ys)[..|xs + ys| - 1] == xs + ys[..n];
    }
  }

  /** The links that reported incomplete files, in result order. */
  function IncompleteLinks(results: seq<LinkResult>): seq<string>
    decreases |results|
  {
    if results == [] then []
    else
      var n := |results| - 1;
      IncompleteLinks(results[..n]) + (if results[n].files != [] then [results[n].raw] else [])
  }

  /** Every reported incomplete file, in result order. */
  function AllFiles(results: seq<LinkResult>): seq<string>
    decreases |results|
  {
    if results == [] then [] else AllFiles(results[..|results| - 1]) + results[|results| - 1].files
  }

  /** The summary lists after the results `results`. */
  datatype Summary = Summary(succeeded: seq<string>, skipped: seq<string>, failed: seq<string>,
                             incompleteLinks: seq<string>, incompleteFiles: seq<string>)

  function Summarize(results: seq<LinkResult>): Summary {
    Summary(LinksIn(results, Succeeded), LinksIn(results, Skipped), LinksIn(results, Failed),
            DedupInto([], IncompleteLinks(results)), DedupInto([], AllFiles(results)))
  }

  lemma SummarizeSnoc(results: seq<LinkResult>, r: LinkResult)
    ensures var s := Summarize(results);
      var b := BucketOf(r.status);
      Summarize(results + [r]) == Summary(
        if b == Succeeded then s.succeeded + [r.raw] else s.succeeded,
        if b == Skipped then s.skipped + [r.raw] else s.skipped,
        if b == Failed then s.failed + [r.raw] else s.failed,
        if r.files != [] then AppendNew(s.incompleteLinks, r.raw) else s.incompleteLinks,
        DedupInto(s.incompleteFiles, r.files))
  {
    var all := results + [r];
    assert all[..|results|] == results;
    if r.files != [] {
      assert IncompleteLinks(all) == IncompleteLinks(results) + [r.raw];
      assert DedupInto([], IncompleteLinks(results) + [r.raw])[..] == AppendNew(DedupInto([], IncompleteLinks(results)), r.raw) by {
        assert (IncompleteLinks(results) + [r.raw])[..|IncompleteLinks(results)|] == IncompleteLinks(results);
      }
    } else {
      assert IncompleteLinks(all) == IncompleteLinks(results);
    }
    assert AllFiles(all) == AllFiles(results) + r.files;
    DedupIntoAppend([], AllFiles(results), r.files);
  }

  /** The incomplete paths of one result appended without repeats. */
  method AddFiles(acc: seq<string>, files: seq<string>) returns (acc': seq<string>)
    ensures acc' == DedupInto(acc, files)
  {
    acc' := acc;
    var k := 0;
    SliceEnds(files);
    while k < |files|
      invariant 0 <= k <= |files|
      invariant acc' == DedupInto(acc, files[..k])
    {
      SliceSnoc(files, k);
      if files[k] !in acc' {
        acc' := acc' + [files[k]];
      }
      k := k + 1;
    }
  }

  /** The loop over the gathered results: each link goes to one bucket,
      and links and files with incomplete downloads are collected without
      repeats. */
  method SummarizeResults(results: seq<LinkResult>) returns (s: Summary)
    ensures s == Summarize(results)
  {
    var succeeded, skipped, failed, incompleteLinks, incompleteFiles := [], [], [], [], [];
    var i := 0;
    SliceEnds(results);
    while i < |results|
      invariant 0 <= i <= |results|
      invariant Summary(succeeded, skipped, failed, incompleteLinks, incompleteFiles) == Summarize(results[..i])
    {
      var r := results[i];
      SummarizeSnoc(results[..i], r);
      SliceSnoc(results, i);
      if r.files != [] {
        if r.raw !in incompleteLinks {
          incompleteLinks := incompleteLinks + [r.raw];
        }
        incompleteFiles := AddFiles(incompleteFiles, r.files);
      }
      if r.status == "downloaded" {
        succeeded := succeeded + [r.raw];
      } else if r.status == "skipped" {
        skipped := skipped + [r.raw];
      } else if r.status == "ok" {
        succeeded := succeeded + [r.raw];
      } else {
        failed := failed + [r.raw];
      }
      i := i + 1;
    }
    s := Summary(succeeded, skipped, failed, incompleteLinks, incompleteFiles);
  }

  /** The summary's lists: the buckets partition the links, and the
      incomplete links and files are listed once each, in first-seen
      order. */
  lemma SummaryProperties(results: seq<LinkResult>)
    ensures var s := Summarize(results);
      && multiset(s.succeeded) + multiset(s.skipped) + multiset(s.failed) == multiset(ResultLinks(results))
      && s.incompleteLinks == FirstOccurrences(IncompleteLinks(results))
      && s.incompleteFiles == FirstOccurrences(AllFiles(results))
      && NoDuplicates(s.incompleteLinks) && NoDuplicates(s.incompleteFiles)
  {
    BucketsPartition(results);
    DedupIsFirstOccurrences(IncompleteLinks(results));
    DedupIsFirstOccurrences(AllFiles(results));
    DedupIntoMembers([], IncompleteLinks(results));
    DedupIntoMembers([], AllFiles(results));
  }
}
