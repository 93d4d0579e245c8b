/**
 * The static-site build (src/seo/generate.js): the URL list, the split of the
 * sitemap into files of at most 50,000 URLs with a sitemap index (the limit
 * of the Sitemaps protocol 0.9), and the page-writing run. The file system
 * is modelled as the list of files written, in order; each file's content is
 * named by what it renders rather than spelled out.
 */
module Generate {
  import opened Wrappers
  import opened SeoModel
  import opened Text
  import Validate

  const SITEMAP_URL_LIMIT: nat := 50000

  /** One `<url>` entry of a sitemap. */
  datatype UrlEntry = UrlEntry(loc: string, priority: string, changefreq: string, lastmod: string)

  /** The home page's entry. */
  function HomeEntry(today: string): UrlEntry
  {
    UrlEntry("/", "1.0", "weekly", today)
  }

  function HubEntry(c: Category, today: string): UrlEntry
  {
    UrlEntry("/" + c.slug + "/", "0.8", "weekly", today)
  }

  function TopicEntry(t: Topic, today: string): UrlEntry
  {
    UrlEntry("/" + t.category + "/" + t.slug + "/", "0.6", "monthly", today)
  }

  /** `buildUrlList` (src/seo/generate.js:86-103); `today` is the build date. */
  function BuildUrlList(categories: seq<Category>, topics: seq<Topic>, today: string): (urls: seq<UrlEntry>)
    ensures |urls| == 1 + |categories| + |topics|
  {
    [HomeEntry(today)]
    + seq(|categories|, i requires 0 <= i < |categories| => HubEntry(categories[i], today))
    + seq(|topics|, i requires 0 <= i < |topics| => TopicEntry(topics[i], today))
  }

  /**
   * The home page comes first, then one hub per category in order, then one
   * page per topic in order at the topic's canonical path.
   */
  lemma UrlListOrder(categories: seq<Category>, topics: seq<Topic>, today: string)
    ensures var urls := BuildUrlList(categories, topics, today);
      urls[0].loc == "/" && urls[0].priority == "1.0"
      && (forall i | 0 <= i < |categories| :: urls[1 + i].loc == "/" + categories[i].slug + "/" && urls[1 + i].priority == "0.8")
      && (forall j | 0 <= j < |topics| :: urls[1 + |categories| + j].loc == Canonical(topics[j]) && urls[1 + |categories| + j].priority == "0.6")
      && forall u | u in urls :: u.lastmod == today
  {
  }

  /**
   * Without `/` inside slugs, distinct category slugs and distinct topic
   * canonicals give a sitemap with no location listed twice.
   */
  lemma UrlListDistinct(categories: seq<Category>, topics: seq<Topic>, today: string)
    requires forall c | c in categories :: '/' !in c.slug && c.slug != ""
    requires forall i, j | 0 <= i < j < |categories| :: categories[i].slug != categories[j].slug
    requires Validate.DistinctCanonicals(topics)
    ensures var urls := BuildUrlList(categories, topics, today);
      forall i, j | 0 <= i < j < |urls| :: urls[i].loc != urls[j].loc
  {
    var urls := BuildUrlList(categories, topics, today);
    var n := |categories|;
    forall i, j | 0 <= i < j < |urls|
      ensures urls[i].loc != urls[j].loc
    {
      if i == 0 {
        assert |urls[j].loc| >= 2;
      } else if j <= n {
        var a, b := categories[i - 1].slug, categories[j - 1].slug;
        assert urls[i].loc[1..|urls[i].loc| - 1] == a;
        assert urls[j].loc[1..|urls[j].loc| - 1] == b;
      } else if i <= n {
        HubIsNotTopic(categories[i - 1], topics[j - 1 - n]);
      }
    }
  }

  /** A hub's path `/c/` is not a topic path `/category/slug/` when c has no `/`. */
  lemma HubIsNotTopic(c: Category, t: Topic)
    requires '/' !in c.slug
    ensures "/" + c.slug + "/" != Canonical(t)
  {
    var hub, page := "/" + c.slug + "/", Canonical(t);
    if |hub| == |page| {
      var k := 1 + |t.category|;
      assert page[k] == '/';
      assert |c.slug| == |t.category| + 1 + |t.slug|;
      assert hub[k] == c.slug[|t.category|];
      assert c.slug[|t.category|] in c.slug;
    }
  }

  function Min(a: nat, b: nat): nat
  {
    if a <= b then a else b
  }

  /** The chunks `urls.slice(i, i + 50000)` for i, i + 50000, ... below the length. */
  function ChunksOf(urls: seq<UrlEntry>, i: nat): seq<seq<UrlEntry>>
    decreases |urls| - i
  {
    if i >= |urls| then [] else [urls[i..Min(i + SITEMAP_URL_LIMIT, |urls|)]] + ChunksOf(urls, i + SITEMAP_URL_LIMIT)
  }

  /** The chunking loop (src/seo/generate.js:116-119). */
  method ChunkUrls(urls: seq<UrlEntry>) returns (chunks: seq<seq<UrlEntry>>)
    ensures chunks == ChunksOf(urls, 0)
  {
    chunks := [];
    var i: nat := 0;
    while i < |urls|
      invariant chunks + ChunksOf(urls, i) == ChunksOf(urls, 0)
      decreases |urls| - i
    {
      var end := if i + SITEMAP_URL_LIMIT <= |urls| then i + SITEMAP_URL_LIMIT else |urls|;
      var chunk := urls[i..end];
      assert ChunksOf(urls, i) == [chunk] + ChunksOf(urls, i + SITEMAP_URL_LIMIT);
      assert (chunks + [chunk]) + ChunksOf(urls, i + SITEMAP_URL_LIMIT) == chunks + ChunksOf(urls, i);
      chunks := chunks + [chunk];
      i := i + SITEMAP_URL_LIMIT;
    }
    assert ChunksOf(urls, i) == [];
    assert chunks + [] == chunks;
  }

  /** The chunks laid end to end. */
  function Flatten(chunks: seq<seq<UrlEntry>>): seq<UrlEntry>
  {
    if chunks == [] then [] else chunks[0] + Flatten(chunks[1..])
  }

  /** The chunks put back together are the URLs from i on: nothing lost, repeated or reordered. */
  lemma {:induction false} ChunksFlatten(urls: seq<UrlEntry>, i: nat)
    requires i <= |urls|
    ensures Flatten(ChunksOf(urls, i)) == urls[i..]
    decreases |urls| - i
  {
    if i < |urls| {
      var j := Min(i + SITEMAP_URL_LIMIT, |urls|);
      var cs := ChunksOf(urls, i);
      assert cs[1..] == ChunksOf(urls, i + SITEMAP_URL_LIMIT);
      if i + SITEMAP_URL_LIMIT < |urls| {
        ChunksFlatten(urls, i + SITEMAP_URL_LIMIT);
      } else {
        assert ChunksOf(urls, i + SITEMAP_URL_LIMIT) == [];
      }
      assert urls[i..] == urls[i..j] + urls[j..];
    }
  }

  /** Every chunk holds between 1 and 50000 URLs, and every chunk but the last holds exactly 50000. */
  lemma {:induction false} ChunkSizes(urls: seq<UrlEntry>, i: nat)
    ensures var cs := ChunksOf(urls, i);
      forall k | 0 <= k < |cs| :: 0 < |cs[k]| <= SITEMAP_URL_LIMIT && (k < |cs| - 1 ==> |cs[k]| == SITEMAP_URL_LIMIT)
    decreases |urls| - i
  {
    if i < |urls| {
      ChunkSizes(urls, i + SITEMAP_URL_LIMIT);
      var cs := ChunksOf(urls, i);
      assert cs[1..] == ChunksOf(urls, i + SITEMAP_URL_LIMIT);
      forall k | 0 <= k < |cs|
        ensures 0 < |cs[k]| <= SITEMAP_URL_LIMIT && (k < |cs| - 1 ==> |cs[k]| == SITEMAP_URL_LIMIT)
      {
        if k == 0 && |cs| > 1 {
          assert i + SITEMAP_URL_LIMIT < |urls|;
        } else if k > 0 {
          assert cs[k] == cs[1..][k - 1];
        }
      }
    }
  }

  /** There are ceil((n - i) / 50000) chunks. */
  lemma {:induction false} ChunkCount(urls: seq<UrlEntry>, i: nat)
    requires i <= |urls|
    ensures |ChunksOf(urls, i)| == (|urls| - i + SITEMAP_URL_LIMIT - 1) / SITEMAP_URL_LIMIT
    decreases |urls| - i
  {
    if i < |urls| {
      if i + SITEMAP_URL_LIMIT <= |urls| {
        ChunkCount(urls, i + SITEMAP_URL_LIMIT);
      } else {
        assert ChunksOf(urls, i + SITEMAP_URL_LIMIT) == [];
      }
    }
  }

  /** What a written file holds. */
  datatype Output =
    | UrlSet(urls: seq<UrlEntry>)
    | SitemapIndex(locs: seq<string>, lastmod: string)
    | HubPage(category: Category)
    | TopicPage(topic: Topic)
    | Robots
    | NotFoundPage

  /** A file written under the output directory, with its path as segments. */
  datatype FileWrite = FileWrite(path: seq<string>, output: Output)

  /** `sitemap-${k}.xml`. */
  function SitemapName(k: nat): string
  {
    "sitemap-" + NatToString(k) + ".xml"
  }

  /** The index's `<loc>` for the k-th sitemap file. */
  function SitemapLoc(k: nat): string
  {
    SITE_URL + "/" + SitemapName(k)
  }

  /** The files `generateSitemaps` writes (src/seo/generate.js:108-138). */
  function SitemapWrites(urls: seq<UrlEntry>, today: string): seq<FileWrite>
  {
    if |urls| <= SITEMAP_URL_LIMIT then [FileWrite(["sitemap.xml"], UrlSet(urls))]
    else
      var chunks := ChunksOf(urls, 0);
      seq(|chunks|, k requires 0 <= k < |chunks| => FileWrite([SitemapName(k + 1)], UrlSet(chunks[k])))
      + [FileWrite(["sitemap.xml"], SitemapIndex(seq(|chunks|, k requires 0 <= k < |chunks| => SitemapLoc(k + 1)), today))]
  }

  /** `generateSitemaps`: a single sitemap, or the chunk files followed by the index. */
  method GenerateSitemaps(urls: seq<UrlEntry>, today: string) returns (writes: seq<FileWrite>)
    ensures writes == SitemapWrites(urls, today)
  {
    if |urls| <= SITEMAP_URL_LIMIT {
      writes := [FileWrite(["sitemap.xml"], UrlSet(urls))];
    } else {
      var chunks := ChunkUrls(urls);
      writes := [];
      var locs: seq<string> := [];
      for idx := 0 to |chunks|
        invariant writes == seq(idx, k requires 0 <= k < idx => FileWrite([SitemapName(k + 1)], UrlSet(chunks[k])))
        invariant locs == seq(idx, k requires 0 <= k < idx => SitemapLoc(k + 1))
      {
        writes := writes + [FileWrite([SitemapName(idx + 1)], UrlSet(chunks[idx]))];
        locs := locs + [SITE_URL + "/" + SitemapName(idx + 1)];
      }
      writes := writes + [FileWrite(["sitemap.xml"], SitemapIndex(locs, today))];
    }
  }

  /** Distinct numbers give distinct sitemap file names. */
  lemma SitemapNameInjective(a: nat, b: nat)
    requires SitemapName(a) == SitemapName(b)
    ensures a == b
  {
    var sa, sb := SitemapName(a), SitemapName(b);
    assert NatToString(a) == sa[8..|sa| - 4];
    assert NatToString(b) == sb[8..|sb| - 4];
    NatToStringInjective(a, b);
  }

  /**
   * With at most 50000 URLs one sitemap holds them all. Beyond that, the
   * files `sitemap-1.xml`, ..., `sitemap-k.xml` hold the chunks in order, at
   * most 50000 URLs each and together exactly the URL list, with k =
   * ceil(n / 50000); the last file written is the index listing each chunk
   * file's URL in the same order.
   */
  lemma SitemapPlan(urls: seq<UrlEntry>, today: string)
    ensures var w := SitemapWrites(urls, today);
      |urls| <= SITEMAP_URL_LIMIT ==> w == [FileWrite(["sitemap.xml"], UrlSet(urls))]
    ensures var w := SitemapWrites(urls, today);
      |urls| > SITEMAP_URL_LIMIT ==>
        var k := (|urls| + SITEMAP_URL_LIMIT - 1) / SITEMAP_URL_LIMIT;
        |w| == k + 1
        && (forall j | 0 <= j < k :: w[j].path == [SitemapName(j + 1)] && w[j].output.UrlSet?
              && |w[j].output.urls| <= SITEMAP_URL_LIMIT)
        && Flatten(seq(k, j requires 0 <= j < k => w[j].output.urls)) == urls
        && w[k] == FileWrite(["sitemap.xml"], SitemapIndex(seq(k, j requires 0 <= j < k => SitemapLoc(j + 1)), today))
  {
    if |urls| > SITEMAP_URL_LIMIT {
      var chunks := ChunksOf(urls, 0);
      ChunkCount(urls, 0);
      ChunkSizes(urls, 0);
      ChunksFlatten(urls, 0);
      var w := SitemapWrites(urls, today);
      var k := |chunks|;
      assert seq(k, j requires 0 <= j < k => w[j].output.urls) == chunks;
      assert urls[0..] == urls;
    }
  }

  /** The sitemap files of an index have pairwise distinct names, so none overwrites another. */
  lemma SitemapFilesDistinct(urls: seq<UrlEntry>, today: string)
    ensures var w := SitemapWrites(urls, today);
      forall i, j | 0 <= i < j < |w| - 1 :: w[i].path != w[j].path
  {
    var w := SitemapWrites(urls, today);
    if |urls| > SITEMAP_URL_LIMIT {
      forall i, j | 0 <= i < j < |w| - 1
        ensures w[i].path != w[j].path
      {
        if w[i].path == w[j].path {
          assert w[i].path[0] == SitemapName(i + 1) && w[j].path[0] == SitemapName(j + 1);
          SitemapNameInjective(i + 1, j + 1);
        }
      }
    }
  }

  /** The keys of `CATEGORIES`, which are the categories' slugs. */
  function CategoryKeys(categories: seq<Category>): set<string>
  {
    set c | c in categories :: c.slug
  }

  function HubWrite(c: Category): FileWrite
  {
    FileWrite([c.slug, "index.html"], HubPage(c))
  }

  function TopicWrite(t: Topic): FileWrite
  {
    FileWrite([t.category, t.slug, "index.html"], TopicPage(t))
  }

  function HubWrites(categories: seq<Category>): seq<FileWrite>
  {
    seq(|categories|, i requires 0 <= i < |categories| => HubWrite(categories[i]))
  }

  function TopicWrites(topics: seq<Topic>): seq<FileWrite>
  {
    seq(|topics|, i requires 0 <= i < |topics| => TopicWrite(topics[i]))
  }

  /** Everything a successful run writes, in order: hubs, topic pages, sitemaps, robots.txt, the 404 page. */
  function BuildWrites(categories: seq<Category>, topics: seq<Topic>, today: string): seq<FileWrite>
  {
    HubWrites(categories) + TopicWrites(topics)
    + SitemapWrites(BuildUrlList(categories, topics, today), today)
    + [FileWrite(["robots.txt"], Robots), FileWrite(["404.html"], NotFoundPage)]
  }

  /**
   * `generateSEOPages` (src/seo/generate.js:43-81). Validation runs first; when
   * it throws, nothing is written. Otherwise every hub and every topic page is
   * written and counted, then the sitemaps, robots.txt and the 404 page.
   */
  method GenerateSeoPages(categories: seq<Category>, topics: seq<Topic>, today: string)
    returns (result: Result<nat, seq<Validate.Issue>>, writes: seq<FileWrite>)
    ensures var outcome := Validate.ValidationOutcome(topics, CategoryKeys(categories));
      outcome.Failed? ==> result == Failure(outcome.errors) && writes == []
    ensures var outcome := Validate.ValidationOutcome(topics, CategoryKeys(categories));
      outcome.Passed? ==> result == Success(|categories| + |topics|) && writes == BuildWrites(categories, topics, today)
  {
    var outcome := Validate.ValidateTopics(topics, CategoryKeys(categories));
    if outcome.Failed? {
      return Failure(outcome.errors), [];
    }
    var pageCount := 0;
    writes := [];
    for k := 0 to |categories|
      invariant pageCount == k
      invariant writes == seq(k, i requires 0 <= i < k => HubWrite(categories[i]))
    {
      writes := writes + [FileWrite([categories[k].slug, "index.html"], HubPage(categories[k]))];
      pageCount := pageCount + 1;
    }
    ghost var hubs := writes;
    for k := 0 to |topics|
      invariant pageCount == |categories| + k
      invariant writes == hubs + seq(k, i requires 0 <= i < k => TopicWrite(topics[i]))
    {
      writes := writes + [FileWrite([topics[k].category, topics[k].slug, "index.html"], TopicPage(topics[k]))];
      pageCount := pageCount + 1;
    }
    var sitemaps := GenerateSitemaps(BuildUrlList(categories, topics, today), today);
    writes := writes + sitemaps;
    writes := writes + [FileWrite(["robots.txt"], Robots)];
    writes := writes + [FileWrite(["404.html"], NotFoundPage)];
    return Success(pageCount), writes;
  }

  /** When validation passes, no two topic pages are written to the same directory. */
  lemma PassedBuildHasDistinctTopicPages(categories: seq<Category>, topics: seq<Topic>)
    requires Validate.ValidationOutcome(topics, CategoryKeys(categories)).Passed?
    ensures forall i, j | 0 <= i < j < |topics| :: TopicWrites(topics)[i].path != TopicWrites(topics)[j].path
  {
    Validate.PassesIffValid(topics, CategoryKeys(categories));
    assert Validate.DistinctCanonicals(topics);
  }
}
