/**
 * `structurize_notion_content`: the passes that turn the exported records
 * into the structured site, run in order over one shared site object.
 */
module Structuring {
  import opened Optional
  import opened RawNotion
  import opened Externals
  import opened SiteModel
  import opened Headers
  import opened Hierarchy
  import opened Urls
  import opened MarkdownParser
  import opened Properties
  import opened Localize
  import opened Ordering
  import opened PyDict

  /** The options the build reads: `site_url`, `include_footer` and `download_files`. */
  datatype Config = Config(siteUrl: string, includeFooter: bool, downloadFiles: bool)

  /** What the build leaves in the site besides its order, root and footer flag. */
  datatype Built = Built(pages: map<Id, Page>, urls: seq<string>, sortedIdByYear: Dict<int, seq<Id>>)

  /**
   * `parse_headers`, `find_lists_in_dbs` and `parse_family_lines`: the table
   * before any URL is assigned; `None` for an empty export or records the
   * passes would fail on.
   */
  ghost function Family(raw: Raw): Option<map<Id, Page>> {
    if |raw.ids| > 0 && HeadersOk(raw) && ParentsFirst(raw) && ChildrenKnown(HeaderTable(raw))
       && ParentsEarlier(raw.ids, ListsMarked(HeaderTable(raw)))
    then Some(WithFamilyLines(raw.ids, ListsMarked(HeaderTable(raw))))
    else None
  }

  /** `generate_urls` from the root, the first exported page; `None` where the walk would fail. */
  ghost function Walked(order: seq<Id>, lines: map<Id, Page>, siteUrl: string): Option<UrlState> {
    if |order| > 0 && UrlTree(order, lines, order[0])
    then Some(Visit(order, lines, order[0], siteUrl, UrlState(lines, []), order[0], ""))
    else None
  }

  /** `parse_markdown` and then `parse_db_entry_properties`; `None` where either would fail. */
  ghost function Content(raw: Raw, pages: map<Id, Page>, env: Env): Option<map<Id, Page>> {
    if MarkdownReady(raw, pages) then
      AllPagesConvert(raw, pages, env);
      var md := RecordedUpTo(pages, raw.ids, PageResults(raw, Refs(pages), env), |raw.ids|);
      if EntriesReady(md, raw) then Some(WithProperties(md, raw, env)) else None
    else None
  }

  /** `download_and_replace_paths` when files are downloaded, then `sorting_db_entries`. */
  ghost function Finished(pages: map<Id, Page>, env: Env, download: bool): Option<map<Id, Page>> {
    if download && !PagesReady(pages, env) then None
    else
      var local := if download then LocalizedPages(pages, env) else pages;
      if SortReady(local) then Some(DbEntriesSorted(local)) else None
  }

  /** The site the passes compute, each applied to the table the previous one left; `None` where one would fail. */
  ghost function Build(raw: Raw, config: Config, env: Env): Option<Built> {
    match Family(raw)
    case None => None
    case Some(lines) =>
      match Walked(raw.ids, lines, config.siteUrl)
      case None => None
      case Some(walked) =>
        match Content(raw, walked.pages, env)
        case None => None
        case Some(entries) =>
          match Finished(entries, env, config.downloadFiles)
          case None => None
          case Some(sorted) => Some(Built(sorted, walked.urls, ByYearMerged(raw.ids, sorted, env)))
  }

  /** A build that succeeds went through every stage, each on a table keyed by the export's ids. */
  lemma BuildStages(raw: Raw, config: Config, env: Env)
    requires Build(raw, config, env).Some?
    ensures Family(raw).Some? && Distinct(raw.ids) && Keyed(raw.ids, Family(raw).value)
    ensures Walked(raw.ids, Family(raw).value, config.siteUrl).Some?
    ensures var walked := Walked(raw.ids, Family(raw).value, config.siteUrl).value;
      && Content(raw, walked.pages, env).Some?
      && Finished(Content(raw, walked.pages, env).value, env, config.downloadFiles).Some?
      && var sorted := Finished(Content(raw, walked.pages, env).value, env, config.downloadFiles).value;
         Build(raw, config, env).value == Built(sorted, walked.urls, ByYearMerged(raw.ids, sorted, env))
  {
    HeaderTableKeyed(raw);
  }

  /** The header table holds exactly the exported records. */
  lemma HeaderTableKeyed(raw: Raw)
    requires HeadersOk(raw) && ParentsFirst(raw)
    ensures Keyed(raw.ids, HeaderTable(raw))
  {
    ParentsFirstHeaders(raw);
    TableUpToKeyed(raw.ids, HeaderMap(raw));
  }

  /**
   * The table the walk starts from lists no child twice and has no URL
   * assigned: `parse_headers` sets none, and `find_lists_in_dbs` and
   * `parse_family_lines` change neither children nor URLs.
   */
  lemma FamilyReady(raw: Raw)
    requires Family(raw).Some?
    ensures ChildrenDistinct(Family(raw).value)
    ensures forall x :: x in Family(raw).value ==> Family(raw).value[x].url == None
  {
    var lines := Family(raw).value;
    forall x | x in lines
      ensures Distinct(lines[x].children) && lines[x].url == None
    {
      HeaderTableUnlinked(raw, x);
    }
  }

  /** Two tables with the same keys and the same URL on every record. */
  ghost predicate SameUrls(a: map<Id, Page>, b: map<Id, Page>) {
    a.Keys == b.Keys && forall x :: x in a ==> b[x].url == a[x].url
  }

  lemma {:induction false} RecordedUpToUrls(pages: map<Id, Page>, ids: seq<Id>, results: map<Id, Converted>, n: nat)
    requires n <= |ids| && forall i :: 0 <= i < |ids| ==> ids[i] in pages && ids[i] in results
    ensures SameUrls(pages, RecordedUpTo(pages, ids, results, n))
  {
    if n > 0 {
      RecordedUpToUrls(pages, ids, results, n - 1);
    }
  }

  /** `parse_markdown` and `parse_db_entry_properties` assign no URL and remove none. */
  lemma ContentKeepsUrls(raw: Raw, pages: map<Id, Page>, env: Env)
    requires Content(raw, pages, env).Some?
    ensures SameUrls(pages, Content(raw, pages, env).value)
  {
    AllPagesConvert(raw, pages, env);
    RecordedUpToUrls(pages, raw.ids, PageResults(raw, Refs(pages), env), |raw.ids|);
  }

  /** `download_and_replace_paths` and `sorting_db_entries` assign no URL and remove none. */
  lemma FinishedKeepsUrls(pages: map<Id, Page>, env: Env, download: bool)
    requires Finished(pages, env, download).Some?
    ensures SameUrls(pages, Finished(pages, env, download).value)
  {
  }

  /** A table with the same keys as one keyed by `order` is keyed by it too. */
  lemma KeyedSameKeys(order: seq<Id>, a: map<Id, Page>, b: map<Id, Page>)
    requires Keyed(order, a) && b.Keys == a.Keys
    ensures Keyed(order, b)
  {
  }

  /** A table differs from itself in nothing, its URLs included. */
  lemma SameButUrlsItself(tbl: map<Id, Page>)
    ensures SameButUrls(tbl, tbl)
  {
    forall x | x in tbl ensures tbl[x] == tbl[x].(url := tbl[x].url) {
    }
  }

  /** `generate_urls` keeps the table keyed by the export's ids. */
  lemma WalkedKeyed(order: seq<Id>, lines: map<Id, Page>, siteUrl: string)
    requires Keyed(order, lines) && Walked(order, lines, siteUrl).Some?
    ensures Keyed(order, Walked(order, lines, siteUrl).value.pages)
  {
  }

  /** `parse_markdown` and `parse_db_entry_properties` keep the table keyed by the export's ids. */
  lemma ContentKeyed(raw: Raw, pages: map<Id, Page>, env: Env)
    requires Keyed(raw.ids, pages) && Content(raw, pages, env).Some?
    ensures Keyed(raw.ids, Content(raw, pages, env).value)
  {
  }

  /** `download_and_replace_paths` and `sorting_db_entries` keep the table keyed by the export's ids. */
  lemma FinishedKeyed(order: seq<Id>, pages: map<Id, Page>, env: Env, download: bool)
    requires Keyed(order, pages) && Finished(pages, env, download).Some?
    ensures Keyed(order, Finished(pages, env, download).value)
  {
  }

  /** Each stage keeps the table keyed by the export's ids. */
  lemma StagesKeyed(raw: Raw, lines: map<Id, Page>, siteUrl: string, env: Env, download: bool)
    requires Keyed(raw.ids, lines) && Walked(raw.ids, lines, siteUrl).Some?
    ensures var walked := Walked(raw.ids, lines, siteUrl).value;
      && Keyed(raw.ids, walked.pages)
      && (Content(raw, walked.pages, env).Some? ==>
            && Keyed(raw.ids, Content(raw, walked.pages, env).value)
            && (Finished(Content(raw, walked.pages, env).value, env, download).Some? ==>
                  Keyed(raw.ids, Finished(Content(raw, walked.pages, env).value, env, download).value)))
  {
    var walked := Walked(raw.ids, lines, siteUrl).value;
    WalkedKeyed(raw.ids, lines, siteUrl);
    if Content(raw, walked.pages, env).Some? {
      ContentKeyed(raw, walked.pages, env);
      var entries := Content(raw, walked.pages, env).value;
      if Finished(entries, env, download).Some? {
        FinishedKeyed(raw.ids, entries, env, download);
      }
    }
  }

  /**
   * `generate_urls` from the root over a table with no URL yet: the list
   * starts with the site URL and holds no URL twice, the `k`-th page visited
   * gets the `k`-th URL, and exactly the visited pages have a URL.
   */
  lemma WalkedShape(order: seq<Id>, lines: map<Id, Page>, siteUrl: string)
    requires |order| > 0 && UrlTree(order, lines, order[0]) && ChildrenDistinct(lines)
    requires forall x :: x in lines ==> lines[x].url == None
    ensures var w := Walked(order, lines, siteUrl).value;
      var walk := PreOrder(order, lines, order[0], order[0]);
      && |w.urls| == |walk| > 0
      && w.urls[0] == siteUrl
      && Distinct(w.urls)
      && Distinct(walk)
      && (forall k :: 0 <= k < |walk| ==> walk[k] in w.pages && w.pages[walk[k]].url == Some(w.urls[k]))
      && (forall x :: x in w.pages ==> (w.pages[x].url.Some? <==> x in walk))
  {
    var w := Walked(order, lines, siteUrl).value;
    var walk := PreOrder(order, lines, order[0], order[0]);
    SameButUrlsItself(lines);
    SiteUrls(order, lines, order[0], siteUrl, UrlState(lines, []));
    forall x | x in w.pages
      ensures w.pages[x].url.Some? <==> x in walk
    {
      if x in walk {
        var k :| 0 <= k < |walk| && walk[k] == x;
      }
    }
  }

  /** `parse_markdown` through `sorting_db_entries` assign no URL and remove none. */
  lemma StagesKeepUrls(raw: Raw, pages: map<Id, Page>, env: Env, download: bool)
    requires Content(raw, pages, env).Some? && Finished(Content(raw, pages, env).value, env, download).Some?
    ensures SameUrls(pages, Finished(Content(raw, pages, env).value, env, download).value)
  {
    ContentKeepsUrls(raw, pages, env);
    FinishedKeepsUrls(Content(raw, pages, env).value, env, download);
  }

  /** Where the URLs are the same, so is which page has which URL. */
  lemma UrlsCarried(a: map<Id, Page>, b: map<Id, Page>, urls: seq<string>, walk: seq<Id>)
    requires SameUrls(a, b) && |walk| <= |urls|
    requires forall k :: 0 <= k < |walk| ==> walk[k] in a && a[walk[k]].url == Some(urls[k])
    requires forall x :: x in a ==> (a[x].url.Some? <==> x in walk)
    ensures forall k :: 0 <= k < |walk| ==> walk[k] in b && b[walk[k]].url == Some(urls[k])
    ensures forall x :: x in b ==> (b[x].url.Some? <==> x in walk)
  {
  }

  /**
   * The built site has a record for every exported page and no other. Its URL
   * list starts with the site URL and holds no URL twice. The pages reachable
   * from the root, in the order `generate_urls` visits them, have the URLs of
   * the list in the same order, and exactly those pages have a URL.
   */
  lemma BuiltShape(raw: Raw, config: Config, env: Env)
    requires Build(raw, config, env).Some?
    ensures var b := Build(raw, config, env).value;
      && Keyed(raw.ids, b.pages)
      && Family(raw).Some? && UrlTree(raw.ids, Family(raw).value, raw.ids[0])
      && var walk := PreOrder(raw.ids, Family(raw).value, raw.ids[0], raw.ids[0]);
      && |b.urls| == |walk| > 0
      && b.urls[0] == config.siteUrl
      && Distinct(b.urls)
      && Distinct(walk)
      && (forall k :: 0 <= k < |walk| ==> walk[k] in b.pages && b.pages[walk[k]].url == Some(b.urls[k]))
      && (forall x :: x in b.pages ==> (b.pages[x].url.Some? <==> x in walk))
      && DistinctKeys(b.sortedIdByYear)
      && multiset(Flatten(b.sortedIdByYear)) == multiset(DatedIds(raw.ids, b.pages))
  {
    BuildStages(raw, config, env);
    var lines := Family(raw).value;
    var walked := Walked(raw.ids, lines, config.siteUrl).value;
    StagesKeyed(raw, lines, config.siteUrl, env, config.downloadFiles);
    FamilyReady(raw);
    WalkedShape(raw.ids, lines, config.siteUrl);
    StagesKeepUrls(raw, walked.pages, env, config.downloadFiles);
    UrlsCarried(walked.pages, Build(raw, config, env).value.pages, walked.urls, PreOrder(raw.ids, lines, raw.ids[0], raw.ids[0]));
    ByYearMergedComplete(raw.ids, Build(raw, config, env).value.pages, env);
  }

  /** `parse_headers` into a new site whose root is the first exported page. */
  method NewSite(raw: Raw, includeFooter: bool) returns (site: Site)
    requires |raw.ids| > 0 && HeadersOk(raw) && ParentsFirst(raw)
    ensures fresh(site)
    ensures site.order == raw.ids && site.rootId == raw.ids[0] && site.includeFooter == includeFooter
    ensures site.pages == HeaderTable(raw) && site.urls == [] && site.sortedIdByYear == []
  {
    var pages := ParseHeaders(raw);
    site := new Site(raw.ids, pages, raw.ids[0], includeFooter);
  }

  /** `find_lists_in_dbs`, then `parse_family_lines`. */
  method HierarchyPasses(site: Site)
    requires Keyed(site.order, site.pages) && ChildrenKnown(site.pages)
    requires ParentsEarlier(site.order, ListsMarked(site.pages))
    modifies site`pages
    ensures site.pages == WithFamilyLines(site.order, ListsMarked(old(site.pages)))
    ensures site.order == old(site.order) && site.rootId == old(site.rootId) && site.urls == old(site.urls)
    ensures site.includeFooter == old(site.includeFooter)
  {
    FindListsInDbs(site);
    ParseFamilyLines(site);
  }

  /** `generate_urls(root_page_id, ...)` on a site with no URL yet. */
  method UrlPass(site: Site, siteUrl: string)
    requires site.urls == [] && |site.order| > 0 && site.rootId == site.order[0]
    requires Walked(site.order, site.pages, siteUrl).Some?
    modifies site`pages, site`urls
    ensures UrlState(site.pages, site.urls) == Walked(site.order, old(site.pages), siteUrl).value
    ensures site.order == old(site.order) && site.rootId == old(site.rootId) && site.includeFooter == old(site.includeFooter)
  {
    ghost var lines := site.pages;
    SameButUrlsItself(lines);
    GenerateUrls(site, site.rootId, siteUrl, site.order, site.rootId, lines);
  }

  /** `parse_markdown`, then `parse_db_entry_properties`. */
  method ContentPasses(site: Site, raw: Raw, env: Env)
    requires site.order == raw.ids && Distinct(raw.ids) && Keyed(site.order, site.pages)
    requires Content(raw, site.pages, env).Some?
    modifies site`pages
    ensures site.pages == Content(raw, old(site.pages), env).value
    ensures site.order == old(site.order) && site.urls == old(site.urls)
    ensures site.rootId == old(site.rootId) && site.includeFooter == old(site.includeFooter)
  {
    ghost var start := site.pages;
    ParseMarkdown(site, raw, env);
    KeyedSameKeys(raw.ids, start, site.pages);
    ParseDbEntryProperties(site, raw, env);
  }

  /** `download_and_replace_paths` when files are downloaded, then `sorting_db_entries`. */
  method FinishingPasses(site: Site, env: Env, download: bool)
    requires Keyed(site.order, site.pages) && Finished(site.pages, env, download).Some?
    modifies site`pages
    ensures site.pages == Finished(old(site.pages), env, download).value
    ensures site.order == old(site.order) && site.urls == old(site.urls)
    ensures site.rootId == old(site.rootId) && site.includeFooter == old(site.includeFooter)
  {
    if download {
      DownloadAndReplacePaths(site, env);
      KeyedSameKeys(site.order, old(site.pages), site.pages);
    }
    SortingDbEntries(site);
  }

  /** The passes up to `generate_urls`, on a new site. */
  method StructurePasses(raw: Raw, config: Config, ghost lines: map<Id, Page>, ghost walked: UrlState)
    returns (site: Site)
    requires Family(raw) == Some(lines) && Distinct(raw.ids) && Keyed(raw.ids, lines)
    requires Walked(raw.ids, lines, config.siteUrl) == Some(walked)
    ensures fresh(site)
    ensures site.order == raw.ids && site.rootId == raw.ids[0] && site.includeFooter == config.includeFooter
    ensures site.pages == walked.pages && site.urls == walked.urls
  {
    site := NewSite(raw, config.includeFooter);
    HeaderTableKeyed(raw);
    HierarchyPasses(site);
    UrlPass(site, config.siteUrl);
  }

  /** The passes from `parse_markdown` on, ending with `sorting_page_by_year`. */
  method ContentToYears(site: Site, raw: Raw, env: Env, download: bool, ghost entries: map<Id, Page>,
                        ghost sorted: map<Id, Page>)
    requires site.order == raw.ids && Distinct(raw.ids) && Keyed(raw.ids, site.pages)
    requires Content(raw, site.pages, env) == Some(entries) && Keyed(raw.ids, entries)
    requires Finished(entries, env, download) == Some(sorted)
    modifies site`pages, site`sortedIdByYear
    ensures site.pages == sorted && site.sortedIdByYear == ByYearMerged(raw.ids, sorted, env)
    ensures site.order == old(site.order) && site.urls == old(site.urls)
    ensures site.rootId == old(site.rootId) && site.includeFooter == old(site.includeFooter)
  {
    ContentPasses(site, raw, env);
    FinishingPasses(site, env, download);
    SortingPageByYear(site, env);
  }

  /** `structurize_notion_content(raw_notion, config)` */
  method StructurizeNotionContent(raw: Raw, config: Config, env: Env) returns (site: Site)
    requires Build(raw, config, env).Some?
    ensures site.order == raw.ids && site.rootId == raw.ids[0] && site.includeFooter == config.includeFooter
    ensures site.pages == Build(raw, config, env).value.pages
    ensures site.urls == Build(raw, config, env).value.urls
    ensures site.sortedIdByYear == Build(raw, config, env).value.sortedIdByYear
  {
    BuildStages(raw, config, env);
    ghost var lines := Family(raw).value;
    ghost var walked := Walked(raw.ids, lines, config.siteUrl).value;
    ghost var entries := Content(raw, walked.pages, env).value;
    StagesKeyed(raw, lines, config.siteUrl, env, config.downloadFiles);
    site := StructurePasses(raw, config, lines, walked);
    ContentToYears(site, raw, env, config.downloadFiles, entries, Finished(entries, env, config.downloadFiles).value);
  }
}
