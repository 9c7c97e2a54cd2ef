/**
 * The rewrite half of `download_and_replace_paths`: every file URL a page
 * registered is replaced by the URL of its local copy, in the page's `files`,
 * its markdown, its icon and cover, and the markdown of its properties. The
 * download itself is a parameter: only its outcome is seen.
 */
module Localize {
  import opened Optional
  import opened RawNotion
  import opened PyStr
  import opened Externals
  import opened SiteModel
  import opened Properties
  import opened PyDict
  import opened Urls

  /** `unquote(Path(clean_url).name)`: the file name a remote URL is stored under. */
  function FileName(env: Env, fileUrl: string): string {
    env.unquote(env.baseName(fileUrl))
  }

  /** `urljoin(page_url + '/', filename)`, a plain join for a name with no URL syntax in it. */
  function LocalUrl(pageUrl: string, name: string): (r: string)
    requires SafeSlug(name)
    ensures |r| == |pageUrl| + 1 + |name| && r[..|pageUrl|] == pageUrl && r[|pageUrl|] == '/'
  {
    pageUrl + "/" + name
  }

  /** Every file of the page can be given a local URL: the page has a URL and each file name is plain. */
  ghost predicate PageReady(page: Page, env: Env) {
    (page.files != [] ==> page.url.Some?)
    && forall i :: 0 <= i < |page.files| ==> SafeSlug(FileName(env, page.files[i]))
  }

  /** The local URL of a file of a ready page. */
  function NewFileUrl(page: Page, env: Env, fileUrl: string): string
    requires page.url.Some? && SafeSlug(FileName(env, fileUrl))
  {
    LocalUrl(page.url.value, FileName(env, fileUrl))
  }

  /** Each markdown value holding `u` gets every occurrence of `u` replaced by `n`; keys stay. */
  function RewriteValues(d: StrDict, u: string, n: string): (r: StrDict)
    ensures |r| == |d| && forall j :: 0 <= j < |d| ==> r[j].0 == d[j].0
  {
    seq(|d|, j requires 0 <= j < |d| => (d[j].0, if Contains(d[j].1, u) then Replace(d[j].1, u, n) else d[j].1))
  }

  /** An icon or cover that is the file URL itself becomes the local URL. */
  function RewriteAsset(asset: Option<string>, u: string, n: string): Option<string> {
    if asset == Some(u) then Some(n) else asset
  }

  /**
   * The rewrite for the file at index `i`, whose remote URL is `u`: nothing
   * when the URL cannot be fetched at all, else `files[i]`, the markdown, the
   * icon, the cover and a database entry's property markdown take the local URL.
   */
  function FileStep(page: Page, env: Env, i: nat, u: string): (r: Page)
    requires i < |page.files| && page.url.Some? && SafeSlug(FileName(env, u))
    ensures |r.files| == |page.files| && r.url == page.url
  {
    if env.fetch(u) == InvalidUrl then page
    else
      var n := NewFileUrl(page, env, u);
      page.(files := page.files[i := n],
            mdContent := Replace(page.mdContent, u, n),
            icon := RewriteAsset(page.icon, u, n),
            cover := RewriteAsset(page.cover, u, n),
            propertiesMd :=
              if page.kind == DbEntryKind && page.propertiesMd.Some?
              then Some(RewriteValues(page.propertiesMd.value, u, n)) else page.propertiesMd)
  }

  /** The page after its first `k` files are processed; the `k`-th file is read from the page as it started. */
  function LocalizedUpTo(page: Page, env: Env, k: nat): (r: Page)
    requires PageReady(page, env) && k <= |page.files|
    ensures |r.files| == |page.files| && r.url == page.url
  {
    if k == 0 then page
    else FileStep(LocalizedUpTo(page, env, k - 1), env, k - 1, page.files[k - 1])
  }

  /** The page after `download_and_replace_paths` has processed all its files. */
  function Localized(page: Page, env: Env): Page
    requires PageReady(page, env)
  {
    LocalizedUpTo(page, env, |page.files|)
  }

  // ---------------------------------------------------------------------------
  // What one file's rewrite does

  /**
   * A file that cannot be fetched leaves the page as it was; any other outcome,
   * a failed HTTP request included, rewrites it: `files[i]` is the local URL,
   * the markdown is split at the remote URL and joined with the local one, the
   * icon and cover change only where they were the remote URL, a database
   * entry's property markdown has every remote URL replaced in each value
   * (other pages keep theirs), and nothing else of the record changes.
   */
  lemma FileStepShape(page: Page, env: Env, i: nat, u: string)
    requires i < |page.files| && page.url.Some? && SafeSlug(FileName(env, u)) && u != ""
    ensures var r := FileStep(page, env, i, u);
      if env.fetch(u) == InvalidUrl then r == page
      else
        var n := LocalUrl(page.url.value, FileName(env, u));
        && r.files[i] == n
        && (forall j :: 0 <= j < |page.files| && j != i ==> r.files[j] == page.files[j])
        && r.mdContent == Join(Split(page.mdContent, u), n)
        && (!Contains(page.mdContent, u) ==> r.mdContent == page.mdContent)
        && (r.icon != page.icon ==> page.icon == Some(u) && r.icon == Some(n))
        && (r.cover != page.cover ==> page.cover == Some(u) && r.cover == Some(n))
        && (page.kind != DbEntryKind || page.propertiesMd.None? ==> r.propertiesMd == page.propertiesMd)
        && (page.kind == DbEntryKind && page.propertiesMd.Some? ==>
              var d := page.propertiesMd.value;
              && r.propertiesMd.Some? && |r.propertiesMd.value| == |d|
              && forall j :: 0 <= j < |d| ==>
                   r.propertiesMd.value[j].0 == d[j].0 && r.propertiesMd.value[j].1 == Join(Split(d[j].1, u), n))
        && r.(files := page.files, mdContent := page.mdContent, icon := page.icon, cover := page.cover,
              propertiesMd := page.propertiesMd) == page
  {
    if env.fetch(u) != InvalidUrl {
      var n := LocalUrl(page.url.value, FileName(env, u));
      ReplaceIsSplitJoin(page.mdContent, u, n);
      if !Contains(page.mdContent, u) {
        ReplaceAbsent(page.mdContent, u, n);
      }
      if page.kind == DbEntryKind && page.propertiesMd.Some? {
        RewriteValuesShape(page.propertiesMd.value, u, n);
      }
    }
  }

  /**
   * The property markdown keeps its keys; a value holding the remote URL has
   * it replaced everywhere by the local one, and a value without it is kept.
   */
  lemma RewriteValuesShape(d: StrDict, u: string, n: string)
    requires u != ""
    ensures var r := RewriteValues(d, u, n);
      && Keys(r) == Keys(d)
      && (DistinctKeys(d) ==> DistinctKeys(r))
      && forall j :: 0 <= j < |d| ==> r[j].1 == Join(Split(d[j].1, u), n)
  {
    var r := RewriteValues(d, u, n);
    forall j | 0 <= j < |d| ensures r[j].1 == Join(Split(d[j].1, u), n) {
      ReplaceIsSplitJoin(d[j].1, u, n);
      if !Contains(d[j].1, u) {
        ReplaceAbsent(d[j].1, u, n);
      }
    }
    assert Keys(r) == Keys(d) by {
      forall x | x in Keys(d) ensures x in Keys(r) {
        var j :| 0 <= j < |d| && d[j].0 == x;
        assert r[j].0 == x;
      }
    }
  }

  /**
   * Processing a page sets each fetchable file to its local URL and keeps each
   * unfetchable one, keeps the page's URL, kind, children and everything else
   * outside the rewritten fields, and leaves a page whose files all fail to
   * fetch exactly as it was.
   */
  lemma {:induction false} LocalizedFiles(page: Page, env: Env, k: nat)
    requires PageReady(page, env) && k <= |page.files|
    ensures var r := LocalizedUpTo(page, env, k);
      && (forall j :: 0 <= j < |page.files| ==>
            r.files[j] == if j < k && env.fetch(page.files[j]) != InvalidUrl
                          then NewFileUrl(page, env, page.files[j]) else page.files[j])
      && r.(files := page.files, mdContent := page.mdContent, icon := page.icon, cover := page.cover,
            propertiesMd := page.propertiesMd) == page
      && ((forall j :: 0 <= j < k ==> env.fetch(page.files[j]) == InvalidUrl) ==> r == page)
    decreases k
  {
    if k > 0 {
      LocalizedFiles(page, env, k - 1);
    }
  }

  // ---------------------------------------------------------------------------
  // The pass

  /** The markdown values of a property dict, rewritten one entry at a time as `properties_md.items()` is walked. */
  method RewriteProperties(d: StrDict, u: string, n: string) returns (r: StrDict)
    ensures r == RewriteValues(d, u, n)
  {
    r := d;
    for j := 0 to |d|
      invariant |r| == |d|
      invariant forall m :: 0 <= m < j ==> r[m] == RewriteValues(d, u, n)[m]
      invariant forall m :: j <= m < |d| ==> r[m] == d[m]
    {
      if Contains(r[j].1, u) {
        r := r[j := (r[j].0, Replace(r[j].1, u, n))];
      }
    }
  }

  /** One turn of the loop over a page's files: fetch the `i`-th, and unless that is impossible, rewrite it. */
  method ReplaceFile(site: Site, id: Id, i: nat, u: string, env: Env)
    requires id in site.pages && i < |site.pages[id].files| && site.pages[id].url.Some? && SafeSlug(FileName(env, u))
    modifies site`pages
    ensures site.pages == old(site.pages)[id := FileStep(old(site.pages)[id], env, i, u)]
  {
    if env.fetch(u) != InvalidUrl {
      var page := site.pages[id];
      var n := LocalUrl(page.url.value, env.unquote(env.baseName(u)));
      page := page.(files := page.files[i := n]);
      page := page.(mdContent := Replace(page.mdContent, u, n));
      if page.icon == Some(u) {
        page := page.(icon := Some(n));
      }
      if page.cover == Some(u) {
        page := page.(cover := Some(n));
      }
      if page.kind == DbEntryKind && page.propertiesMd.Some? {
        var md := RewriteProperties(page.propertiesMd.value, u, n);
        page := page.(propertiesMd := Some(md));
      }
      site.pages := site.pages[id := page];
    }
  }

  /** The loop of `download_and_replace_paths` over one page's files. */
  method LocalizePage(site: Site, id: Id, env: Env)
    requires id in site.pages && PageReady(site.pages[id], env)
    modifies site`pages
    ensures site.pages == old(site.pages)[id := Localized(old(site.pages)[id], env)]
  {
    ghost var start := site.pages;
    var files := site.pages[id].files;
    for i := 0 to |files|
      invariant site.pages == start[id := LocalizedUpTo(start[id], env, i)]
    {
      ReplaceFile(site, id, i, files[i], env);
    }
  }

  /** Every page can be processed. */
  ghost predicate PagesReady(pages: map<Id, Page>, env: Env) {
    forall id :: id in pages ==> PageReady(pages[id], env)
  }

  /** The table after `download_and_replace_paths`. */
  function LocalizedPages(pages: map<Id, Page>, env: Env): (r: map<Id, Page>)
    requires PagesReady(pages, env)
    ensures r.Keys == pages.Keys
  {
    map x | x in pages :: Localized(pages[x], env)
  }

  /** `download_and_replace_paths`, the download being `env.fetch`. */
  method DownloadAndReplacePaths(site: Site, env: Env)
    requires Keyed(site.order, site.pages) && PagesReady(site.pages, env)
    modifies site`pages
    ensures site.pages == LocalizedPages(old(site.pages), env)
  {
    ghost var start := site.pages;
    ghost var target := LocalizedPages(start, env);
    OverlayEnds(site.order, start, target);
    var i := 0;
    while i < |site.order|
      invariant 0 <= i <= |site.order|
      invariant site.pages == Overlay(start, target, site.order[..i])
    {
      LocalizeNext(site, env, start, target, i);
      i := i + 1;
    }
    OverlayEnds(site.order, start, target);
  }

  /** The loop body of `download_and_replace_paths`: the next page in table order is localized. */
  method LocalizeNext(site: Site, env: Env, ghost start: map<Id, Page>, ghost target: map<Id, Page>, i: nat)
    requires Keyed(site.order, start) && PagesReady(start, env) && target == LocalizedPages(start, env)
    requires i < |site.order|
    requires site.pages == Overlay(start, target, site.order[..i])
    modifies site`pages
    ensures site.pages == Overlay(start, target, site.order[..i + 1])
  {
    var id := site.order[i];
    OverlayStep(site.order, start, target, i);
    LocalizePage(site, id, env);
  }
}
