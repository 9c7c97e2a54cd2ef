/**
 * `generate_urls` for a site served from `site_url`: a depth-first walk from
 * the root that gives the root the site URL and every other page its
 * parent's URL, a slash and its title with spaces turned into underscores,
 * followed by as few underscores as keep the URL new. Each URL is appended
 * to the site's URL list as it is assigned.
 */
module Urls {
  import opened Optional
  import opened RawNotion
  import opened SiteModel
  import opened PyStr
  import opened Hierarchy

  /** `title.replace(" ", "_")` */
  function Slug(title: string): string {
    Replace(title, " ", "_")
  }

  /**
   * A name that `urljoin` appends to a base ending in `/` unchanged: no
   * character that starts a scheme, a path segment, a query or a fragment,
   * no control character (URL splitting deletes tabs and line breaks and
   * strips leading control characters and spaces), no leading space, and
   * not a dot segment.
   */
  predicate SafeSlug(name: string) {
    (forall i :: 0 <= i < |name| ==> name[i] != '/' && name[i] != ':' && name[i] != '?' && name[i] != '#' && name[i] >= ' ')
    && (|name| > 0 ==> name[0] != ' ')
    && name != "." && name != ".."
  }

  /** Appending underscores keeps a name safe. */
  lemma SafeSlugUnderscores(name: string, n: nat)
    requires SafeSlug(name)
    ensures SafeSlug(name + Chars('_', n))
  {
    var r := name + Chars('_', n);
    if n > 0 {
      assert r[|r| - 1] == '_';
    }
  }

  /** The length of the longest URL of the list. */
  function MaxLen(urls: seq<string>): (m: nat)
    ensures forall i :: 0 <= i < |urls| ==> |urls[i]| <= m
  {
    if urls == [] then 0
    else
      var rest := MaxLen(urls[1..]);
      assert forall i :: 1 <= i < |urls| ==> urls[i] == urls[1..][i - 1];
      if |urls[0]| > rest then |urls[0]| else rest
  }

  /**
   * How many underscores the collision loop appends to `base`, starting from
   * `n`: the first count at or after `n` that makes the URL new, every count
   * in between giving a URL already taken.
   */
  function Underscores(urls: seq<string>, base: string, n: nat): (r: nat)
    ensures n <= r
    ensures base + Chars('_', r) !in urls
    ensures forall m :: n <= m < r ==> base + Chars('_', m) in urls
    decreases MaxLen(urls) + 1 - (|base| + n)
  {
    if base + Chars('_', n) in urls then Underscores(urls, base, n + 1) else n
  }

  /** The URL the collision loop settles on. */
  function Fresh(urls: seq<string>, base: string): string {
    base + Chars('_', Underscores(urls, base, 0))
  }

  /** The URL is new, and is `base` with the fewest underscores that make it new. */
  lemma FreshFewest(urls: seq<string>, base: string)
    ensures Fresh(urls, base) !in urls
    ensures exists n: nat ::
      (Fresh(urls, base) == base + Chars('_', n) && forall m :: 0 <= m < n ==> base + Chars('_', m) in urls)
  {
    var n := Underscores(urls, base, 0);
    assert Fresh(urls, base) == base + Chars('_', n);
  }

  /** A URL not yet taken is used as it is. */
  lemma FreshUnused(urls: seq<string>, base: string)
    requires base !in urls
    ensures Fresh(urls, base) == base
  {
    assert base + Chars('_', 0) == base;
  }

  /**
   * The collision loop of `generate_urls`: while `urljoin(parent_url, name)`
   * is taken, an underscore is appended to the name. With `parent_url`
   * ending in `/` and a safe name, the join is the concatenation.
   */
  method FreshUrl(urls: seq<string>, parentUrl: string, slug: string) returns (url: string)
    requires SafeSlug(slug)
    ensures url == Fresh(urls, parentUrl + slug)
  {
    var name := slug;
    url := parentUrl + name;
    ghost var n := 0;
    assert slug + Chars('_', 0) == slug;
    while url in urls
      invariant name == slug + Chars('_', n) && url == parentUrl + name
      invariant Underscores(urls, parentUrl + slug, n) == Underscores(urls, parentUrl + slug, 0)
      decreases MaxLen(urls) + 1 - |url|
    {
      assert url == (parentUrl + slug) + Chars('_', n);
      SafeSlugUnderscores(slug, n + 1);
      name := name + "_";
      url := parentUrl + name;
      n := n + 1;
      assert name == slug + Chars('_', n);
    }
    assert url == (parentUrl + slug) + Chars('_', n);
  }

  // ---------------------------------------------------------------------------
  // The walk

  /**
   * What the walk reads from the table: parents come before their children,
   * the root is the first page, every child names the page that lists it as
   * its parent, and every page with a parent has a title whose slug is safe.
   */
  ghost predicate UrlTree(order: seq<Id>, tbl: map<Id, Page>, rootId: Id) {
    && ParentsEarlier(order, tbl)
    && |order| > 0 && rootId == order[0]
    && (forall p, k :: p in tbl && 0 <= k < |tbl[p].children| ==>
          tbl[p].children[k] in tbl && tbl[tbl[p].children[k]].parent == Some(p))
    && (forall x :: x in tbl && tbl[x].parent.Some? ==> tbl[x].title.Some? && SafeSlug(Slug(tbl[x].title.value)))
  }

  /** A child comes after its parent in table order, so it is never the root. */
  lemma ChildLater(order: seq<Id>, tbl: map<Id, Page>, rootId: Id, p: Id, k: nat)
    requires UrlTree(order, tbl, rootId) && p in tbl && k < |tbl[p].children|
    ensures var c := tbl[p].children[k];
      && c in tbl && tbl[c].parent == Some(p) && c != rootId
      && IndexOf(order, p) < IndexOf(order, c)
  {
  }

  /** The pages the walk visits from `id`: `id`, then the pages under each of its children in order. */
  function PreOrder(order: seq<Id>, tbl: map<Id, Page>, rootId: Id, id: Id): seq<Id>
    requires UrlTree(order, tbl, rootId) && id in tbl
    decreases |order| - IndexOf(order, id), 1
  {
    [id] + PreOrderChildren(order, tbl, rootId, id, 0)
  }

  function PreOrderChildren(order: seq<Id>, tbl: map<Id, Page>, rootId: Id, p: Id, k: nat): seq<Id>
    requires UrlTree(order, tbl, rootId) && p in tbl && k <= |tbl[p].children|
    decreases |order| - IndexOf(order, p), 0, |tbl[p].children| - k
  {
    if k == |tbl[p].children| then []
    else
      ChildLater(order, tbl, rootId, p, k);
      PreOrder(order, tbl, rootId, tbl[p].children[k]) + PreOrderChildren(order, tbl, rootId, p, k + 1)
  }

  /** The walk's state: the page table and the URLs assigned so far. */
  datatype UrlState = UrlState(pages: map<Id, Page>, urls: seq<string>)

  /** The URL the walk gives `id`, its parent's URL being `parentUrl`. */
  function UrlFor(tbl: map<Id, Page>, rootId: Id, siteUrl: string, urls: seq<string>, id: Id, parentUrl: string): string
    requires id in tbl && (id != rootId ==> tbl[id].title.Some?)
  {
    if id == rootId then siteUrl else Fresh(urls, parentUrl + "/" + Slug(tbl[id].title.value))
  }

  /** `generate_urls(id)`: the URL of `id` is assigned and appended, then each child is walked. */
  function Visit(order: seq<Id>, tbl: map<Id, Page>, rootId: Id, siteUrl: string, s: UrlState, id: Id, parentUrl: string): (r: UrlState)
    requires UrlTree(order, tbl, rootId) && id in tbl && (id == rootId || tbl[id].parent.Some?)
    requires s.pages.Keys == tbl.Keys
    ensures r.pages.Keys == tbl.Keys
    decreases |order| - IndexOf(order, id), 1
  {
    var url := UrlFor(tbl, rootId, siteUrl, s.urls, id, parentUrl);
    var s1 := UrlState(s.pages[id := s.pages[id].(url := Some(url))], s.urls + [url]);
    VisitChildren(order, tbl, rootId, siteUrl, s1, id, url, 0)
  }

  /** The walk of the children of `p` from the `k`-th on, `p`'s URL being `pUrl`. */
  function VisitChildren(order: seq<Id>, tbl: map<Id, Page>, rootId: Id, siteUrl: string, s: UrlState, p: Id, pUrl: string, k: nat): (r: UrlState)
    requires UrlTree(order, tbl, rootId) && p in tbl && k <= |tbl[p].children|
    requires s.pages.Keys == tbl.Keys
    ensures r.pages.Keys == tbl.Keys
    decreases |order| - IndexOf(order, p), 0, |tbl[p].children| - k
  {
    if k == |tbl[p].children| then s
    else
      ChildLater(order, tbl, rootId, p, k);
      var next := Visit(order, tbl, rootId, siteUrl, s, tbl[p].children[k], pUrl);
      VisitChildren(order, tbl, rootId, siteUrl, next, p, pUrl, k + 1)
  }

  /** `b` is `a` with some URLs assigned: nothing else differs, and no assigned URL is removed. */
  ghost predicate UrlsAssigned(a: map<Id, Page>, b: map<Id, Page>) {
    && a.Keys == b.Keys
    && forall x :: x in a ==> b[x] == a[x].(url := b[x].url) && (a[x].url.Some? ==> b[x].url.Some?)
  }

  lemma UrlsAssignedSet(a: map<Id, Page>, id: Id, url: string)
    requires id in a
    ensures UrlsAssigned(a, a[id := a[id].(url := Some(url))])
  {
    var b := a[id := a[id].(url := Some(url))];
    forall x | x in a
      ensures b[x] == a[x].(url := b[x].url) && (a[x].url.Some? ==> b[x].url.Some?)
    {
      if x == id {
        assert b[x] == a[x].(url := Some(url));
      }
    }
  }

  lemma UrlsAssignedTrans(a: map<Id, Page>, b: map<Id, Page>, c: map<Id, Page>)
    requires UrlsAssigned(a, b) && UrlsAssigned(b, c)
    ensures UrlsAssigned(a, c)
  {
  }

  /**
   * The walk from `id` only assigns URLs, leaves every page before `id` in
   * table order untouched, and leaves `id` with the URL it assigned it.
   */
  lemma {:induction false} VisitFrame(order: seq<Id>, tbl: map<Id, Page>, rootId: Id, siteUrl: string, s: UrlState, id: Id, parentUrl: string)
    requires UrlTree(order, tbl, rootId) && id in tbl && (id == rootId || tbl[id].parent.Some?)
    requires s.pages.Keys == tbl.Keys
    ensures var r := Visit(order, tbl, rootId, siteUrl, s, id, parentUrl);
      && UrlsAssigned(s.pages, r.pages)
      && (forall x :: x in tbl && IndexOf(order, x) < IndexOf(order, id) ==> r.pages[x] == s.pages[x])
      && r.pages[id].url == Some(UrlFor(tbl, rootId, siteUrl, s.urls, id, parentUrl))
    decreases |order| - IndexOf(order, id), 1
  {
    var url := UrlFor(tbl, rootId, siteUrl, s.urls, id, parentUrl);
    var s1 := UrlState(s.pages[id := s.pages[id].(url := Some(url))], s.urls + [url]);
    var r := VisitChildren(order, tbl, rootId, siteUrl, s1, id, url, 0);
    assert Visit(order, tbl, rootId, siteUrl, s, id, parentUrl) == r;
    VisitChildrenFrame(order, tbl, rootId, siteUrl, s1, id, url, 0);
    UrlsAssignedSet(s.pages, id, url);
    UrlsAssignedTrans(s.pages, s1.pages, r.pages);
  }

  lemma {:induction false} VisitChildrenFrame(order: seq<Id>, tbl: map<Id, Page>, rootId: Id, siteUrl: string, s: UrlState, p: Id, pUrl: string, k: nat)
    requires UrlTree(order, tbl, rootId) && p in tbl && k <= |tbl[p].children|
    requires s.pages.Keys == tbl.Keys
    ensures var r := VisitChildren(order, tbl, rootId, siteUrl, s, p, pUrl, k);
      && UrlsAssigned(s.pages, r.pages)
      && (forall x :: x in tbl && IndexOf(order, x) <= IndexOf(order, p) ==> r.pages[x] == s.pages[x])
    decreases |order| - IndexOf(order, p), 0, |tbl[p].children| - k
  {
    if k < |tbl[p].children| {
      ChildLater(order, tbl, rootId, p, k);
      var c := tbl[p].children[k];
      var next := Visit(order, tbl, rootId, siteUrl, s, c, pUrl);
      VisitFrame(order, tbl, rootId, siteUrl, s, c, pUrl);
      VisitChildrenFrame(order, tbl, rootId, siteUrl, next, p, pUrl, k + 1);
      UrlsAssignedTrans(s.pages, next.pages, VisitChildren(order, tbl, rootId, siteUrl, next, p, pUrl, k + 1).pages);
    }
  }

  /**
   * The walk from `id` appends one URL per page it visits, keeps the URLs
   * already there, and keeps the list free of duplicates (the root's URL
   * being new when the walk starts from the root).
   */
  lemma {:induction false} VisitUrls(order: seq<Id>, tbl: map<Id, Page>, rootId: Id, siteUrl: string, s: UrlState, id: Id, parentUrl: string)
    requires UrlTree(order, tbl, rootId) && id in tbl && (id == rootId || tbl[id].parent.Some?)
    requires s.pages.Keys == tbl.Keys
    ensures var r := Visit(order, tbl, rootId, siteUrl, s, id, parentUrl);
      && |r.urls| == |s.urls| + |PreOrder(order, tbl, rootId, id)|
      && r.urls[..|s.urls|] == s.urls
      && r.urls[|s.urls|] == UrlFor(tbl, rootId, siteUrl, s.urls, id, parentUrl)
      && (Distinct(s.urls) && (id == rootId ==> siteUrl !in s.urls) ==> Distinct(r.urls))
    decreases |order| - IndexOf(order, id), 1
  {
    var url := UrlFor(tbl, rootId, siteUrl, s.urls, id, parentUrl);
    var s1 := UrlState(s.pages[id := s.pages[id].(url := Some(url))], s.urls + [url]);
    VisitChildrenUrls(order, tbl, rootId, siteUrl, s1, id, url, 0);
    var r := VisitChildren(order, tbl, rootId, siteUrl, s1, id, url, 0);
    assert r.urls[..|s.urls|] == r.urls[..|s1.urls|][..|s.urls|];
    assert r.urls[|s.urls|] == r.urls[..|s1.urls|][|s.urls|];
    if Distinct(s.urls) && (id == rootId ==> siteUrl !in s.urls) {
      if id != rootId {
        FreshFewest(s.urls, parentUrl + "/" + Slug(tbl[id].title.value));
      }
      DistinctSnoc(s.urls, url);
    }
  }

  lemma {:induction false} VisitChildrenUrls(order: seq<Id>, tbl: map<Id, Page>, rootId: Id, siteUrl: string, s: UrlState, p: Id, pUrl: string, k: nat)
    requires UrlTree(order, tbl, rootId) && p in tbl && k <= |tbl[p].children|
    requires s.pages.Keys == tbl.Keys
    ensures var r := VisitChildren(order, tbl, rootId, siteUrl, s, p, pUrl, k);
      && |r.urls| == |s.urls| + |PreOrderChildren(order, tbl, rootId, p, k)|
      && r.urls[..|s.urls|] == s.urls
      && (Distinct(s.urls) ==> Distinct(r.urls))
    decreases |order| - IndexOf(order, p), 0, |tbl[p].children| - k
  {
    if k < |tbl[p].children| {
      ChildLater(order, tbl, rootId, p, k);
      var c := tbl[p].children[k];
      var next := Visit(order, tbl, rootId, siteUrl, s, c, pUrl);
      VisitUrls(order, tbl, rootId, siteUrl, s, c, pUrl);
      VisitChildrenUrls(order, tbl, rootId, siteUrl, next, p, pUrl, k + 1);
      var r := VisitChildren(order, tbl, rootId, siteUrl, next, p, pUrl, k + 1);
      assert r.urls[..|s.urls|] == r.urls[..|next.urls|][..|s.urls|];
    }
  }

  // ---------------------------------------------------------------------------
  // Which page holds which URL

  /** `x` is `a` or a page below it: following parents up from `x` reaches `a`. */
  ghost predicate Under(order: seq<Id>, tbl: map<Id, Page>, x: Id, a: Id)
    requires ParentsEarlier(order, tbl)
    decreases if x in order then IndexOf(order, x) else 0
  {
    x in tbl && (x == a || (tbl[x].parent.Some? && Under(order, tbl, tbl[x].parent.value, a)))
  }

  /** No page lists a child twice. */
  ghost predicate ChildrenDistinct(tbl: map<Id, Page>) {
    forall p :: p in tbl ==> Distinct(tbl[p].children)
  }

  /** A page below `a` is `a` or comes after it in table order. */
  lemma {:induction false} UnderLater(order: seq<Id>, tbl: map<Id, Page>, x: Id, a: Id)
    requires ParentsEarlier(order, tbl)
    ensures Under(order, tbl, x, a) ==> a in tbl && IndexOf(order, a) <= IndexOf(order, x)
    decreases if x in order then IndexOf(order, x) else 0
  {
    if x in tbl && x != a && tbl[x].parent.Some? {
      UnderLater(order, tbl, tbl[x].parent.value, a);
    }
  }

  /** Two pages above the same page are one above the other. */
  lemma {:induction false} UnderTotal(order: seq<Id>, tbl: map<Id, Page>, x: Id, a: Id, b: Id)
    requires ParentsEarlier(order, tbl)
    ensures Under(order, tbl, x, a) && Under(order, tbl, x, b) ==> Under(order, tbl, a, b) || Under(order, tbl, b, a)
    decreases if x in order then IndexOf(order, x) else 0
  {
    if x in tbl && x != a && x != b && tbl[x].parent.Some? {
      UnderTotal(order, tbl, tbl[x].parent.value, a, b);
    }
  }

  /** Below a page below `a` is below `a`. */
  lemma {:induction false} UnderTrans(order: seq<Id>, tbl: map<Id, Page>, x: Id, m: Id, a: Id)
    requires ParentsEarlier(order, tbl)
    ensures Under(order, tbl, x, m) && Under(order, tbl, m, a) ==> Under(order, tbl, x, a)
    decreases if x in order then IndexOf(order, x) else 0
  {
    if x in tbl && x != m && tbl[x].parent.Some? {
      UnderTrans(order, tbl, tbl[x].parent.value, m, a);
    }
  }

  /** No page is below two different children of one page. */
  lemma SiblingsApart(order: seq<Id>, tbl: map<Id, Page>, rootId: Id, p: Id, i: nat, x: Id)
    requires UrlTree(order, tbl, rootId) && ChildrenDistinct(tbl) && p in tbl && i < |tbl[p].children|
    ensures Under(order, tbl, x, tbl[p].children[i]) ==>
      forall j :: i < j < |tbl[p].children| ==> !Under(order, tbl, x, tbl[p].children[j])
  {
    var ci := tbl[p].children[i];
    ChildLater(order, tbl, rootId, p, i);
    UnderLater(order, tbl, p, ci);
    forall j | i < j < |tbl[p].children|
      ensures Under(order, tbl, x, ci) ==> !Under(order, tbl, x, tbl[p].children[j])
    {
      var cj := tbl[p].children[j];
      ChildLater(order, tbl, rootId, p, j);
      assert ci != cj;
      UnderTotal(order, tbl, x, ci, cj);
      UnderLater(order, tbl, p, cj);
    }
  }

  /** Every page the walk from `id` visits is below `id`. */
  lemma {:induction false} PreOrderUnder(order: seq<Id>, tbl: map<Id, Page>, rootId: Id, id: Id)
    requires UrlTree(order, tbl, rootId) && id in tbl
    ensures forall x :: x in PreOrder(order, tbl, rootId, id) ==> Under(order, tbl, x, id)
    decreases |order| - IndexOf(order, id), 1
  {
    var q := PreOrderChildren(order, tbl, rootId, id, 0);
    assert PreOrder(order, tbl, rootId, id) == [id] + q;
    PreOrderChildrenUnder(order, tbl, rootId, id, 0);
    forall j | 0 <= j < |tbl[id].children| ensures Under(order, tbl, tbl[id].children[j], id) {
      ChildLater(order, tbl, rootId, id, j);
    }
    forall x | x in q ensures Under(order, tbl, x, id) {
      var j :| 0 <= j < |tbl[id].children| && Under(order, tbl, x, tbl[id].children[j]);
      UnderTrans(order, tbl, x, tbl[id].children[j], id);
    }
  }

  /** Every page the walk of the children of `p` from the `k`-th on visits is below one of those children. */
  lemma {:induction false} PreOrderChildrenUnder(order: seq<Id>, tbl: map<Id, Page>, rootId: Id, p: Id, k: nat)
    requires UrlTree(order, tbl, rootId) && p in tbl && k <= |tbl[p].children|
    ensures forall x :: x in PreOrderChildren(order, tbl, rootId, p, k) ==>
      exists j :: k <= j < |tbl[p].children| && Under(order, tbl, x, tbl[p].children[j])
    decreases |order| - IndexOf(order, p), 0, |tbl[p].children| - k
  {
    if k < |tbl[p].children| {
      ChildLater(order, tbl, rootId, p, k);
      PreOrderUnder(order, tbl, rootId, tbl[p].children[k]);
      PreOrderChildrenUnder(order, tbl, rootId, p, k + 1);
    }
  }

  /** The walk of the `k`-th child and the walk of the later children visit no page in common. */
  lemma SubtreesApart(order: seq<Id>, tbl: map<Id, Page>, rootId: Id, p: Id, k: nat)
    requires UrlTree(order, tbl, rootId) && ChildrenDistinct(tbl) && p in tbl && k < |tbl[p].children|
    ensures forall x :: x in PreOrder(order, tbl, rootId, tbl[p].children[k]) ==>
      x !in PreOrderChildren(order, tbl, rootId, p, k + 1)
  {
    ChildLater(order, tbl, rootId, p, k);
    PreOrderUnder(order, tbl, rootId, tbl[p].children[k]);
    PreOrderChildrenUnder(order, tbl, rootId, p, k + 1);
    forall x | x in PreOrder(order, tbl, rootId, tbl[p].children[k])
      ensures x !in PreOrderChildren(order, tbl, rootId, p, k + 1)
    {
      SiblingsApart(order, tbl, rootId, p, k, x);
    }
  }

  /** The walk of the children of `p` never comes back to `p`. */
  lemma ParentNotRevisited(order: seq<Id>, tbl: map<Id, Page>, rootId: Id, p: Id)
    requires UrlTree(order, tbl, rootId) && p in tbl
    ensures p !in PreOrderChildren(order, tbl, rootId, p, 0)
  {
    PreOrderChildrenUnder(order, tbl, rootId, p, 0);
    forall j | 0 <= j < |tbl[p].children|
      ensures !Under(order, tbl, p, tbl[p].children[j])
    {
      ChildLater(order, tbl, rootId, p, j);
      UnderLater(order, tbl, p, tbl[p].children[j]);
    }
  }

  /** The `j`-th page of `ids` holds the URL at `off + j`. */
  ghost predicate Placed(pages: map<Id, Page>, urls: seq<string>, off: nat, ids: seq<Id>) {
    forall j :: 0 <= j < |ids| ==> ids[j] in pages && off + j < |urls| && pages[ids[j]].url == Some(urls[off + j])
  }

  /** Every page outside `ids` is as it was. */
  ghost predicate Untouched(before: map<Id, Page>, after: map<Id, Page>, ids: seq<Id>) {
    forall x {:trigger before[x]} :: x in before && x !in ids ==> x in after && after[x] == before[x]
  }

  /** A page given the URL at `off`, followed by pages placed from `off + 1` by a walk that does not touch it. */
  lemma PlacedCons(before: map<Id, Page>, after: map<Id, Page>, urls: seq<string>, off: nat, id: Id, v: Page, url: string, q: seq<Id>, p: seq<Id>)
    requires id in before && v.url == Some(url) && off < |urls| && urls[off] == url
    requires Placed(after, urls, off + 1, q) && Untouched(before[id := v], after, q) && id !in q
    requires p == [id] + q
    ensures Placed(after, urls, off, p) && Untouched(before, after, p)
  {
    forall j | 0 <= j < |p|
      ensures p[j] in after && off + j < |urls| && after[p[j]].url == Some(urls[off + j])
    {
      if j > 0 {
        assert p[j] == q[j - 1];
      } else {
        assert before[id := v][id] == v;
      }
    }
    assert forall x :: x in p <==> x == id || x in q;
    forall x | x in before && x !in p
      ensures x in after && after[x] == before[x]
    {
      assert before[id := v][x] == before[x];
    }
  }

  /** Two walks one after the other place their pages one after the other. */
  lemma PlacedAppend(mid: map<Id, Page>, after: map<Id, Page>, urlsMid: seq<string>, urls: seq<string>, off: nat, a: seq<Id>, b: seq<Id>)
    requires Placed(mid, urlsMid, off, a) && off + |a| == |urlsMid| && Placed(after, urls, |urlsMid|, b)
    requires |urlsMid| <= |urls| && urls[..|urlsMid|] == urlsMid
    requires Untouched(mid, after, b) && forall x :: x in a ==> x !in b
    ensures Placed(after, urls, off, a + b)
  {
    forall j | 0 <= j < |a + b|
      ensures (a + b)[j] in after && off + j < |urls| && after[(a + b)[j]].url == Some(urls[off + j])
    {
      if j < |a| {
        assert (a + b)[j] == a[j];
        assert urls[..|urlsMid|][off + j] == urls[off + j];
      } else {
        assert (a + b)[j] == b[j - |a|];
      }
    }
  }

  /**
   * The walk from `id` gives the `k`-th page it visits the `k`-th URL it
   * appends, and leaves every page it does not visit as it was.
   */
  lemma {:induction false} VisitPlaces(order: seq<Id>, tbl: map<Id, Page>, rootId: Id, siteUrl: string, s: UrlState, id: Id, parentUrl: string)
    requires UrlTree(order, tbl, rootId) && ChildrenDistinct(tbl) && id in tbl && (id == rootId || tbl[id].parent.Some?)
    requires s.pages.Keys == tbl.Keys
    ensures var r := Visit(order, tbl, rootId, siteUrl, s, id, parentUrl);
      var p := PreOrder(order, tbl, rootId, id);
      && Placed(r.pages, r.urls, |s.urls|, p)
      && Untouched(s.pages, r.pages, p)
    decreases |order| - IndexOf(order, id), 2
  {
    var url := UrlFor(tbl, rootId, siteUrl, s.urls, id, parentUrl);
    var r := Visit(order, tbl, rootId, siteUrl, s, id, parentUrl);
    VisitUnfolded(order, tbl, rootId, siteUrl, s, id, parentUrl);
    PlacedCons(s.pages, r.pages, r.urls, |s.urls|, id, s.pages[id].(url := Some(url)), url,
      PreOrderChildren(order, tbl, rootId, id, 0), PreOrder(order, tbl, rootId, id));
  }

  /** The walk from `id` seen as `id` getting its URL, then the walk of its children. */
  lemma {:induction false} VisitUnfolded(order: seq<Id>, tbl: map<Id, Page>, rootId: Id, siteUrl: string, s: UrlState, id: Id, parentUrl: string)
    requires UrlTree(order, tbl, rootId) && ChildrenDistinct(tbl) && id in tbl && (id == rootId || tbl[id].parent.Some?)
    requires s.pages.Keys == tbl.Keys
    ensures var url := UrlFor(tbl, rootId, siteUrl, s.urls, id, parentUrl);
      var r := Visit(order, tbl, rootId, siteUrl, s, id, parentUrl);
      var q := PreOrderChildren(order, tbl, rootId, id, 0);
      && PreOrder(order, tbl, rootId, id) == [id] + q
      && Placed(r.pages, r.urls, |s.urls| + 1, q)
      && Untouched(s.pages[id := s.pages[id].(url := Some(url))], r.pages, q)
      && id !in q
      && |s.urls| < |r.urls| && r.urls[|s.urls|] == url
    decreases |order| - IndexOf(order, id), 1
  {
    var url := UrlFor(tbl, rootId, siteUrl, s.urls, id, parentUrl);
    var s1 := UrlState(s.pages[id := s.pages[id].(url := Some(url))], s.urls + [url]);
    var r := VisitChildren(order, tbl, rootId, siteUrl, s1, id, url, 0);
    assert Visit(order, tbl, rootId, siteUrl, s, id, parentUrl) == r;
    ChildrenPlaced(order, tbl, rootId, siteUrl, s1, id, url);
    assert r.urls[|s.urls|] == r.urls[..|s1.urls|][|s.urls|];
  }

  /** What `VisitPlaces` needs of the walk of the children of `id`, which starts right after `id` got its URL. */
  lemma {:induction false} ChildrenPlaced(order: seq<Id>, tbl: map<Id, Page>, rootId: Id, siteUrl: string, s: UrlState, id: Id, url: string)
    requires UrlTree(order, tbl, rootId) && ChildrenDistinct(tbl) && id in tbl
    requires s.pages.Keys == tbl.Keys
    ensures var r := VisitChildren(order, tbl, rootId, siteUrl, s, id, url, 0);
      var q := PreOrderChildren(order, tbl, rootId, id, 0);
      && Placed(r.pages, r.urls, |s.urls|, q)
      && Untouched(s.pages, r.pages, q)
      && id !in q
      && |s.urls| <= |r.urls| && r.urls[..|s.urls|] == s.urls
    decreases |order| - IndexOf(order, id), 0, |tbl[id].children| + 1
  {
    VisitChildrenPlaces(order, tbl, rootId, siteUrl, s, id, url, 0);
    VisitChildrenUrls(order, tbl, rootId, siteUrl, s, id, url, 0);
    ParentNotRevisited(order, tbl, rootId, id);
  }

  lemma {:induction false} VisitChildrenPlaces(order: seq<Id>, tbl: map<Id, Page>, rootId: Id, siteUrl: string, s: UrlState, p: Id, pUrl: string, k: nat)
    requires UrlTree(order, tbl, rootId) && ChildrenDistinct(tbl) && p in tbl && k <= |tbl[p].children|
    requires s.pages.Keys == tbl.Keys
    ensures var r := VisitChildren(order, tbl, rootId, siteUrl, s, p, pUrl, k);
      var q := PreOrderChildren(order, tbl, rootId, p, k);
      && Placed(r.pages, r.urls, |s.urls|, q)
      && Untouched(s.pages, r.pages, q)
    decreases |order| - IndexOf(order, p), 0, |tbl[p].children| - k
  {
    if k < |tbl[p].children| {
      ChildLater(order, tbl, rootId, p, k);
      var c := tbl[p].children[k];
      var next := Visit(order, tbl, rootId, siteUrl, s, c, pUrl);
      var a := PreOrder(order, tbl, rootId, c);
      var b := PreOrderChildren(order, tbl, rootId, p, k + 1);
      var r := VisitChildren(order, tbl, rootId, siteUrl, next, p, pUrl, k + 1);
      assert PreOrderChildren(order, tbl, rootId, p, k) == a + b;
      assert VisitChildren(order, tbl, rootId, siteUrl, s, p, pUrl, k) == r;
      assert Placed(next.pages, next.urls, |s.urls|, a) && Untouched(s.pages, next.pages, a) by {
        VisitPlaces(order, tbl, rootId, siteUrl, s, c, pUrl);
      }
      assert |next.urls| == |s.urls| + |a| by {
        VisitUrls(order, tbl, rootId, siteUrl, s, c, pUrl);
      }
      assert Placed(r.pages, r.urls, |next.urls|, b) && Untouched(next.pages, r.pages, b) by {
        VisitChildrenPlaces(order, tbl, rootId, siteUrl, next, p, pUrl, k + 1);
      }
      assert |next.urls| <= |r.urls| && r.urls[..|next.urls|] == next.urls by {
        VisitChildrenUrls(order, tbl, rootId, siteUrl, next, p, pUrl, k + 1);
      }
      assert forall x :: x in a ==> x !in b by {
        SubtreesApart(order, tbl, rootId, p, k);
      }
      PlacedAppend(next.pages, r.pages, next.urls, r.urls, |s.urls|, a, b);
      UntouchedAppend(s.pages, next.pages, r.pages, a, b);
    }
  }

  lemma UntouchedAppend(before: map<Id, Page>, mid: map<Id, Page>, after: map<Id, Page>, a: seq<Id>, b: seq<Id>)
    requires Untouched(before, mid, a) && Untouched(mid, after, b)
    ensures Untouched(before, after, a + b)
  {
    assert forall x :: x in a + b <==> x in a || x in b;
  }

  /** Pages placed at distinct URLs are distinct. */
  lemma PlacedDistinct(pages: map<Id, Page>, urls: seq<string>, ids: seq<Id>)
    requires Placed(pages, urls, 0, ids) && Distinct(urls)
    ensures Distinct(ids)
  {
    forall i, j | 0 <= i < j < |ids|
      ensures ids[i] != ids[j]
    {
      assert pages[ids[i]].url == Some(urls[i]) && pages[ids[j]].url == Some(urls[j]);
    }
  }

  /**
   * Walking the whole site from the root with no URL assigned yet: the root
   * gets the site URL; the `k`-th page reachable from the root, in the order
   * the walk visits them, gets the `k`-th URL of the list; no page is visited
   * twice and no URL assigned twice; every page not reached is left as it was.
   */
  lemma SiteUrls(order: seq<Id>, tbl: map<Id, Page>, rootId: Id, siteUrl: string, s: UrlState)
    requires UrlTree(order, tbl, rootId) && ChildrenDistinct(tbl) && SameButUrls(tbl, s.pages) && s.urls == []
    ensures var r := Visit(order, tbl, rootId, siteUrl, s, rootId, "");
      var walk := PreOrder(order, tbl, rootId, rootId);
      && r.pages[rootId].url == Some(siteUrl)
      && |r.urls| == |walk|
      && r.urls[0] == siteUrl
      && Distinct(r.urls)
      && Distinct(walk)
      && (forall k :: 0 <= k < |walk| ==> walk[k] in r.pages && r.pages[walk[k]].url == Some(r.urls[k]))
      && (forall x :: x in s.pages && x !in walk ==> x in r.pages && r.pages[x] == s.pages[x])
  {
    var r := Visit(order, tbl, rootId, siteUrl, s, rootId, "");
    VisitFrame(order, tbl, rootId, siteUrl, s, rootId, "");
    VisitUrls(order, tbl, rootId, siteUrl, s, rootId, "");
    VisitPlaces(order, tbl, rootId, siteUrl, s, rootId, "");
    PlacedDistinct(r.pages, r.urls, PreOrder(order, tbl, rootId, rootId));
  }

  // ---------------------------------------------------------------------------
  // The method

  /** The parent URL `generate_urls(id)` reads: none for the root, else the URL recorded on the parent. */
  function ParentUrl(pages: map<Id, Page>, tbl: map<Id, Page>, rootId: Id, id: Id): string
    requires id in tbl && pages.Keys == tbl.Keys
    requires id != rootId ==> tbl[id].parent.Some? && tbl[id].parent.value in tbl && pages[tbl[id].parent.value].url.Some?
  {
    if id == rootId then "" else pages[tbl[id].parent.value].url.value
  }

  /** The live table differs from `tbl` only in URLs. */
  ghost predicate SameButUrls(tbl: map<Id, Page>, pages: map<Id, Page>) {
    tbl.Keys == pages.Keys && forall x :: x in tbl ==> pages[x] == tbl[x].(url := pages[x].url)
  }

  /** The URL `generate_urls(page_id)` computes before it walks the children. */
  method NewUrl(site: Site, id: Id, siteUrl: string, ghost tbl: map<Id, Page>) returns (url: string)
    requires UrlTree(site.order, tbl, site.rootId) && id in tbl && SameButUrls(tbl, site.pages)
    requires id != site.rootId ==>
      tbl[id].parent.Some? && tbl[id].parent.value in tbl && site.pages[tbl[id].parent.value].url.Some?
    ensures url == UrlFor(tbl, site.rootId, siteUrl, site.urls, id, ParentUrl(site.pages, tbl, site.rootId, id))
  {
    if id == site.rootId {
      url := siteUrl;
    } else {
      var parentId := site.pages[id].parent.value;
      var name := Slug(site.pages[id].title.value);
      url := FreshUrl(site.urls, site.pages[parentId].url.value + "/", name);
    }
  }

  /** What `generate_urls(id)` needs when it starts: the tree, the table and, below the root, a parent with a URL. */
  ghost predicate CallOk(order: seq<Id>, tbl: map<Id, Page>, rootId: Id, pages: map<Id, Page>, id: Id)
  {
    && UrlTree(order, tbl, rootId) && id in tbl && SameButUrls(tbl, pages)
    && (id != rootId ==>
          tbl[id].parent.Some? && tbl[id].parent.value in tbl && pages[tbl[id].parent.value].url.Some?)
  }

  /** The `k`-th child of a page whose URL is assigned may be visited, under that URL. */
  lemma ChildReady(order: seq<Id>, tbl: map<Id, Page>, rootId: Id, pages: map<Id, Page>, id: Id, url: string, k: nat)
    requires UrlTree(order, tbl, rootId) && id in tbl && k < |tbl[id].children|
    requires SameButUrls(tbl, pages) && pages[id].url == Some(url)
    ensures var c := tbl[id].children[k];
      && CallOk(order, tbl, rootId, pages, c)
      && IndexOf(order, id) < IndexOf(order, c)
      && ParentUrl(pages, tbl, rootId, c) == url
  {
    ChildLater(order, tbl, rootId, id, k);
  }

  /** After the `k`-th child's walk, the parent's walk continues from child `k + 1`. */
  lemma ChildDone(order: seq<Id>, tbl: map<Id, Page>, rootId: Id, siteUrl: string, before: UrlState, after: UrlState, id: Id, url: string, k: nat)
    requires UrlTree(order, tbl, rootId) && id in tbl && k < |tbl[id].children|
    requires SameButUrls(tbl, before.pages) && before.pages[id].url == Some(url)
    requires after == Visit(order, tbl, rootId, siteUrl, before, tbl[id].children[k], url)
    ensures SameButUrls(tbl, after.pages) && after.pages[id].url == Some(url)
    ensures VisitChildren(order, tbl, rootId, siteUrl, before, id, url, k)
         == VisitChildren(order, tbl, rootId, siteUrl, after, id, url, k + 1)
  {
    ChildLater(order, tbl, rootId, id, k);
    VisitFrame(order, tbl, rootId, siteUrl, before, tbl[id].children[k], url);
  }

  /** The walk from `id` is the walk of its children once its URL is assigned. */
  lemma StartVisit(order: seq<Id>, tbl: map<Id, Page>, rootId: Id, siteUrl: string, s: UrlState, id: Id, parentUrl: string, url: string)
    requires UrlTree(order, tbl, rootId) && id in tbl && (id == rootId || tbl[id].parent.Some?)
    requires SameButUrls(tbl, s.pages) && url == UrlFor(tbl, rootId, siteUrl, s.urls, id, parentUrl)
    ensures var s1 := UrlState(s.pages[id := s.pages[id].(url := Some(url))], s.urls + [url]);
      && SameButUrls(tbl, s1.pages) && s1.pages[id].url == Some(url)
      && Visit(order, tbl, rootId, siteUrl, s, id, parentUrl) == VisitChildren(order, tbl, rootId, siteUrl, s1, id, url, 0)
  {
  }

  /**
   * `generate_urls(page_id)`. The ghost `order`, `rootId` and `tbl` are the
   * site's table order, its root and its table as the walk found them.
   */
  method GenerateUrls(site: Site, id: Id, siteUrl: string, ghost order: seq<Id>, ghost rootId: Id, ghost tbl: map<Id, Page>)
    requires site.order == order && site.rootId == rootId && CallOk(order, tbl, rootId, site.pages, id)
    modifies site`pages, site`urls
    ensures UrlState(site.pages, site.urls)
      == Visit(order, tbl, rootId, siteUrl, old(UrlState(site.pages, site.urls)), id, ParentUrl(old(site.pages), tbl, rootId, id))
    decreases |order| - IndexOf(order, id), 2
  {
    var url := NewUrl(site, id, siteUrl, tbl);
    StartVisit(order, tbl, rootId, siteUrl, UrlState(site.pages, site.urls), id,
               ParentUrl(site.pages, tbl, rootId, id), url);
    site.pages := site.pages[id := site.pages[id].(url := Some(url))];
    site.urls := site.urls + [url];
    VisitChildUrls(site, id, url, siteUrl, order, rootId, tbl);
  }

  /** The loop of `generate_urls(id)` over the children of `id`, once `id` has its URL. */
  method VisitChildUrls(site: Site, id: Id, url: string, siteUrl: string, ghost order: seq<Id>, ghost rootId: Id, ghost tbl: map<Id, Page>)
    requires site.order == order && site.rootId == rootId && UrlTree(order, tbl, rootId) && id in tbl
    requires SameButUrls(tbl, site.pages) && site.pages[id].url == Some(url)
    modifies site`pages, site`urls
    ensures UrlState(site.pages, site.urls)
      == VisitChildren(order, tbl, rootId, siteUrl, old(UrlState(site.pages, site.urls)), id, url, 0)
    decreases |order| - IndexOf(order, id), 1
  {
    ghost var goal := VisitChildren(order, tbl, rootId, siteUrl, UrlState(site.pages, site.urls), id, url, 0);
    var n := |site.pages[id].children|;
    var k := 0;
    while k < n
      invariant 0 <= k <= n && n == |tbl[id].children|
      invariant SameButUrls(tbl, site.pages) && site.pages[id].url == Some(url)
      invariant VisitChildren(order, tbl, rootId, siteUrl, UrlState(site.pages, site.urls), id, url, k) == goal
    {
      VisitChild(site, id, url, siteUrl, order, rootId, tbl, k);
      k := k + 1;
    }
  }

  /** One turn of that loop: the walk from the `k`-th child of `id`. */
  method VisitChild(site: Site, id: Id, url: string, siteUrl: string, ghost order: seq<Id>, ghost rootId: Id, ghost tbl: map<Id, Page>, k: nat)
    requires site.order == order && site.rootId == rootId && UrlTree(order, tbl, rootId) && id in tbl
    requires k < |tbl[id].children|
    requires SameButUrls(tbl, site.pages) && site.pages[id].url == Some(url)
    modifies site`pages, site`urls
    ensures SameButUrls(tbl, site.pages) && site.pages[id].url == Some(url)
    ensures VisitChildren(order, tbl, rootId, siteUrl, old(UrlState(site.pages, site.urls)), id, url, k)
         == VisitChildren(order, tbl, rootId, siteUrl, UrlState(site.pages, site.urls), id, url, k + 1)
    decreases |order| - IndexOf(order, id), 0
  {
    ghost var before := UrlState(site.pages, site.urls);
    ChildReady(order, tbl, rootId, site.pages, id, url, k);
    GenerateUrls(site, site.pages[id].children[k], siteUrl, order, rootId, tbl);
    ChildDone(order, tbl, rootId, siteUrl, before, UrlState(site.pages, site.urls), id, url, k);
  }
}
