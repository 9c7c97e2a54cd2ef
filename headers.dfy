/**
 * `parse_headers`: one page record per exported page, with its kind, title,
 * dates, parent, cover and icon, and each page back-linked into its parent's
 * children.
 */
module Headers {
  import opened Optional
  import opened Json
  import opened RawNotion
  import opened SiteModel
  import opened Formatters

  /** A record whose parent is a database is a database entry, whatever its object type. */
  function KindOf(r: RawPage): (k: Kind)
    ensures k == DbEntryKind <==> r.parent.DatabaseParent?
  {
    if r.parent.DatabaseParent? then DbEntryKind
    else if r.objectKind == PageObject then PageKind
    else DatabaseKind
  }

  /** The first `title` hit in a database entry's properties is a list whose first element (if any) has a plain text. */
  predicate TitleHitOk(hits: seq<Json>) {
    && |hits| > 0
    && hits[0].JList?
    && (|hits[0].items| > 0 ==>
          hits[0].items[0].JObj?
          && Get(hits[0].items[0], "plain_text").Some?
          && Get(hits[0].items[0], "plain_text").value.JStr?)
  }

  /** What title extraction reads is there, for each kind of record. */
  predicate TitleOk(r: RawPage) {
    match KindOf(r)
    case PageKind => Lookup(r.properties, "title").Some? && Lookup(r.properties, "title").value.PTitle?
    case DatabaseKind => |r.title| > 0 ==> r.title[0].TextSpan?
    case DbEntryKind => TitleHitOk(Search("title", PropsJson(r.properties)))
  }

  /**
   * The title: a page's from its `title` property, a database's from its
   * own title, a database entry's from the first `title` key found anywhere
   * in its properties. An empty title is `None`.
   */
  function TitleOf(r: RawPage): Option<string>
    requires TitleOk(r)
  {
    match KindOf(r)
    case PageKind =>
      var spans := Lookup(r.properties, "title").value.title;
      if |spans| > 0 then Some(spans[0].plainText) else None
    case DatabaseKind =>
      if |r.title| > 0 then Some(r.title[0].content) else None
    case DbEntryKind =>
      var hit := Search("title", PropsJson(r.properties))[0];
      if |hit.items| > 0 then Some(Get(hit.items[0], "plain_text").value.s) else None
  }

  /**
   * A database entry's title is the first plain text of its title property,
   * as long as no property named `title` or of an unmodelled type precedes it.
   */
  lemma EntryTitle(r: RawPage, before: seq<(string, PropValue)>, name: string, spans: seq<Span>,
                   after: seq<(string, PropValue)>)
    requires r.parent.DatabaseParent?
    requires r.properties == before + [(name, PTitle(spans))] + after
    requires forall i :: 0 <= i < |before| ==> before[i].0 != "title" && !before[i].1.PTitle? && !before[i].1.POther?
    requires name != "title"
    ensures TitleOk(r)
    ensures TitleOf(r) == if |spans| > 0 then Some(spans[0].plainText) else None
  {
    FirstTitleHit(before, name, spans, after);
    var hit := EncodeSpans(spans);
    if |spans| > 0 {
      assert hit.items[0] == EncodeSpan(spans[0]);
      assert Get(hit.items[0], "plain_text") == Some(JStr(spans[0].plainText));
    }
  }

  /** A database entry's `Date` property, if it has one, is a date. */
  predicate DateOk(r: RawPage) {
    KindOf(r) == DbEntryKind && Lookup(r.properties, "Date").Some? ==> Lookup(r.properties, "Date").value.PDate?
  }

  /** The start and end of a database entry's `Date` property, when set. */
  function DatesOf(r: RawPage): (d: (Option<string>, Option<string>))
    requires DateOk(r)
    ensures d.1.Some? ==> d.0.Some?
    ensures d.0.Some? <==> KindOf(r) == DbEntryKind && Lookup(r.properties, "Date").Some?
                           && Lookup(r.properties, "Date").value.date.Some?
    ensures d.0.Some? ==> var range := Lookup(r.properties, "Date").value.date.value;
                          d.0.value == range.start && d.1 == range.end
  {
    if KindOf(r) == DbEntryKind && Lookup(r.properties, "Date").Some?
       && Lookup(r.properties, "Date").value.date.Some?
    then
      var range := Lookup(r.properties, "Date").value.date.value;
      (Some(range.start), range.end)
    else (None, None)
  }

  /** A cover, when present, holds a `url` key whose first value is a string. */
  predicate CoverOk(r: RawPage) {
    r.cover != JNull ==> |Search("url", r.cover)| > 0 && Search("url", r.cover)[0].JStr?
  }

  /** The cover URL: the first `url` value found in the cover. */
  function CoverOf(r: RawPage): Option<string>
    requires CoverOk(r)
  {
    if r.cover != JNull then Some(Search("url", r.cover)[0].s) else None
  }

  predicate HeaderOk(r: RawPage) {
    TitleOk(r) && DateOk(r) && CoverOk(r)
  }

  /**
   * The record of one exported page, before any page is linked to it as a
   * child. An icon is either an emoji or a file, never both, and the files to
   * fetch are the cover's URL and then the icon file's URL, and nothing else;
   * the dates and the last edit time are the record's.
   */
  function Header(r: RawPage): (h: Page)
    requires HeaderOk(r)
    ensures h.kind == KindOf(r) && h.title == TitleOf(r)
    ensures h.parent == ParentId(r.parent) && h.children == []
    ensures !(h.icon.Some? && h.emoji.Some?)
    ensures h.files == Opt(h.cover) + Opt(h.icon)
    ensures h.cover == CoverOf(r)
    ensures h.icon.Some? <==> r.icon.FileIcon?
    ensures h.emoji.Some? <==> r.icon.EmojiIcon?
    ensures r.icon.FileIcon? ==> h.icon == Some(r.icon.url)
    ensures r.icon.EmojiIcon? ==> h.emoji == Some(r.icon.emoji)
    ensures (h.date, h.dateEnd) == DatesOf(r)
    ensures h.lastEditedTime == r.lastEditedTime
    ensures h.url == None
  {
    var cover := CoverOf(r);
    var (icon, emoji) := match r.icon
      case NoIcon => (None, None)
      case EmojiIcon(e) => (None, Some(e))
      case FileIcon(u) => (Some(u), None);
    var (date, dateEnd) := DatesOf(r);
    Page(
      kind := KindOf(r), files := Opt(cover) + Opt(icon), title := TitleOf(r),
      lastEditedTime := r.lastEditedTime, date := date, dateEnd := dateEnd,
      parent := ParentId(r.parent), children := [], cover := cover, emoji := emoji, icon := icon,
      dbList := false, familyLine := [], url := None, mdContent := "",
      properties := None, propertiesMd := None)
  }

  /** What `parse_headers` demands of the export: a dictionary whose every record has what is read from it. */
  ghost predicate HeadersOk(raw: Raw) {
    WellKeyed(raw) && forall id :: id in raw.pages ==> HeaderOk(raw.pages[id])
  }

  /** The header of every exported record, by id. */
  function HeaderMap(raw: Raw): (hdr: map<Id, Page>)
    requires HeadersOk(raw)
    ensures forall id :: id in hdr <==> id in raw.pages
  {
    map id | id in raw.pages :: Header(raw.pages[id])
  }

  /** Every header of `ids` names as parent only itself or an earlier id. */
  ghost predicate ParentsAtOrBefore(ids: seq<Id>, hdr: map<Id, Page>) {
    && Distinct(ids)
    && (forall i :: 0 <= i < |ids| ==> ids[i] in hdr)
    && forall i :: 0 <= i < |ids| && hdr[ids[i]].parent.Some? ==>
         hdr[ids[i]].parent.value in ids && IndexOf(ids, hdr[ids[i]].parent.value) <= i
  }

  /** The ids among the first `n` whose parent is `p`, in order. */
  function ChildrenIn(ids: seq<Id>, hdr: map<Id, Page>, n: nat, p: Id): (r: seq<Id>)
    requires n <= |ids| && forall i :: 0 <= i < |ids| ==> ids[i] in hdr
    ensures forall c :: c in r <==> c in ids[..n] && hdr[c].parent == Some(p)
    ensures |r| <= n
  {
    assert n > 0 ==> ids[..n] == ids[..n - 1] + [ids[n - 1]];
    if n == 0 then []
    else ChildrenIn(ids, hdr, n - 1, p) + (if hdr[ids[n - 1]].parent == Some(p) then [ids[n - 1]] else [])
  }

  /** One iteration of `parse_headers`: add the record `h`, then append its id to its parent's children. */
  function Step(pages: map<Id, Page>, id: Id, h: Page): (r: map<Id, Page>)
    requires h.parent.Some? ==> h.parent.value in pages || h.parent.value == id
    ensures r.Keys == pages.Keys + {id}
  {
    var added := pages[id := h];
    if h.parent.Some? then
      var p := h.parent.value;
      added[p := added[p].(children := added[p].children + [id])]
    else added
  }

  lemma StepRecord(pages: map<Id, Page>, id: Id, h: Page, q: Id)
    requires h.parent.Some? ==> h.parent.value in pages || h.parent.value == id
    requires q in pages || q == id
    ensures Step(pages, id, h)[q]
      == (if q == id then h else pages[q]).(children :=
           (if q == id then h else pages[q]).children + (if h.parent == Some(q) then [id] else []))
  {
  }

  lemma ParentKnown(ids: seq<Id>, hdr: map<Id, Page>, i: nat)
    requires ParentsAtOrBefore(ids, hdr) && i < |ids|
    ensures hdr[ids[i]].parent.Some? ==> hdr[ids[i]].parent.value in ids[..i] || hdr[ids[i]].parent.value == ids[i]
  {
    if hdr[ids[i]].parent.Some? {
      var j := IndexOf(ids, hdr[ids[i]].parent.value);
      if j < i { assert ids[j] in ids[..i]; }
    }
  }

  /** The page table after the first `n` records. */
  function TableUpTo(ids: seq<Id>, hdr: map<Id, Page>, n: nat): (pages: map<Id, Page>)
    requires ParentsAtOrBefore(ids, hdr) && n <= |ids|
    ensures forall id :: id in pages <==> id in ids[..n]
  {
    if n == 0 then map[]
    else
      ParentKnown(ids, hdr, n - 1);
      assert ids[..n] == ids[..n - 1] + [ids[n - 1]];
      Step(TableUpTo(ids, hdr, n - 1), ids[n - 1], hdr[ids[n - 1]])
  }

  /** The table after all the records is keyed by the export's ids. */
  lemma TableUpToKeyed(ids: seq<Id>, hdr: map<Id, Page>)
    requires ParentsAtOrBefore(ids, hdr)
    ensures Keyed(ids, TableUpTo(ids, hdr, |ids|))
  {
    assert ids[..|ids|] == ids;
  }

  lemma TableUpToNext(ids: seq<Id>, hdr: map<Id, Page>, i: nat)
    requires ParentsAtOrBefore(ids, hdr) && i < |ids|
    ensures hdr[ids[i]].parent.Some? ==> hdr[ids[i]].parent.value in TableUpTo(ids, hdr, i) || hdr[ids[i]].parent.value == ids[i]
    ensures TableUpTo(ids, hdr, i + 1) == Step(TableUpTo(ids, hdr, i), ids[i], hdr[ids[i]])
  {
    ParentKnown(ids, hdr, i);
  }

  lemma {:induction false} ChildrenInBefore(ids: seq<Id>, hdr: map<Id, Page>, n: nat, p: Id)
    requires ParentsAtOrBefore(ids, hdr) && n <= |ids|
    requires p !in ids[..n]
    ensures ChildrenIn(ids, hdr, n, p) == []
  {
    if n > 0 {
      assert ids[..n - 1] == ids[..n][..n - 1];
      ChildrenInBefore(ids, hdr, n - 1, p);
      ParentKnown(ids, hdr, n - 1);
    }
  }

  /**
   * Every record of the table is its page's header, with as children exactly
   * the pages that name it as parent, each once, in export order.
   */
  lemma {:induction false} TableUpToRecord(ids: seq<Id>, hdr: map<Id, Page>, n: nat, q: Id)
    requires ParentsAtOrBefore(ids, hdr) && n <= |ids|
    requires forall id :: id in hdr ==> hdr[id].children == []
    requires q in ids[..n]
    ensures TableUpTo(ids, hdr, n)[q] == hdr[q].(children := ChildrenIn(ids, hdr, n, q))
  {
    var id := ids[n - 1];
    var prev := TableUpTo(ids, hdr, n - 1);
    ParentKnown(ids, hdr, n - 1);
    assert ids[..n] == ids[..n - 1] + [id];
    StepRecord(prev, id, hdr[id], q);
    if q == id {
      assert q !in ids[..n - 1];
      ChildrenInBefore(ids, hdr, n - 1, q);
    } else {
      TableUpToRecord(ids, hdr, n - 1, q);
    }
  }

  lemma {:induction false} ChildrenInDistinct(ids: seq<Id>, hdr: map<Id, Page>, n: nat, p: Id)
    requires ParentsAtOrBefore(ids, hdr) && n <= |ids|
    ensures Distinct(ChildrenIn(ids, hdr, n, p))
  {
    if n > 0 {
      ChildrenInDistinct(ids, hdr, n - 1, p);
      var prev := ChildrenIn(ids, hdr, n - 1, p);
      if hdr[ids[n - 1]].parent == Some(p) {
        assert ids[n - 1] !in ids[..n - 1] by {
          assert forall j :: 0 <= j < n - 1 ==> ids[j] != ids[n - 1];
        }
        DistinctSnoc(prev, ids[n - 1]);
      }
    }
  }

  /**
   * In the finished table, a page lists `c` as a child exactly when `c` is
   * exported and names it as parent, and lists no child twice.
   */
  lemma LinkedOnce(ids: seq<Id>, hdr: map<Id, Page>, p: Id, c: Id)
    requires ParentsAtOrBefore(ids, hdr) && p in ids
    requires forall id :: id in hdr ==> hdr[id].children == []
    ensures p in TableUpTo(ids, hdr, |ids|)
    ensures c in TableUpTo(ids, hdr, |ids|)[p].children <==> c in ids && hdr[c].parent == Some(p)
    ensures Distinct(TableUpTo(ids, hdr, |ids|)[p].children)
  {
    assert ids[..|ids|] == ids;
    TableUpToRecord(ids, hdr, |ids|, p);
    ChildrenInDistinct(ids, hdr, |ids|, p);
  }

  /** A record of the finished table is an exported page, with no URL and no child listed twice. */
  lemma TableUpToUnlinked(ids: seq<Id>, hdr: map<Id, Page>, q: Id)
    requires ParentsAtOrBefore(ids, hdr) && q in TableUpTo(ids, hdr, |ids|)
    requires forall id :: id in hdr ==> hdr[id].children == [] && hdr[id].url == None
    ensures q in ids && TableUpTo(ids, hdr, |ids|)[q].url == None
    ensures Distinct(TableUpTo(ids, hdr, |ids|)[q].children)
  {
    assert ids[..|ids|] == ids;
    TableUpToRecord(ids, hdr, |ids|, q);
    ChildrenInDistinct(ids, hdr, |ids|, q);
  }

  /** Every header starts with no child and no URL. */
  lemma HeaderMapFresh(raw: Raw)
    requires HeadersOk(raw)
    ensures forall id :: id in HeaderMap(raw) ==> HeaderMap(raw)[id].children == [] && HeaderMap(raw)[id].url == None
  {
  }

  /** Every record names as parent only itself, the workspace, or a record exported no later. */
  ghost predicate ParentsFirst(raw: Raw) {
    && (forall i :: 0 <= i < |raw.ids| ==> raw.ids[i] in raw.pages)
    && forall i :: 0 <= i < |raw.ids| && ParentId(raw.pages[raw.ids[i]].parent).Some? ==>
         ParentId(raw.pages[raw.ids[i]].parent).value in raw.ids[..i + 1]
  }

  lemma ParentsFirstHeaders(raw: Raw)
    requires HeadersOk(raw) && ParentsFirst(raw)
    ensures ParentsAtOrBefore(raw.ids, HeaderMap(raw))
  {
    var hdr := HeaderMap(raw);
    forall i | 0 <= i < |raw.ids| && hdr[raw.ids[i]].parent.Some?
      ensures hdr[raw.ids[i]].parent.value in raw.ids && IndexOf(raw.ids, hdr[raw.ids[i]].parent.value) <= i
    {
      var p := hdr[raw.ids[i]].parent.value;
      assert p in raw.ids[..i + 1];
      var j :| 0 <= j <= i && raw.ids[j] == p;
      assert IndexOf(raw.ids, p) <= j;
    }
  }

  /** The page table after the first `n` exported records. */
  ghost function Parsed(raw: Raw, n: nat): map<Id, Page>
    requires HeadersOk(raw) && ParentsFirst(raw) && n <= |raw.ids|
  {
    ParentsFirstHeaders(raw);
    TableUpTo(raw.ids, HeaderMap(raw), n)
  }

  lemma ParsedNone(raw: Raw)
    requires HeadersOk(raw) && ParentsFirst(raw)
    ensures Parsed(raw, 0) == map[]
  {
    ParentsFirstHeaders(raw);
  }

  /** The page table `parse_headers` returns. */
  ghost function HeaderTable(raw: Raw): map<Id, Page>
    requires HeadersOk(raw) && ParentsFirst(raw)
  {
    Parsed(raw, |raw.ids|)
  }

  /** Every record of the header table is an exported page, with no URL and no child listed twice. */
  lemma HeaderTableUnlinked(raw: Raw, p: Id)
    requires HeadersOk(raw) && ParentsFirst(raw) && p in HeaderTable(raw)
    ensures p in raw.pages
    ensures HeaderTable(raw)[p].url == None
    ensures Distinct(HeaderTable(raw)[p].children)
  {
    ParentsFirstHeaders(raw);
    HeaderMapFresh(raw);
    TableUpToUnlinked(raw.ids, HeaderMap(raw), p);
  }

  /** Each page is listed as a child by its parent, by no other page, and exactly once. */
  lemma BackLinkedOnce(raw: Raw, p: Id, c: Id)
    requires HeadersOk(raw) && ParentsFirst(raw)
    requires p in raw.pages && c in raw.pages
    ensures p in HeaderTable(raw)
    ensures c in HeaderTable(raw)[p].children <==> ParentId(raw.pages[c].parent) == Some(p)
    ensures Distinct(HeaderTable(raw)[p].children)
  {
    var hdr := HeaderMap(raw);
    ParentsFirstHeaders(raw);
    assert forall id :: id in hdr ==> hdr[id].children == [];
    LinkedOnce(raw.ids, hdr, p, c);
    assert hdr[c].parent == ParentId(raw.pages[c].parent);
  }

  /** One loop iteration of `parse_headers` is one `Step` of the table. */
  lemma TableStep(raw: Raw, i: nat)
    requires HeadersOk(raw) && ParentsFirst(raw) && i < |raw.ids|
    ensures var id := raw.ids[i]; var h := Header(raw.pages[id]);
      && (h.parent.Some? ==> h.parent.value in Parsed(raw, i) || h.parent.value == id)
      && Parsed(raw, i + 1) == Step(Parsed(raw, i), id, h)
  {
    ParentsFirstHeaders(raw);
    TableUpToNext(raw.ids, HeaderMap(raw), i);
  }

  /** `parse_headers`: the page table, built record by record in export order. */
  method ParseHeaders(raw: Raw) returns (pages: map<Id, Page>)
    requires HeadersOk(raw) && ParentsFirst(raw)
    ensures pages == HeaderTable(raw)
  {
    pages := map[];
    ParsedNone(raw);
    var i := 0;
    while i < |raw.ids|
      invariant 0 <= i <= |raw.ids|
      invariant pages == Parsed(raw, i)
    {
      pages := AddHeader(raw, i, pages);
      i := i + 1;
    }
    assert i == |raw.ids|;
  }

  /** One record of the loop: its header is stored and its id appended to its parent's children. */
  method AddHeader(raw: Raw, i: nat, pages: map<Id, Page>) returns (r: map<Id, Page>)
    requires HeadersOk(raw) && ParentsFirst(raw) && i < |raw.ids|
    requires pages == Parsed(raw, i)
    ensures r == Parsed(raw, i + 1)
  {
    var id := raw.ids[i];
    var h := Header(raw.pages[id]);
    TableStep(raw, i);
    r := AddRecord(pages, id, h);
  }

  /** `notion_pages[page_id] = header`, then `notion_pages[parent]["children"].append(page_id)`. */
  method AddRecord(pages: map<Id, Page>, id: Id, h: Page) returns (r: map<Id, Page>)
    requires h.parent.Some? ==> h.parent.value in pages || h.parent.value == id
    ensures r == Step(pages, id, h)
  {
    r := pages[id := h];
    if h.parent.Some? {
      var p := h.parent.value;
      r := r[p := r[p].(children := r[p].children + [id])];
    }
  }
}
