/**
 * The structured site: a table of page records keyed by page id, kept in the
 * export's order, plus the list of assigned URLs, the root id and the pages
 * grouped by year.
 */
module SiteModel {
  import opened Optional
  import opened RawNotion

  datatype Kind = PageKind | DatabaseKind | DbEntryKind

  /** One page record of the site. */
  datatype Page = Page(
    kind: Kind,
    files: seq<string>,
    title: Option<string>,
    lastEditedTime: string,
    date: Option<string>,
    dateEnd: Option<string>,
    parent: Option<Id>,
    children: seq<Id>,
    cover: Option<string>,
    emoji: Option<string>,
    icon: Option<string>,
    dbList: bool,
    familyLine: seq<Id>,
    url: Option<string>,
    mdContent: string,
    properties: Option<seq<(string, PropValue)>>,
    propertiesMd: Option<seq<(string, string)>>)

  /** The ids of `order` are distinct. */
  ghost predicate Distinct<T>(order: seq<T>) {
    forall i, j :: 0 <= i < j < |order| ==> order[i] != order[j]
  }

  /** A new element at the end keeps a sequence free of repeats. */
  lemma DistinctSnoc<T>(s: seq<T>, x: T)
    requires Distinct(s) && x !in s
    ensures Distinct(s + [x])
  {
  }

  /** The page table is keyed exactly by `order`, without repeats. */
  ghost predicate Keyed(order: seq<Id>, pages: map<Id, Page>) {
    Distinct(order) && forall id :: id in pages <==> id in order
  }

  /** The position of an id in the table order. */
  function IndexOf(order: seq<Id>, id: Id): (i: nat)
    requires id in order
    ensures i < |order| && order[i] == id
    ensures forall j :: 0 <= j < i ==> order[j] != id
  {
    if order[0] == id then 0 else 1 + IndexOf(order[1..], id)
  }

  /**
   * The table a pass over `order` has produced so far: the records of `ids`
   * replaced by their final form in `target`, the rest as they started.
   */
  function Overlay(start: map<Id, Page>, target: map<Id, Page>, ids: seq<Id>): (r: map<Id, Page>)
    requires target.Keys == start.Keys
    ensures r.Keys == start.Keys
  {
    map x | x in start :: if x in ids then target[x] else start[x]
  }

  /** Before a pass reaches a record, the record is as it started; reaching it puts its final form in place. */
  lemma OverlayStep(order: seq<Id>, start: map<Id, Page>, target: map<Id, Page>, i: nat)
    requires Keyed(order, start) && target.Keys == start.Keys && i < |order|
    ensures order[i] in start
    ensures Overlay(start, target, order[..i])[order[i]] == start[order[i]]
    ensures Overlay(start, target, order[..i + 1]) == Overlay(start, target, order[..i])[order[i] := target[order[i]]]
  {
    assert order[..i + 1] == order[..i] + [order[i]];
    assert order[i] !in order[..i];
  }

  /** A pass that has not started has changed nothing; one that has visited every id has produced `target`. */
  lemma OverlayEnds(order: seq<Id>, start: map<Id, Page>, target: map<Id, Page>)
    requires Keyed(order, start) && target.Keys == start.Keys
    ensures Overlay(start, target, order[..0]) == start
    ensures Overlay(start, target, order[..|order|]) == target
  {
    assert order[..|order|] == order;
  }

  /** The structured site, updated in place by each pass. */
  class Site {
    var order: seq<Id>
    var pages: map<Id, Page>
    var urls: seq<string>
    var rootId: Id
    var includeFooter: bool
    var sortedIdByYear: seq<(int, seq<Id>)>

    /** A site with the given page table and nothing assigned yet. */
    constructor (order: seq<Id>, pages: map<Id, Page>, rootId: Id, includeFooter: bool)
      ensures this.order == order && this.pages == pages && this.rootId == rootId
      ensures this.includeFooter == includeFooter
      ensures urls == [] && sortedIdByYear == []
    {
      this.order := order;
      this.pages := pages;
      this.rootId := rootId;
      this.includeFooter := includeFooter;
      urls := [];
      sortedIdByYear := [];
    }
  }
}
