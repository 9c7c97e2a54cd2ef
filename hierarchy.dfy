/**
 * The passes over the page table that read its parent and child links:
 * `find_lists_in_dbs`, which decides whether a database is shown as a list or
 * a gallery, and `parse_family_line(s)`, which records each page's ancestors.
 */
module Hierarchy {
  import opened Optional
  import opened PyStr
  import opened RawNotion
  import opened SiteModel

  // ---------------------------------------------------------------------------
  // find_lists_in_dbs

  /** Some page of `children` has no cover. */
  predicate CoverlessChild(pages: map<Id, Page>, children: seq<Id>)
    requires forall k :: 0 <= k < |children| ==> children[k] in pages
  {
    exists k :: 0 <= k < |children| && pages[children[k]].cover.None?
  }

  /** Every child a record names is in the table (the source looks each one up). */
  ghost predicate ChildrenKnown(pages: map<Id, Page>) {
    forall id, k :: id in pages && 0 <= k < |pages[id].children| ==> pages[id].children[k] in pages
  }

  /**
   * The table after `find_lists_in_dbs`: a database with a child that has no
   * cover is marked as a list; nothing else changes, and no mark is removed.
   */
  function ListsMarked(pages: map<Id, Page>): (r: map<Id, Page>)
    requires ChildrenKnown(pages)
    ensures r.Keys == pages.Keys
  {
    map id | id in pages ::
      if pages[id].kind == DatabaseKind && CoverlessChild(pages, pages[id].children)
      then pages[id].(dbList := true) else pages[id]
  }

  /**
   * Marking changes only the list flag, never clears it, and sets it on a
   * database exactly when one of its children has no cover; on a record not
   * yet marked, exactly the databases with a coverless child become lists.
   */
  lemma ListsExactly(pages: map<Id, Page>, id: Id)
    requires ChildrenKnown(pages) && id in pages
    ensures var r := ListsMarked(pages)[id];
      && r == pages[id].(dbList := r.dbList)
      && (pages[id].dbList ==> r.dbList)
      && (!pages[id].dbList ==> (r.dbList <==> pages[id].kind == DatabaseKind && CoverlessChild(pages, pages[id].children)))
  {
  }

  /** Marking twice marks nothing more: the pass reads only covers and children, which it does not change. */
  lemma ListsMarkedIdempotent(pages: map<Id, Page>)
    requires ChildrenKnown(pages)
    ensures ChildrenKnown(ListsMarked(pages))
    ensures ListsMarked(ListsMarked(pages)) == ListsMarked(pages)
  {
    var once := ListsMarked(pages);
    forall id | id in pages
      ensures pages[id].kind == DatabaseKind && CoverlessChild(pages, pages[id].children)
        <==> once[id].kind == DatabaseKind && CoverlessChild(once, once[id].children)
    {
      SameCoversCoverless(pages, once, pages[id].children);
    }
  }

  /** Two tables that agree on every cover agree on whether a list of children has a coverless page. */
  lemma SameCoversCoverless(a: map<Id, Page>, b: map<Id, Page>, children: seq<Id>)
    requires a.Keys == b.Keys && forall x :: x in a ==> a[x].cover == b[x].cover
    requires forall k :: 0 <= k < |children| ==> children[k] in a
    ensures CoverlessChild(a, children) == CoverlessChild(b, children)
  {
    if CoverlessChild(a, children) {
      var k :| 0 <= k < |children| && a[children[k]].cover.None?;
      assert b[children[k]].cover.None?;
    }
    if CoverlessChild(b, children) {
      var k :| 0 <= k < |children| && b[children[k]].cover.None?;
      assert a[children[k]].cover.None?;
    }
  }

  /** The inner loop of `find_lists_in_dbs`: scans the children until one without a cover is found. */
  method FindCoverlessChild(pages: map<Id, Page>, children: seq<Id>) returns (found: bool)
    requires forall k :: 0 <= k < |children| ==> children[k] in pages
    ensures found == CoverlessChild(pages, children)
  {
    found := false;
    var k := 0;
    while k < |children|
      invariant 0 <= k <= |children|
      invariant forall j :: 0 <= j < k ==> pages[children[j]].cover.Some?
    {
      if pages[children[k]].cover.None? {
        found := true;
        break;
      }
      k := k + 1;
    }
  }

  /** `find_lists_in_dbs` */
  method FindListsInDbs(site: Site)
    requires Keyed(site.order, site.pages) && ChildrenKnown(site.pages)
    modifies site`pages
    ensures site.pages == ListsMarked(old(site.pages))
  {
    ghost var start := site.pages;
    ghost var target := ListsMarked(start);
    OverlayEnds(site.order, start, target);
    var i := 0;
    while i < |site.order|
      invariant 0 <= i <= |site.order|
      invariant site.pages == Overlay(start, target, site.order[..i])
    {
      MarkNext(site, start, target, i);
      i := i + 1;
    }
    OverlayEnds(site.order, start, target);
  }

  /** The loop body of `find_lists_in_dbs`: the next record in table order is marked. */
  method MarkNext(site: Site, ghost start: map<Id, Page>, ghost target: map<Id, Page>, i: nat)
    requires Keyed(site.order, start) && ChildrenKnown(start) && target == ListsMarked(start)
    requires i < |site.order|
    requires site.pages == Overlay(start, target, site.order[..i])
    modifies site`pages
    ensures site.pages == Overlay(start, target, site.order[..i + 1])
  {
    var id := site.order[i];
    OverlayStep(site.order, start, target, i);
    MarkStep(start, site.pages, id);
    MarkDatabase(site, id);
  }

  /** One record of `find_lists_in_dbs`: a database with a coverless child is marked as a list. */
  method MarkDatabase(site: Site, id: Id)
    requires id in site.pages
    requires forall k :: 0 <= k < |site.pages[id].children| ==> site.pages[id].children[k] in site.pages
    modifies site`pages
    ensures site.pages == old(site.pages)[id :=
      if old(site.pages)[id].kind == DatabaseKind && CoverlessChild(old(site.pages), old(site.pages)[id].children)
      then old(site.pages)[id].(dbList := true) else old(site.pages)[id]]
  {
    if site.pages[id].kind == DatabaseKind {
      var found := FindCoverlessChild(site.pages, site.pages[id].children);
      if found {
        site.pages := site.pages[id := site.pages[id].(dbList := true)];
      }
    }
  }

  /** Part way through the pass, the live table still gives each unvisited database its final mark. */
  lemma MarkStep(start: map<Id, Page>, live: map<Id, Page>, id: Id)
    requires ChildrenKnown(start) && id in start
    requires live.Keys == start.Keys && live[id] == start[id]
    requires forall x :: x in start ==> live[x].cover == start[x].cover
    ensures forall k :: 0 <= k < |live[id].children| ==> live[id].children[k] in live
    ensures ListsMarked(start)[id]
      == if live[id].kind == DatabaseKind && CoverlessChild(live, live[id].children)
         then live[id].(dbList := true) else live[id]
  {
    SameCoversCoverless(start, live, start[id].children);
  }

  // ---------------------------------------------------------------------------
  // parse_family_line(s)

  /** Each parent is in the table and comes before its child in table order. */
  ghost predicate ParentsEarlier(order: seq<Id>, pages: map<Id, Page>) {
    && Keyed(order, pages)
    && forall id :: id in pages && pages[id].parent.Some? ==>
         pages[id].parent.value in pages && IndexOf(order, pages[id].parent.value) < IndexOf(order, id)
  }

  /**
   * `parse_family_line(page_id, family_line)`: while the page has a parent,
   * the parent is put at the front of the line and the walk goes on from it.
   */
  function FamilyLine(order: seq<Id>, pages: map<Id, Page>, id: Id, line: seq<Id>): seq<Id>
    requires ParentsEarlier(order, pages) && id in pages
    decreases IndexOf(order, id)
  {
    if pages[id].parent.Some? then
      var par := pages[id].parent.value;
      FamilyLine(order, pages, par, [par] + line)
    else line
  }

  /** A page's ancestors, the root first and its parent last. */
  function Ancestors(order: seq<Id>, pages: map<Id, Page>, id: Id): seq<Id>
    requires ParentsEarlier(order, pages) && id in pages
    decreases IndexOf(order, id)
  {
    if pages[id].parent.Some? then
      var par := pages[id].parent.value;
      Ancestors(order, pages, par) + [par]
    else []
  }

  /** The walk puts the ancestors in front of the line it is given. */
  lemma {:induction false} FamilyLineIsAncestors(order: seq<Id>, pages: map<Id, Page>, id: Id, line: seq<Id>)
    requires ParentsEarlier(order, pages) && id in pages
    ensures FamilyLine(order, pages, id, line) == Ancestors(order, pages, id) + line
    decreases IndexOf(order, id)
  {
    if pages[id].parent.Some? {
      var par := pages[id].parent.value;
      FamilyLineIsAncestors(order, pages, par, [par] + line);
      ConcatAssoc(Ancestors(order, pages, par), [par], line);
    }
  }

  /**
   * The ancestors form a chain from a root down to the page's parent: the
   * first has no parent, each next one is a child of the one before, the
   * last is the parent, and the page itself is not among them. A root's line
   * is empty.
   */
  lemma {:induction false} AncestorsChain(order: seq<Id>, pages: map<Id, Page>, id: Id)
    requires ParentsEarlier(order, pages) && id in pages
    ensures var r := Ancestors(order, pages, id);
      && (r == [] <==> pages[id].parent.None?)
      && (forall k :: 0 <= k < |r| ==> r[k] in pages && IndexOf(order, r[k]) < IndexOf(order, id))
      && (r != [] ==> pages[r[0]].parent.None? && Some(r[|r| - 1]) == pages[id].parent)
      && (forall k :: 0 <= k < |r| - 1 ==> pages[r[k + 1]].parent == Some(r[k]))
      && id !in r
    decreases IndexOf(order, id)
  {
    if pages[id].parent.Some? {
      var par := pages[id].parent.value;
      AncestorsChain(order, pages, par);
      var up := Ancestors(order, pages, par);
      var r := up + [par];
      forall k | 0 <= k < |r| - 1 ensures pages[r[k + 1]].parent == Some(r[k]) {
        if k + 1 == |up| {
          assert r[k] == up[|up| - 1] && r[k + 1] == par;
        } else {
          assert r[k] == up[k] && r[k + 1] == up[k + 1];
        }
      }
      assert up != [] ==> r[0] == up[0];
    }
  }

  /** The line depends only on the parent links. */
  lemma {:induction false} FamilyLineSameParents(order: seq<Id>, a: map<Id, Page>, b: map<Id, Page>, id: Id, line: seq<Id>)
    requires ParentsEarlier(order, a) && id in a
    requires a.Keys == b.Keys && forall x :: x in a ==> a[x].parent == b[x].parent
    ensures ParentsEarlier(order, b)
    ensures FamilyLine(order, a, id, line) == FamilyLine(order, b, id, line)
    decreases IndexOf(order, id)
  {
    if a[id].parent.Some? {
      var par := a[id].parent.value;
      FamilyLineSameParents(order, a, b, par, [par] + line);
    }
  }

  /** The table after `parse_family_lines`: every page's family line is its ancestors. */
  function WithFamilyLines(order: seq<Id>, pages: map<Id, Page>): (r: map<Id, Page>)
    requires ParentsEarlier(order, pages)
    ensures r.Keys == pages.Keys
  {
    map id | id in pages :: pages[id].(familyLine := Ancestors(order, pages, id))
  }

  /** `parse_family_lines` */
  method ParseFamilyLines(site: Site)
    requires ParentsEarlier(site.order, site.pages)
    modifies site`pages
    ensures site.pages == WithFamilyLines(site.order, old(site.pages))
  {
    ghost var start := site.pages;
    ghost var target := WithFamilyLines(site.order, start);
    OverlayEnds(site.order, start, target);
    var i := 0;
    while i < |site.order|
      invariant 0 <= i <= |site.order|
      invariant site.pages == Overlay(start, target, site.order[..i])
    {
      LineNext(site, start, target, i);
      i := i + 1;
    }
    OverlayEnds(site.order, start, target);
  }

  /** The loop body of `parse_family_lines`: the next record in table order gets its family line. */
  method LineNext(site: Site, ghost start: map<Id, Page>, ghost target: map<Id, Page>, i: nat)
    requires ParentsEarlier(site.order, start) && target == WithFamilyLines(site.order, start)
    requires i < |site.order|
    requires site.pages == Overlay(start, target, site.order[..i])
    modifies site`pages
    ensures site.pages == Overlay(start, target, site.order[..i + 1])
  {
    var id := site.order[i];
    OverlayStep(site.order, start, target, i);
    LineStep(site.order, start, site.pages, id);
    SetFamilyLine(site, id);
  }

  /** One record of `parse_family_lines`. */
  method SetFamilyLine(site: Site, id: Id)
    requires ParentsEarlier(site.order, site.pages) && id in site.pages
    modifies site`pages
    ensures site.pages == old(site.pages)[id := old(site.pages)[id].(familyLine := FamilyLine(site.order, old(site.pages), id, []))]
  {
    site.pages := site.pages[id := site.pages[id].(familyLine := FamilyLine(site.order, site.pages, id, []))];
  }

  /** Part way through the pass, the live table still gives each unvisited page its final line. */
  lemma LineStep(order: seq<Id>, start: map<Id, Page>, live: map<Id, Page>, id: Id)
    requires ParentsEarlier(order, start) && id in start
    requires live.Keys == start.Keys && live[id] == start[id]
    requires forall x :: x in start ==> live[x].parent == start[x].parent
    ensures ParentsEarlier(order, live)
    ensures WithFamilyLines(order, start)[id] == live[id].(familyLine := FamilyLine(order, live, id, []))
  {
    FamilyLineSameParents(order, start, live, id, []);
    FamilyLineIsAncestors(order, start, id, []);
    assert Ancestors(order, start, id) + [] == Ancestors(order, start, id);
  }
}
