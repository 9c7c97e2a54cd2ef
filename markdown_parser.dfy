/**
 * The markdown converter: each block of a page becomes markdown, nested blocks
 * indented by tabs, tables laid out as markdown tables, page references as
 * links; the page's markdown is then regrouped line by line so that list items
 * of one kind stay together.
 */
module MarkdownParser {
  import opened Optional
  import opened RawNotion
  import opened RichText
  import opened PyStr
  import opened Externals
  import opened Formatters
  import opened SiteModel
  import opened MarkdownGrouping

  // ---------------------------------------------------------------------
  // What a page-reference block shows, and the file list of a page
  // ---------------------------------------------------------------------

  /** What a reference block reads of the page it points to. */
  datatype Ref = Ref(title: Option<string>, url: Option<string>, emoji: Option<string>, icon: Option<string>)

  function RefOf(p: Page): Ref {
    Ref(p.title, p.url, p.emoji, p.icon)
  }

  /** The reference view of the whole page table. */
  function Refs(pages: map<Id, Page>): (refs: map<Id, Ref>)
    ensures refs.Keys == pages.Keys
  {
    map id | id in pages :: RefOf(pages[id])
  }

  /** The page table with `fs` appended to the files of page `id`. */
  function AddFiles(pages: map<Id, Page>, id: Id, fs: seq<string>): (r: map<Id, Page>)
    requires id in pages
    ensures r.Keys == pages.Keys
  {
    pages[id := pages[id].(files := pages[id].files + fs)]
  }

  /** Appending files changes no page's title, URL, emoji or icon. */
  lemma RefsAddFiles(pages: map<Id, Page>, id: Id, fs: seq<string>)
    requires id in pages
    ensures Refs(AddFiles(pages, id, fs)) == Refs(pages)
  {
    var r := AddFiles(pages, id, fs);
    forall q | q in pages ensures Refs(r)[q] == Refs(pages)[q] {
      assert RefOf(r[q]) == RefOf(pages[q]);
    }
  }

  /** Two appends are one append of both lists, in order. */
  lemma AddFilesTwice(pages: map<Id, Page>, id: Id, a: seq<string>, b: seq<string>)
    requires id in pages
    ensures AddFiles(AddFiles(pages, id, a), id, b) == AddFiles(pages, id, a + b)
  {
    assert pages[id].files + a + b == pages[id].files + (a + b);
  }

  lemma AddNoFiles(pages: map<Id, Page>, id: Id)
    requires id in pages
    ensures AddFiles(pages, id, []) == pages
  {
    assert pages[id].files + [] == pages[id].files;
  }

  // ---------------------------------------------------------------------
  // `information_collector`
  // ---------------------------------------------------------------------

  /**
   * `information_collector`: the payload's information, and the payload's
   * `url`, `external` and `file` URLs appended, in that order, to the files of
   * the page being converted, unless downloads are off for the block.
   */
  method InformationCollector(site: Site, payload: Payload, dontDownload: bool, pageId: Id) returns (info: Info)
    requires pageId in site.pages && PayloadOk(payload)
    modifies site`pages
    ensures info == CollectInfo(payload)
    ensures site.pages == AddFiles(old(site.pages), pageId, PayloadFiles(payload, dontDownload))
  {
    var registered: seq<string> := [];
    var text: Option<string> := None;
    if payload.text.Some? {
      var t := RichtextConvertor(payload.text.value);
      text := Some(t);
    }
    if payload.expression.Some? {
      text := payload.expression;
    }
    var url: Option<string> := None;
    if payload.url.Some? {
      url := payload.url;
      if !dontDownload {
        registered := registered + [payload.url.value];
      }
    }
    assert registered == if dontDownload then [] else Opt(payload.url);
    var caption: Option<string> := None;
    if payload.caption.Some? {
      var c := RichtextConvertor(payload.caption.value);
      caption := Some(c);
    }
    if payload.external.Some? {
      url := payload.external;
      if !dontDownload {
        registered := registered + [payload.external.value];
      }
    }
    assert registered == if dontDownload then [] else Opt(payload.url) + Opt(payload.external);
    if payload.file.Some? {
      url := payload.file;
      if !dontDownload {
        registered := registered + [payload.file.value];
      }
    }
    assert registered == PayloadFiles(payload, dontDownload);
    info := Info(text, payload.icon, payload.checked, url, caption, payload.language, payload.cells);
    site.pages := AddFiles(site.pages, pageId, registered);
  }

  // ---------------------------------------------------------------------
  // The markdown of one block
  // ---------------------------------------------------------------------

  /** The kinds that stand for a page: a sub-page, a sub-database, or a database entry. */
  predicate IsRefKind(kind: BlockKind) {
    kind.ChildPage? || kind.ChildDatabase? || kind.DbEntry?
  }

  /** A paragraph without children and with an empty rich text. */
  predicate IsBlank(b: Block) {
    b.kind.Paragraph? && !b.hasChildren && b.payload.text == Some([])
  }

  /** Downloads are off for a block whose payload says so, and for every embed and video. */
  predicate DontDownload(b: Block) {
    b.payload.dontDownload || b.kind.Embed? || b.kind.Video?
  }

  /** Python's rendering of an optional string inside an f-string. */
  function Shown(o: Option<string>): string {
    if o.Some? then o.value else "None"
  }

  function MiniIcon(icon: string): string {
    "<span class=\"miniicon\"> <img src=\"" + icon + "\"></span> "
  }

  /** The link a page-reference block becomes: emoji, else icon, else nothing, before the title. */
  function RefLink(r: Ref): string {
    var tail := Shown(r.title) + "](" + Shown(r.url) + ")\n\n";
    if Truthy(r.emoji) then "[" + r.emoji.value + " " + tail
    else if Truthy(r.icon) then "[" + MiniIcon(r.icon.value) + tail
    else "[" + tail
  }

  /** What the block's own formatter reads is there. */
  predicate OwnOk(b: Block) {
    && PayloadOk(b.payload)
    && (Mapped(b.kind) ==> Ready(b.kind, CollectInfo(b.payload)))
  }

  /** A table's child is a row whose cells can be rendered. */
  predicate RowOk(c: Block) {
    c.kind.TableRow? && PayloadOk(c.payload) && c.payload.cells.Some? && CellsOk(c.payload.cells.value)
  }

  predicate RowsOk(rows: seq<Block>) {
    forall i :: 0 <= i < |rows| ==> RowOk(rows[i])
  }

  /**
   * What `block_convertor` demands of a block tree: no row outside a table,
   * a paragraph without children has a rich text, a referenced page is in the
   * table, and each formatter finds what it reads.
   */
  predicate BlockOk(keys: set<Id>, b: Block)
    decreases b
  {
    && !b.kind.TableRow?
    && (b.kind.Paragraph? && !b.hasChildren ==> b.payload.text.Some?)
    && (IsRefKind(b.kind) ==> b.id in keys)
    && (!IsBlank(b) && !IsRefKind(b.kind) ==>
          && OwnOk(b)
          && (b.hasChildren && b.kind.Table? ==> RowsOk(b.children))
          && (b.hasChildren && !b.kind.Table? ==>
                forall i :: 0 <= i < |b.children| ==> BlockOk(keys, b.children[i])))
  }

  /** The block's own fragment at `depth`, before its children. */
  function OwnMd(b: Block, depth: nat, env: Env): string
    requires !b.kind.TableRow? && OwnOk(b)
  {
    var own :=
      if Mapped(b.kind) then Format(b.kind, CollectInfo(b.payload), env) + "\n\n"
      else "[" + KindName(b.kind) + " is not supported]\n\n";
    if b.kind.CodeBlock? then CodeIndent(own, depth) else own
  }

  /** The rendered cells of each row. */
  function TableRows(rows: seq<Block>): (r: seq<seq<string>>)
    requires RowsOk(rows)
    ensures |r| == |rows|
  {
    if rows == [] then []
    else TableRows(rows[..|rows| - 1]) + [RowCells(rows[|rows| - 1].payload.cells.value)]
  }

  /** The markdown of a block at nesting depth `depth`. */
  function BlockMd(refs: map<Id, Ref>, b: Block, depth: nat, env: Env): string
    requires BlockOk(refs.Keys, b)
    decreases b, |b.children| + 1
  {
    if IsBlank(b) then "<br/>\n\n"
    else if IsRefKind(b.kind) then RefLink(refs[b.id])
    else if !b.hasChildren then OwnMd(b, depth, env)
    else if b.kind.Table? then
      (if b.children == [] then OwnMd(b, depth, env) else TableText(TableRows(b.children))) + "\n"
    else OwnMd(b, depth, env) + ChildrenMd(refs, b, depth + 1, 0, env)
  }

  /** The children of `parent` from index `i` on, each at `depth` and prefixed by `depth` tabs. */
  function ChildrenMd(refs: map<Id, Ref>, parent: Block, depth: nat, i: nat, env: Env): string
    requires i <= |parent.children|
    requires forall k :: 0 <= k < |parent.children| ==> BlockOk(refs.Keys, parent.children[k])
    decreases parent, |parent.children| - i
  {
    if i == |parent.children| then ""
    else Chars('\t', depth) + BlockMd(refs, parent.children[i], depth, env) + ChildrenMd(refs, parent, depth, i + 1, env)
  }

  /** The URLs a block's own payload registers. */
  function OwnFiles(b: Block): seq<string> {
    if Mapped(b.kind) then PayloadFiles(b.payload, DontDownload(b)) else []
  }

  /** The URLs the rows of a table register, row by row. */
  function RowsFiles(rows: seq<Block>): seq<string> {
    if rows == [] then []
    else RowsFiles(rows[..|rows| - 1]) + PayloadFiles(rows[|rows| - 1].payload, rows[|rows| - 1].payload.dontDownload)
  }

  /** The URLs converting a block appends to the page's files, in order. */
  function BlockFiles(b: Block): seq<string>
    decreases b, |b.children| + 1
  {
    if IsBlank(b) || IsRefKind(b.kind) then []
    else if !b.hasChildren then OwnFiles(b)
    else if b.kind.Table? then OwnFiles(b) + RowsFiles(b.children)
    else OwnFiles(b) + ChildrenFiles(b, 0)
  }

  function ChildrenFiles(parent: Block, i: nat): seq<string>
    requires i <= |parent.children|
    decreases parent, |parent.children| - i
  {
    if i == |parent.children| then []
    else BlockFiles(parent.children[i]) + ChildrenFiles(parent, i + 1)
  }

  // ---------------------------------------------------------------------
  // `block_convertor` and `blocks_convertor`
  // ---------------------------------------------------------------------

  /**
   * `block_convertor`: the block's markdown, computed against the page table
   * as it was before the call, with the URLs the block registers appended to
   * the files of page `pageId`.
   */
  method BlockConvertor(site: Site, b: Block, depth: nat, pageId: Id, env: Env) returns (md: string)
    requires pageId in site.pages && BlockOk(site.pages.Keys, b)
    modifies site`pages
    ensures md == BlockMd(Refs(old(site.pages)), b, depth, env)
    ensures site.pages == AddFiles(old(site.pages), pageId, BlockFiles(b))
    decreases b, 1
  {
    ghost var start := site.pages;
    ghost var refs := Refs(start);
    if IsBlank(b) {
      md := "<br/>\n\n";
      AddNoFiles(start, pageId);
    } else if IsRefKind(b.kind) {
      md := RefConvertor(site, b);
      AddNoFiles(start, pageId);
    } else {
      md := OwnConvertor(site, b, depth, pageId, env);
      RefsAddFiles(start, pageId, OwnFiles(b));
      if b.hasChildren {
        if b.kind.Table? {
          md := TableConvertor(site, b, md, pageId);
          AddFilesTwice(start, pageId, OwnFiles(b), RowsFiles(b.children));
        } else {
          md := ChildrenConvertor(site, b, depth + 1, md, pageId, env);
          AddFilesTwice(start, pageId, OwnFiles(b), ChildrenFiles(b, 0));
        }
      }
    }
  }

  /** The page-reference branch of `block_convertor`: a link to the referenced page. */
  method RefConvertor(site: Site, b: Block) returns (md: string)
    requires b.id in site.pages
    ensures md == RefLink(Refs(site.pages)[b.id])
  {
    var r := RefOf(site.pages[b.id]);
    md := Shown(r.title) + "](" + Shown(r.url) + ")\n\n";
    if Truthy(r.emoji) {
      md := "[" + r.emoji.value + " " + md;
    } else if Truthy(r.icon) {
      md := "[" + MiniIcon(r.icon.value) + md;
    } else {
      md := "[" + md;
    }
  }

  /**
   * The block's own fragment in `block_convertor`: the formatter of a mapped
   * kind, which registers the payload's URLs, or the "not supported" line; a
   * code block's lines are then indented to `depth`.
   */
  method OwnConvertor(site: Site, b: Block, depth: nat, pageId: Id, env: Env) returns (md: string)
    requires pageId in site.pages && !b.kind.TableRow? && OwnOk(b)
    modifies site`pages
    ensures md == OwnMd(b, depth, env)
    ensures site.pages == AddFiles(old(site.pages), pageId, OwnFiles(b))
  {
    if Mapped(b.kind) {
      var info := InformationCollector(site, b.payload, DontDownload(b), pageId);
      md := Format(b.kind, info, env) + "\n\n";
    } else {
      md := "[" + KindName(b.kind) + " is not supported]\n\n";
      AddNoFiles(site.pages, pageId);
    }
    if b.kind.CodeBlock? {
      md := Replace(RStrip(md, {'\n'}), "\n", "\n" + Chars('\t', depth));
      md := md + "\n\n";
    }
  }

  /**
   * The table branch of `block_convertor`: each row's cells are collected, then
   * the header row, the separator and the later rows replace the block's own
   * fragment, followed by a blank line.
   */
  method TableConvertor(site: Site, b: Block, own: string, pageId: Id) returns (md: string)
    requires pageId in site.pages && b.kind.Table? && RowsOk(b.children)
    modifies site`pages
    ensures md == (if b.children == [] then own else TableText(TableRows(b.children))) + "\n"
    ensures site.pages == AddFiles(old(site.pages), pageId, RowsFiles(b.children))
  {
    var rows := CollectRows(site, b.children, pageId);
    md := TableMarkdown(rows, own);
  }

  /** The rows of a table, collected one by one, each registering its payload's URLs. */
  method CollectRows(site: Site, children: seq<Block>, pageId: Id) returns (rows: seq<seq<string>>)
    requires pageId in site.pages && RowsOk(children)
    modifies site`pages
    ensures rows == TableRows(children)
    ensures site.pages == AddFiles(old(site.pages), pageId, RowsFiles(children))
  {
    ghost var start := site.pages;
    rows := [];
    var k := 0;
    AddNoFiles(start, pageId);
    while k < |children|
      invariant 0 <= k <= |children|
      invariant rows == TableRows(children[..k])
      invariant site.pages == AddFiles(start, pageId, RowsFiles(children[..k]))
    {
      var row := children[k];
      var info := InformationCollector(site, row.payload, row.payload.dontDownload, pageId);
      var cells := RowConvertor(info.cells.value);
      rows := rows + [cells];
      assert children[..k + 1][..k] == children[..k];
      AddFilesTwice(start, pageId, RowsFiles(children[..k]), PayloadFiles(row.payload, row.payload.dontDownload));
      k := k + 1;
    }
    assert k == |children|;
    assert children[..k] == children;
  }

  /** The markdown table of the collected rows; with no row, the block's own fragment stays. */
  method TableMarkdown(rows: seq<seq<string>>, own: string) returns (md: string)
    ensures md == (if rows == [] then own else TableText(rows)) + "\n"
  {
    md := own;
    var j := 0;
    while j < |rows|
      invariant 0 <= j <= |rows|
      invariant j == 0 ==> md == own
      invariant j > 0 ==> md == TableText(rows[..j])
    {
      if j == 0 {
        md := TableLine(rows[0]) + TableLine(Dashes(|rows[0]|));
        assert rows[..1][1..] == [];
      } else {
        TableTextStep(rows, j);
        md := md + TableLine(rows[j]);
      }
      j := j + 1;
    }
    assert j == |rows|;
    assert rows[..j] == rows;
    md := md + "\n";
  }

  /** Adding a row to a table adds its line at the end. */
  lemma TableTextStep(rows: seq<seq<string>>, j: nat)
    requires 0 < j < |rows|
    ensures TableText(rows[..j + 1]) == TableText(rows[..j]) + TableLine(rows[j])
  {
    var later := rows[..j + 1][1..];
    assert later[..|later| - 1] == rows[..j][1..];
    assert later[|later| - 1] == rows[j];
  }

  /** The children branch of `block_convertor`: each child at `depth`, after `depth` tabs, in order. */
  method ChildrenConvertor(site: Site, b: Block, depth: nat, own: string, pageId: Id, env: Env) returns (md: string)
    requires pageId in site.pages
    requires forall i :: 0 <= i < |b.children| ==> BlockOk(site.pages.Keys, b.children[i])
    modifies site`pages
    ensures md == own + ChildrenMd(Refs(old(site.pages)), b, depth, 0, env)
    ensures site.pages == AddFiles(old(site.pages), pageId, ChildrenFiles(b, 0))
    decreases b, 0
  {
    ghost var start := site.pages;
    ghost var refs := Refs(start);
    ghost var done: seq<string> := [];
    md := own;
    var k := 0;
    AddNoFiles(start, pageId);
    while k < |b.children|
      invariant 0 <= k <= |b.children|
      invariant site.pages == AddFiles(start, pageId, done)
      invariant md + ChildrenMd(refs, b, depth, k, env) == own + ChildrenMd(refs, b, depth, 0, env)
      invariant done + ChildrenFiles(b, k) == ChildrenFiles(b, 0)
    {
      RefsAddFiles(start, pageId, done);
      var child := BlockConvertor(site, b.children[k], depth, pageId, env);
      ChildStep(refs, b, depth, k, env, md, own);
      ChildFilesStep(b, k, done);
      md := md + Chars('\t', depth) + child;
      AddFilesTwice(start, pageId, done, BlockFiles(b.children[k]));
      done := done + BlockFiles(b.children[k]);
      k := k + 1;
    }
    assert k == |b.children|;
    assert done + [] == done;
    assert md + "" == md;
  }

  /** One step of the children loop: the text so far grows by child `k`'s, after its tabs. */
  lemma ChildStep(refs: map<Id, Ref>, b: Block, depth: nat, k: nat, env: Env, md: string, own: string)
    requires k < |b.children|
    requires forall i :: 0 <= i < |b.children| ==> BlockOk(refs.Keys, b.children[i])
    requires md + ChildrenMd(refs, b, depth, k, env) == own + ChildrenMd(refs, b, depth, 0, env)
    ensures md + Chars('\t', depth) + BlockMd(refs, b.children[k], depth, env) + ChildrenMd(refs, b, depth, k + 1, env)
      == own + ChildrenMd(refs, b, depth, 0, env)
  {
    assert ChildrenMd(refs, b, depth, k, env)
      == Chars('\t', depth) + BlockMd(refs, b.children[k], depth, env) + ChildrenMd(refs, b, depth, k + 1, env);
    Regroup3(md, Chars('\t', depth), BlockMd(refs, b.children[k], depth, env), ChildrenMd(refs, b, depth, k + 1, env));
  }

  lemma Regroup3(w: string, x: string, y: string, z: string)
    ensures w + (x + y + z) == w + x + y + z
  {
  }

  /** One step of the children loop: the files so far grow by child `k`'s. */
  lemma ChildFilesStep(b: Block, k: nat, done: seq<string>)
    requires k < |b.children|
    requires done + ChildrenFiles(b, k) == ChildrenFiles(b, 0)
    ensures done + BlockFiles(b.children[k]) + ChildrenFiles(b, k + 1) == ChildrenFiles(b, 0)
  {
    assert done + ChildrenFiles(b, k) == (done + BlockFiles(b.children[k])) + ChildrenFiles(b, k + 1);
  }

  // ---------------------------------------------------------------------
  // `blocks_convertor`
  // ---------------------------------------------------------------------

  predicate BlocksOk(keys: set<Id>, blocks: seq<Block>) {
    forall i :: 0 <= i < |blocks| ==> BlockOk(keys, blocks[i])
  }

  /** The markdown of each top-level block, at depth 0. */
  function BlockMds(refs: map<Id, Ref>, blocks: seq<Block>, env: Env): (r: seq<string>)
    requires BlocksOk(refs.Keys, blocks)
    ensures |r| == |blocks|
  {
    if blocks == [] then []
    else BlockMds(refs, blocks[..|blocks| - 1], env) + [BlockMd(refs, blocks[|blocks| - 1], 0, env)]
  }

  /** The URLs converting the top-level blocks registers, block by block. */
  function BlocksFiles(blocks: seq<Block>): seq<string> {
    if blocks == [] then []
    else BlocksFiles(blocks[..|blocks| - 1]) + BlockFiles(blocks[|blocks| - 1])
  }

  /** The markdown of a page's blocks: each block's, concatenated in order. */
  function BlocksMd(refs: map<Id, Ref>, blocks: seq<Block>, env: Env): string
    requires BlocksOk(refs.Keys, blocks)
  {
    Join(BlockMds(refs, blocks, env), "")
  }

  /** `blocks_convertor`: each block converted at depth 0, the results joined without separator. */
  method BlocksConvertor(site: Site, blocks: seq<Block>, pageId: Id, env: Env) returns (md: string)
    requires pageId in site.pages && BlocksOk(site.pages.Keys, blocks)
    modifies site`pages
    ensures md == BlocksMd(Refs(old(site.pages)), blocks, env)
    ensures site.pages == AddFiles(old(site.pages), pageId, BlocksFiles(blocks))
  {
    ghost var start := site.pages;
    ghost var refs := Refs(start);
    var results: seq<string> := [];
    var i := 0;
    AddNoFiles(start, pageId);
    while i < |blocks|
      invariant 0 <= i <= |blocks|
      invariant site.pages == AddFiles(start, pageId, BlocksFiles(blocks[..i]))
      invariant results == BlockMds(refs, blocks[..i], env)
    {
      RefsAddFiles(start, pageId, BlocksFiles(blocks[..i]));
      var blockMd := BlockConvertor(site, blocks[i], 0, pageId, env);
      results := results + [blockMd];
      assert blocks[..i + 1][..i] == blocks[..i];
      AddFilesTwice(start, pageId, BlocksFiles(blocks[..i]), BlockFiles(blocks[i]));
      i := i + 1;
    }
    assert i == |blocks|;
    assert blocks[..i] == blocks;
    md := Join(results, "");
  }

  // ---------------------------------------------------------------------
  // What the block markdown looks like
  // ---------------------------------------------------------------------

  lemma TableTextEndsLine(rows: seq<seq<string>>)
    requires |rows| >= 1
    ensures EndsWith(TableText(rows), "\n")
  {
    var later := rows[1..];
    if later == [] {
      EndsWithAppend(TableLine(rows[0]), TableLine(Dashes(|rows[0]|)), "\n");
    } else {
      var init := ConcatMap(later[..|later| - 1], TableLine);
      EndsWithAppend(init, TableLine(later[|later| - 1]), "\n");
      EndsWithAppend(TableLine(rows[0]) + TableLine(Dashes(|rows[0]|)), ConcatMap(later, TableLine), "\n");
    }
  }

  lemma OwnMdEndsBlankLine(b: Block, depth: nat, env: Env)
    requires !b.kind.TableRow? && OwnOk(b)
    ensures EndsWith(OwnMd(b, depth, env), "\n\n")
  {
    var own :=
      if Mapped(b.kind) then Format(b.kind, CollectInfo(b.payload), env) + "\n\n"
      else "[" + KindName(b.kind) + " is not supported]\n\n";
    if Mapped(b.kind) {
      EndsWithAppend(Format(b.kind, CollectInfo(b.payload), env), "\n\n", "\n\n");
    } else {
      EndsWithAppend("[" + KindName(b.kind) + " is not supported]", "\n\n", "\n\n");
    }
    if b.kind.CodeBlock? {
      CodeIndentShape(own, depth);
    }
  }

  lemma RefLinkEndsBlankLine(r: Ref)
    ensures EndsWith(RefLink(r), "\n\n")
  {
    var tail := Shown(r.title) + "](" + Shown(r.url) + ")\n\n";
    EndsWithAppend(Shown(r.title) + "](" + Shown(r.url) + ")", "\n\n", "\n\n");
    if Truthy(r.emoji) {
      EndsWithAppend("[" + r.emoji.value + " ", tail, "\n\n");
    } else if Truthy(r.icon) {
      EndsWithAppend("[" + MiniIcon(r.icon.value), tail, "\n\n");
    } else {
      EndsWithAppend("[", tail, "\n\n");
    }
  }

  lemma TableBlockEndsBlankLine(b: Block, depth: nat, env: Env)
    requires b.kind.Table? && OwnOk(b) && RowsOk(b.children)
    ensures EndsWith((if b.children == [] then OwnMd(b, depth, env) else TableText(TableRows(b.children))) + "\n", "\n\n")
  {
    var body := if b.children == [] then OwnMd(b, depth, env) else TableText(TableRows(b.children));
    if b.children == [] {
      OwnMdEndsBlankLine(b, depth, env);
    } else {
      TableTextEndsLine(TableRows(b.children));
    }
    NewlineAfterLine(body);
  }

  lemma NewlineAfterLine(s: string)
    requires EndsWith(s, "\n")
    ensures EndsWith(s + "\n", "\n\n")
  {
    var t := s + "\n";
    assert t[|t| - 2..] == [s[|s| - 1], '\n'];
  }

  /**
   * Every block's markdown ends in a blank line, so the blocks of a page, and
   * the children of a block, are separate paragraphs.
   */
  lemma {:induction false} BlockMdEndsBlankLine(refs: map<Id, Ref>, b: Block, depth: nat, env: Env)
    requires BlockOk(refs.Keys, b)
    ensures EndsWith(BlockMd(refs, b, depth, env), "\n\n")
    decreases b, |b.children| + 1
  {
    var md := BlockMd(refs, b, depth, env);
    if IsBlank(b) {
      assert md == "<br/>\n\n";
    } else if IsRefKind(b.kind) {
      assert md == RefLink(refs[b.id]);
      RefLinkEndsBlankLine(refs[b.id]);
    } else if !b.hasChildren {
      assert md == OwnMd(b, depth, env);
      OwnMdEndsBlankLine(b, depth, env);
    } else if b.kind.Table? {
      assert md == (if b.children == [] then OwnMd(b, depth, env) else TableText(TableRows(b.children))) + "\n";
      TableBlockEndsBlankLine(b, depth, env);
    } else {
      assert md == OwnMd(b, depth, env) + ChildrenMd(refs, b, depth + 1, 0, env);
      OwnMdEndsBlankLine(b, depth, env);
      ChildrenMdEndsBlankLine(refs, b, depth + 1, 0, env);
      var rest := ChildrenMd(refs, b, depth + 1, 0, env);
      if rest == "" {
        assert md == OwnMd(b, depth, env);
      } else {
        EndsWithAppend(OwnMd(b, depth, env), rest, "\n\n");
      }
    }
  }

  lemma {:induction false} ChildrenMdEndsBlankLine(refs: map<Id, Ref>, parent: Block, depth: nat, i: nat, env: Env)
    requires i <= |parent.children|
    requires forall k :: 0 <= k < |parent.children| ==> BlockOk(refs.Keys, parent.children[k])
    ensures var md := ChildrenMd(refs, parent, depth, i, env); md == "" || EndsWith(md, "\n\n")
    decreases parent, |parent.children| - i
  {
    if i < |parent.children| {
      var child := BlockMd(refs, parent.children[i], depth, env);
      var rest := ChildrenMd(refs, parent, depth, i + 1, env);
      BlockMdEndsBlankLine(refs, parent.children[i], depth, env);
      ChildrenMdEndsBlankLine(refs, parent, depth, i + 1, env);
      if rest == "" {
        EndsWithAppend(Chars('\t', depth), child, "\n\n");
        assert Chars('\t', depth) + child + rest == Chars('\t', depth) + child;
      } else {
        EndsWithAppend(Chars('\t', depth) + child, rest, "\n\n");
      }
    }
  }

  /**
   * A code block without children becomes its fenced code with every inner
   * newline followed by `depth` tabs, ending in exactly one blank line.
   */
  lemma CodeBlockIndented(refs: map<Id, Ref>, b: Block, depth: nat, env: Env)
    requires BlockOk(refs.Keys, b) && b.kind.CodeBlock? && !b.hasChildren
    ensures var md := BlockMd(refs, b, depth, env);
      && EndsWith(md, "\n\n") && (|md| == 2 || md[|md| - 3] != '\n')
      && TabbedNewlines(md, |md| - 2, depth)
  {
    CodeIndentShape(Format(b.kind, CollectInfo(b.payload), env) + "\n\n", depth);
  }

  /** Embeds and videos never register their URL for download, whatever the payload says. */
  lemma EmbedsNotDownloaded(b: Block)
    requires (b.kind.Embed? || b.kind.Video?) && !b.hasChildren
    ensures BlockFiles(b) == []
  {
  }

  /** A page reference registers nothing and ignores its children; a blank paragraph registers nothing. */
  lemma ReferencesNotDownloaded(b: Block)
    requires IsRefKind(b.kind) || IsBlank(b)
    ensures BlockFiles(b) == []
  {
  }

  /** A page's markdown is its first blocks' markdown followed by the last block's. */
  lemma BlocksMdSnoc(refs: map<Id, Ref>, blocks: seq<Block>, env: Env)
    requires BlocksOk(refs.Keys, blocks) && blocks != []
    ensures BlocksMd(refs, blocks, env)
      == BlocksMd(refs, blocks[..|blocks| - 1], env) + BlockMd(refs, blocks[|blocks| - 1], 0, env)
  {
    JoinSnocEmpty(BlockMds(refs, blocks[..|blocks| - 1], env), BlockMd(refs, blocks[|blocks| - 1], 0, env));
  }

  /** A page with at least one block ends in a blank line. */
  lemma BlocksMdEndsBlankLine(refs: map<Id, Ref>, blocks: seq<Block>, env: Env)
    requires BlocksOk(refs.Keys, blocks) && blocks != []
    ensures EndsWith(BlocksMd(refs, blocks, env), "\n\n")
  {
    BlocksMdSnoc(refs, blocks, env);
    BlockMdEndsBlankLine(refs, blocks[|blocks| - 1], 0, env);
    EndsWithAppend(BlocksMd(refs, blocks[..|blocks| - 1], env), BlockMd(refs, blocks[|blocks| - 1], 0, env), "\n\n");
  }

  // ---------------------------------------------------------------------
  // `parse_markdown`
  // ---------------------------------------------------------------------

  /** The markdown regrouped, then each run of three newlines cut to two. */
  function Tidy(md: string): string {
    Replace(Grouped(md), "\n\n\n", "\n\n")
  }

  /** The last two steps of `parse_markdown` on one page. */
  method TidyMarkdown(md: string) returns (r: string)
    ensures r == Tidy(md)
  {
    r := Grouping(md);
    r := Replace(r, "\n\n\n", "\n\n");
  }

  /** A page's final markdown: its blocks' markdown, tidied. */
  function PageMd(refs: map<Id, Ref>, blocks: seq<Block>, env: Env): string
    requires BlocksOk(refs.Keys, blocks)
  {
    Tidy(BlocksMd(refs, blocks, env))
  }

  /** Every page of the export has a record in the table, and its blocks can be converted against it. */
  ghost predicate MarkdownReady(raw: Raw, pages: map<Id, Page>) {
    forall i :: 0 <= i < |raw.ids| ==>
      raw.ids[i] in raw.pages && raw.ids[i] in pages && BlocksOk(pages.Keys, raw.pages[raw.ids[i]].blocks)
  }

  /** What converting a page yields: the URLs its blocks register, and its markdown. */
  datatype Converted = Converted(files: seq<string>, md: string)

  /** The result of converting each page of the export whose blocks can be converted. */
  function PageResults(raw: Raw, refs: map<Id, Ref>, env: Env): map<Id, Converted>
  {
    map id | id in raw.pages && BlocksOk(refs.Keys, raw.pages[id].blocks)
      :: Converted(BlocksFiles(raw.pages[id].blocks), PageMd(refs, raw.pages[id].blocks, env))
  }

  /** A page record with a conversion result recorded: the files appended, the markdown set. */
  function Record(p: Page, c: Converted): (r: Page)
    ensures r.files == p.files + c.files && r.mdContent == c.md
    ensures RefOf(r) == RefOf(p)
  {
    p.(files := p.files + c.files, mdContent := c.md)
  }

  /** The page table after the results of the first `n` pages of `ids` are recorded, in order. */
  ghost function RecordedUpTo(pages: map<Id, Page>, ids: seq<Id>, results: map<Id, Converted>, n: nat): (r: map<Id, Page>)
    requires n <= |ids| && forall i :: 0 <= i < |ids| ==> ids[i] in pages && ids[i] in results
    ensures r.Keys == pages.Keys
  {
    if n == 0 then pages
    else
      var prior := RecordedUpTo(pages, ids, results, n - 1);
      prior[ids[n - 1] := Record(prior[ids[n - 1]], results[ids[n - 1]])]
  }

  /** Replacing a record by one with the same title, URL, emoji and icon keeps the reference view. */
  lemma RefsSameRef(pages: map<Id, Page>, id: Id, q: Page)
    requires id in pages && RefOf(q) == RefOf(pages[id])
    ensures Refs(pages[id := q]) == Refs(pages)
  {
    var r := pages[id := q];
    forall x | x in pages ensures Refs(r)[x] == Refs(pages)[x] {
    }
  }

  /** Two tables with the same keys and the same reference view of each record have the same reference view. */
  lemma SameRefs(a: map<Id, Page>, b: map<Id, Page>)
    requires a.Keys == b.Keys && forall x :: x in a ==> RefOf(a[x]) == RefOf(b[x])
    ensures Refs(a) == Refs(b)
  {
  }

  /**
   * After the results of the first `n` pages are recorded, each of those pages
   * has its own result recorded once, and every other record is unchanged.
   */
  lemma {:induction false} RecordedPages(pages: map<Id, Page>, ids: seq<Id>, results: map<Id, Converted>, n: nat, id: Id)
    requires n <= |ids| && forall i :: 0 <= i < |ids| ==> ids[i] in pages && ids[i] in results
    requires Distinct(ids) && id in pages
    ensures RecordedUpTo(pages, ids, results, n)[id]
      == if id in ids[..n] then Record(pages[id], results[id]) else pages[id]
  {
    if n > 0 {
      RecordedPages(pages, ids, results, n - 1, id);
      var last := ids[n - 1];
      assert ids[..n] == ids[..n - 1] + [last];
      if id == last {
        assert id !in ids[..n - 1];
      }
    }
  }

  /** Recording results changes no page's title, URL, emoji or icon. */
  lemma RefsRecorded(pages: map<Id, Page>, ids: seq<Id>, results: map<Id, Converted>, n: nat)
    requires n <= |ids| && forall i :: 0 <= i < |ids| ==> ids[i] in pages && ids[i] in results
    requires Distinct(ids)
    ensures Refs(RecordedUpTo(pages, ids, results, n)) == Refs(pages)
  {
    var r := RecordedUpTo(pages, ids, results, n);
    forall x | x in pages ensures RefOf(r[x]) == RefOf(pages[x]) {
      RecordedPages(pages, ids, results, n, x);
    }
    SameRefs(r, pages);
  }

  /** Each page of the export that can be converted has its blocks' files and its page markdown as result. */
  lemma PageResultsOf(raw: Raw, refs: map<Id, Ref>, env: Env, id: Id)
    requires id in raw.pages && BlocksOk(refs.Keys, raw.pages[id].blocks)
    ensures id in PageResults(raw, refs, env)
    ensures PageResults(raw, refs, env)[id]
      == Converted(BlocksFiles(raw.pages[id].blocks), PageMd(refs, raw.pages[id].blocks, env))
  {
  }

  /**
   * One page of `parse_markdown`: the page's markdown is cleared, its blocks
   * converted (registering their files on the page), regrouped, and triple
   * newlines cut to two.
   */
  method PageConvertor(site: Site, blocks: seq<Block>, id: Id, env: Env, ghost result: Converted)
    requires id in site.pages && BlocksOk(site.pages.Keys, blocks)
    requires result == Converted(BlocksFiles(blocks), PageMd(Refs(site.pages), blocks, env))
    modifies site`pages
    ensures site.pages == old(site.pages)[id := Record(old(site.pages)[id], result)]
  {
    ghost var start := site.pages;
    var cleared := site.pages[id].(mdContent := "");
    RefsSameRef(site.pages, id, cleared);
    site.pages := site.pages[id := cleared];
    var pageMd := BlocksConvertor(site, blocks, id, env);
    pageMd := TidyMarkdown(pageMd);
    site.pages := site.pages[id := site.pages[id].(mdContent := pageMd)];
    RecordAfterConvert(start, id, BlocksFiles(blocks), pageMd);
  }

  /** Clearing the markdown, appending files, then setting the markdown records both on the page. */
  lemma RecordAfterConvert(pages: map<Id, Page>, id: Id, fs: seq<string>, md: string)
    requires id in pages
    ensures var mid := AddFiles(pages[id := pages[id].(mdContent := "")], id, fs);
      mid[id := mid[id].(mdContent := md)] == pages[id := Record(pages[id], Converted(fs, md))]
  {
  }

  /**
   * `parse_markdown`: for each page of the export in order, the markdown of its
   * blocks, regrouped, with triple newlines cut, becomes the page's markdown,
   * and the URLs its blocks register are appended to its files.
   */
  method ParseMarkdown(site: Site, raw: Raw, env: Env)
    requires MarkdownReady(raw, site.pages) && Distinct(raw.ids)
    modifies site`pages
    ensures forall i :: 0 <= i < |raw.ids| ==> raw.ids[i] in PageResults(raw, Refs(old(site.pages)), env)
    ensures site.pages == RecordedUpTo(old(site.pages), raw.ids, PageResults(raw, Refs(old(site.pages)), env), |raw.ids|)
  {
    ghost var start := site.pages;
    AllPagesConvert(raw, start, env);
    var i := 0;
    while i < |raw.ids|
      invariant 0 <= i <= |raw.ids|
      invariant site.pages == RecordedUpTo(start, raw.ids, PageResults(raw, Refs(start), env), i)
    {
      ConvertNext(site, raw, env, start, i);
      i := i + 1;
    }
  }

  /** The step of `parse_markdown` that converts page `i` of the export. */
  method ConvertNext(site: Site, raw: Raw, env: Env, ghost start: map<Id, Page>, i: nat)
    requires MarkdownReady(raw, start) && Distinct(raw.ids) && i < |raw.ids|
    requires forall k :: 0 <= k < |raw.ids| ==> raw.ids[k] in start && raw.ids[k] in PageResults(raw, Refs(start), env)
    requires site.pages == RecordedUpTo(start, raw.ids, PageResults(raw, Refs(start), env), i)
    modifies site`pages
    ensures site.pages == RecordedUpTo(start, raw.ids, PageResults(raw, Refs(start), env), i + 1)
  {
    ghost var results := PageResults(raw, Refs(start), env);
    var id := raw.ids[i];
    ghost var prior := site.pages;
    StepReady(raw, start, env, i);
    PageConvertor(site, raw.pages[id].blocks, id, env, results[id]);
    RecordStep(start, raw.ids, results, i, prior, site.pages);
  }

  /** Before page `i` is converted, the recorded table still gives that page its own result. */
  lemma StepReady(raw: Raw, start: map<Id, Page>, env: Env, i: nat)
    requires MarkdownReady(raw, start) && Distinct(raw.ids) && i < |raw.ids|
    requires forall k :: 0 <= k < |raw.ids| ==> raw.ids[k] in start && raw.ids[k] in PageResults(raw, Refs(start), env)
    ensures var prior := RecordedUpTo(start, raw.ids, PageResults(raw, Refs(start), env), i);
      var id := raw.ids[i];
      && id in prior && id in raw.pages && BlocksOk(prior.Keys, raw.pages[id].blocks)
      && PageResults(raw, Refs(start), env)[id]
         == Converted(BlocksFiles(raw.pages[id].blocks), PageMd(Refs(prior), raw.pages[id].blocks, env))
  {
    var results := PageResults(raw, Refs(start), env);
    var id := raw.ids[i];
    RefsRecorded(start, raw.ids, results, i);
    PageResultsOf(raw, Refs(start), env, id);
  }

  lemma AllPagesConvert(raw: Raw, pages: map<Id, Page>, env: Env)
    requires MarkdownReady(raw, pages)
    ensures forall i :: 0 <= i < |raw.ids| ==> raw.ids[i] in pages && raw.ids[i] in PageResults(raw, Refs(pages), env)
  {
    forall i | 0 <= i < |raw.ids| ensures raw.ids[i] in PageResults(raw, Refs(pages), env) {
      PageResultsOf(raw, Refs(pages), env, raw.ids[i]);
    }
  }

  /** Recording the next page's result extends the recorded table by one page. */
  lemma RecordStep(pages: map<Id, Page>, ids: seq<Id>, results: map<Id, Converted>, i: nat, prior: map<Id, Page>, next: map<Id, Page>)
    requires i < |ids| && forall k :: 0 <= k < |ids| ==> ids[k] in pages && ids[k] in results
    requires prior == RecordedUpTo(pages, ids, results, i)
    requires next == prior[ids[i] := Record(prior[ids[i]], results[ids[i]])]
    ensures next == RecordedUpTo(pages, ids, results, i + 1)
  {
  }
}
