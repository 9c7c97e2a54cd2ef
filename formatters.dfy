/**
 * The per-kind block formatters and the information a block's payload
 * contributes to them.
 */
module Formatters {
  import opened Optional
  import opened RawNotion
  import opened RichText
  import opened PyStr
  import opened Externals

  /** What `information_collector` extracts from a payload; `None` where it sets no key. */
  datatype Info = Info(
    text: Option<string>,
    icon: Option<string>,
    checked: Option<bool>,
    url: Option<string>,
    caption: Option<string>,
    language: Option<string>,
    cells: Option<seq<seq<Span>>>)

  /** The rich texts of a payload can be rendered. */
  predicate PayloadOk(p: Payload) {
    (p.text.Some? ==> SpansOk(p.text.value))
    && (p.caption.Some? ==> SpansOk(p.caption.value))
  }

  /**
   * The information of a payload: `expression` overrides `text`, and of `url`,
   * `external` and `file` the last present one wins.
   */
  function CollectInfo(p: Payload): (info: Info)
    requires PayloadOk(p)
    ensures info.text.Some? <==> p.text.Some? || p.expression.Some?
    ensures info.url.Some? <==> p.url.Some? || p.external.Some? || p.file.Some?
    ensures p.file.Some? ==> info.url == p.file
    ensures p.expression.Some? ==> info.text == p.expression
  {
    Info(
      text := if p.expression.Some? then p.expression
              else if p.text.Some? then Some(RenderRichText(p.text.value)) else None,
      icon := p.icon,
      checked := p.checked,
      url := if p.file.Some? then p.file else if p.external.Some? then p.external else p.url,
      caption := if p.caption.Some? then Some(RenderRichText(p.caption.value)) else None,
      language := p.language,
      cells := p.cells)
  }

  function Opt(o: Option<string>): seq<string> {
    if o.Some? then [o.value] else []
  }

  /**
   * The URLs a payload registers for download: at most its three links, each
   * one that is set, the `url` first and the `file` last, and none when
   * downloads are off.
   */
  function PayloadFiles(p: Payload, dontDownload: bool): (files: seq<string>)
    ensures |files| <= 3
    ensures forall u :: u in files <==> !dontDownload && (p.url == Some(u) || p.external == Some(u) || p.file == Some(u))
    ensures !dontDownload && p.url.Some? ==> files[0] == p.url.value
    ensures !dontDownload && p.file.Some? ==> files[|files| - 1] == p.file.value
  {
    if dontDownload then [] else Opt(p.url) + Opt(p.external) + Opt(p.file)
  }

  /** The block kinds with a formatter; a toggle is rendered as a bulleted item. */
  predicate Mapped(kind: BlockKind) {
    !(kind.Table? || kind.ChildPage? || kind.ChildDatabase? || kind.DbEntry? || kind.Other?)
  }

  /** The kinds whose formatter reads the block's text. */
  predicate ReadsText(kind: BlockKind) {
    match kind
    case Paragraph | Heading1 | Heading2 | Heading3 | Callout | Toggle | Quote
      | BulletedListItem | NumberedListItem | ToDo | CodeBlock | Equation => true
    case _ => false
  }

  /** The kinds whose formatter reads the block's URL. */
  predicate ReadsUrl(kind: BlockKind) {
    kind.Embed? || kind.Image? || kind.Bookmark? || kind.FileBlock? || kind.Video?
  }

  /** The information each formatter reads is present. */
  predicate Ready(kind: BlockKind, info: Info) {
    && (ReadsText(kind) ==> info.text.Some?)
    && (kind.Callout? ==> info.icon.Some?)
    && (kind.ToDo? ==> info.checked.Some?)
    && (kind.CodeBlock? ==> info.language.Some?)
    && (ReadsUrl(kind) ==> info.url.Some?)
    && (kind.Image? || kind.Bookmark? ==> info.caption.Some?)
  }

  /** The iframe an embed or a video becomes. */
  function Frame(link: string): string {
    "<p><div class=\"res_emb_block\">\n<iframe width=\"640\" height=\"480\" src=\"" + link
    + "\" frameborder=\"0\" allowfullscreen></iframe>\n</div></p>"
  }

  /** An image or bookmark, with its caption as alt text when the caption is non-empty. */
  function Picture(caption: string, url: string): string {
    if caption != "" then "![" + caption + "](" + url + ")" else "![](" + url + ")"
  }

  /** A fenced code block; spaces in the language name become underscores. */
  function CodeFence(language: string, text: string): string {
    "```" + Replace(language, " ", "_") + "\n" + text + "\n```"
  }

  /** The markdown of a block's own content (children aside), for every mapped kind but `table_row`. */
  function Format(kind: BlockKind, info: Info, env: Env): string
    requires Mapped(kind) && !kind.TableRow? && Ready(kind, info)
  {
    match kind
    case Paragraph => info.text.value
    case Heading1 => "# " + info.text.value
    case Heading2 => "## " + info.text.value
    case Heading3 => "### " + info.text.value
    case Callout => info.icon.value + " " + info.text.value
    case Quote => "> " + info.text.value
    case Toggle => "* " + info.text.value
    case BulletedListItem => "* " + info.text.value
    case NumberedListItem => "1. " + info.text.value
    case ToDo => "- " + (if info.checked.value then "[x]" else "[ ]") + " " + info.text.value
    case CodeBlock => CodeFence(info.language.value, info.text.value)
    case Embed => Frame(info.url.value)
    case Video => Frame(info.url.value)
    case Image => Picture(info.caption.value, info.url.value)
    case Bookmark => Picture(info.caption.value, info.url.value)
    case Equation => "$$ " + info.text.value + " $$"
    case Divider => "---"
    case FileBlock => "[📎 " + env.baseName(info.url.value) + "](" + info.url.value + ")"
  }

  /** The cells of a table row, each rendered as rich text. */
  predicate CellsOk(cells: seq<seq<Span>>) {
    forall i :: 0 <= i < |cells| ==> SpansOk(cells[i])
  }

  function RowCells(cells: seq<seq<Span>>): (r: seq<string>)
    requires CellsOk(cells)
    ensures |r| == |cells|
    ensures forall i :: 0 <= i < |cells| ==> r[i] == RenderRichText(cells[i])
  {
    seq(|cells|, i requires 0 <= i < |cells| => RenderRichText(cells[i]))
  }

  /** The `table_row` formatter: the rendered cells, collected one by one. */
  method RowConvertor(cells: seq<seq<Span>>) returns (columns: seq<string>)
    requires CellsOk(cells)
    ensures columns == RowCells(cells)
  {
    columns := [];
    var i := 0;
    while i < |cells|
      invariant 0 <= i <= |cells|
      invariant columns == RowCells(cells[..i])
    {
      var column := RichtextConvertor(cells[i]);
      columns := columns + [column];
      i := i + 1;
    }
    assert cells[..i] == cells;
  }

  /** One line of a markdown table. */
  function TableLine(cells: seq<string>): string {
    " | " + Join(cells, " | ") + " | " + "\n"
  }

  /** The separator line under a table's header: one `----` per header cell. */
  function Dashes(n: nat): (r: seq<string>)
    ensures |r| == n && forall i :: 0 <= i < n ==> r[i] == "----"
  {
    if n == 0 then [] else Dashes(n - 1) + ["----"]
  }

  /** A table whose first row is the header: header line, separator, then one line per later row. */
  function TableText(rows: seq<seq<string>>): string
    requires |rows| >= 1
  {
    TableLine(rows[0]) + TableLine(Dashes(|rows[0]|)) + ConcatMap(rows[1..], TableLine)
  }

  /**
   * The code fragment of a block at `depth`: trailing newlines removed, every
   * remaining newline followed by `depth` tabs, then one blank line.
   */
  function CodeIndent(fragment: string, depth: nat): string {
    Replace(RStrip(fragment, {'\n'}), "\n", "\n" + Chars('\t', depth)) + "\n\n"
  }

  /** Every newline of `r` before position `end` is followed by `depth` tabs, all before `end`. */
  predicate TabbedNewlines(r: string, end: nat, depth: nat)
    requires end <= |r|
  {
    forall i :: 0 <= i < end && r[i] == '\n' ==> i + 1 + depth <= end && r[i + 1..i + 1 + depth] == Chars('\t', depth)
  }

  /**
   * Replacing every newline by a newline and `depth` tabs leaves each newline
   * followed by `depth` tabs, and keeps a last character that is not a newline.
   */
  lemma ReplaceNewlineTabs(s: string, depth: nat)
    ensures TabbedNewlines(Replace(s, "\n", "\n" + Chars('\t', depth)), |Replace(s, "\n", "\n" + Chars('\t', depth))|, depth)
    ensures s != "" && s[|s| - 1] != '\n' ==>
      Replace(s, "\n", "\n" + Chars('\t', depth)) != ""
      && Replace(s, "\n", "\n" + Chars('\t', depth))[|Replace(s, "\n", "\n" + Chars('\t', depth))| - 1] == s[|s| - 1]
  {
    ReplaceTabbed(s, depth);
    ReplaceKeepsLast(s, "\n" + Chars('\t', depth));
  }

  lemma {:induction false} ReplaceTabbed(s: string, depth: nat)
    ensures TabbedNewlines(Replace(s, "\n", "\n" + Chars('\t', depth)), |Replace(s, "\n", "\n" + Chars('\t', depth))|, depth)
    decreases |s|
  {
    var rep := "\n" + Chars('\t', depth);
    if s != "" {
      ReplaceTabbed(s[1..], depth);
      var t := Replace(s[1..], "\n", rep);
      var head := if StartsWith(s, "\n") then rep else [s[0]];
      assert Replace(s, "\n", rep) == head + t;
      HeadTabbed(s, depth);
      TabbedAppend(head, t, depth);
    }
  }

  /** Replacing newlines keeps a last character that is not a newline. */
  lemma {:induction false} ReplaceKeepsLast(s: string, rep: string)
    ensures s != "" && s[|s| - 1] != '\n' ==>
      Replace(s, "\n", rep) != "" && Replace(s, "\n", rep)[|Replace(s, "\n", rep)| - 1] == s[|s| - 1]
    decreases |s|
  {
    if s != "" && s[|s| - 1] != '\n' {
      var t := Replace(s[1..], "\n", rep);
      var head := if StartsWith(s, "\n") then rep else [s[0]];
      assert Replace(s, "\n", rep) == head + t;
      if |s| > 1 {
        ReplaceKeepsLast(s[1..], rep);
        assert s[1..][|s[1..]| - 1] == s[|s| - 1];
      } else {
        assert s[..1] != "\n";
        assert t == "";
      }
    }
  }

  /** What one character of the input becomes is tabbed. */
  lemma HeadTabbed(s: string, depth: nat)
    requires s != ""
    ensures var rep := "\n" + Chars('\t', depth);
      var head := if StartsWith(s, "\n") then rep else [s[0]];
      TabbedNewlines(head, |head|, depth)
  {
    var rep := "\n" + Chars('\t', depth);
    if StartsWith(s, "\n") {
      var tabs := Chars('\t', depth);
      assert rep[1..] == tabs;
      assert forall i :: 1 <= i < |rep| ==> rep[i] == tabs[i - 1];
    } else {
      assert s[..1] != "\n";
      assert s[0] != '\n';
    }
  }

  /** Two tabbed pieces make a tabbed whole. */
  lemma TabbedAppend(a: string, b: string, depth: nat)
    requires TabbedNewlines(a, |a|, depth) && TabbedNewlines(b, |b|, depth)
    ensures TabbedNewlines(a + b, |a + b|, depth)
  {
    var r := a + b;
    forall i | 0 <= i < |r| && r[i] == '\n'
      ensures i + 1 + depth <= |r| && r[i + 1..i + 1 + depth] == Chars('\t', depth)
    {
      if i < |a| {
        assert a[i] == '\n';
        assert r[i + 1..i + 1 + depth] == a[i + 1..i + 1 + depth];
      } else {
        var k := i - |a|;
        assert b[k] == r[i];
        assert r[i + 1..i + 1 + depth] == b[k + 1..k + 1 + depth];
      }
    }
  }

  /**
   * In the code fragment every newline but the final two is followed by
   * `depth` tabs, and the fragment ends in exactly two newlines.
   */
  lemma CodeIndentShape(fragment: string, depth: nat)
    ensures var r := CodeIndent(fragment, depth);
      && |r| >= 2 && r[|r| - 2..] == "\n\n"
      && (|r| == 2 || r[|r| - 3] != '\n')
      && TabbedNewlines(r, |r| - 2, depth)
  {
    var body := RStrip(fragment, {'\n'});
    RStripShape(fragment, {'\n'});
    ReplaceNewlineTabs(body, depth);
    var x := Replace(body, "\n", "\n" + Chars('\t', depth));
    var r := x + "\n\n";
    assert body == "" ==> x == "";
    assert TabbedNewlines(x, |x|, depth);
    forall i | 0 <= i < |x| && r[i] == '\n'
      ensures i + 1 + depth <= |x| && r[i + 1..i + 1 + depth] == Chars('\t', depth)
    {
      assert x[i] == '\n';
      assert r[i + 1..i + 1 + depth] == x[i + 1..i + 1 + depth];
    }
  }
}
