/**
 * Rich-text rendering: each span becomes markdown on its own, and a rich text
 * is the in-order concatenation of its spans.
 */
module RichText {
  import opened Optional
  import opened RawNotion
  import opened PyStr

  /** Python truthiness of an optional string: present and non-empty. */
  predicate Truthy(o: Option<string>) {
    o.Some? && o.value != ""
  }

  /** The text styles, in the order the renderer applies them. */
  datatype Style = Bold | Italic | Strikethrough | Underline | Code

  const StyleOrder: seq<Style> := [Bold, Italic, Strikethrough, Underline, Code]

  function OpenTag(st: Style): string {
    match st
    case Bold => "**"
    case Italic => "*"
    case Strikethrough => "~~"
    case Underline => "<u>"
    case Code => "`"
  }

  function CloseTag(st: Style): string {
    match st
    case Underline => "</u>"
    case _ => OpenTag(st)
  }

  /** The annotation wrapper for one style. */
  function Apply(st: Style, content: string): (r: string)
    ensures r == OpenTag(st) + content + CloseTag(st)
  {
    match st
    case Bold => "**" + content + "**"
    case Italic => "*" + content + "*"
    case Strikethrough => "~~" + content + "~~"
    case Underline => "<u>" + content + "</u>"
    case Code => "`" + content + "`"
  }

  predicate IsOn(a: Annotations, st: Style) {
    match st
    case Bold => a.bold
    case Italic => a.italic
    case Strikethrough => a.strikethrough
    case Underline => a.underline
    case Code => a.code
  }

  function ColorOpen(color: string): string {
    "<span style='color:" + color + "'>"
  }

  const ColorClose: string := "</span>"

  /** The color wrapper. */
  function Colored(content: string, color: string): string {
    ColorOpen(color) + content + ColorClose
  }

  /** An inline equation. */
  function InlineEquation(t: string): string {
    "$ " + t + " $"
  }

  /** A link around a text span's content. */
  function TextLink(content: string, url: string): string {
    "[" + content + "](" + url + ")"
  }

  /** The link a page or database mention renders as (the bracket before the closing parenthesis is as written). */
  function MentionLink(content: string, url: string): string {
    "([" + content + "](" + url + "])"
  }

  /** The text a mention shows: its plain text, or its link when the plain text is the placeholder "Untitled". */
  function MentionContent(plain: string, href: Option<string>): (r: string)
    ensures Truthy(href) && plain == "Untitled" ==> r == href.value
    ensures !(Truthy(href) && plain == "Untitled") ==> r == plain
  {
    if Truthy(href) then (if plain != "Untitled" then plain else href.value) else plain
  }

  predicate LinkMention(mentionType: string) {
    mentionType == "page" || mentionType == "database"
  }

  predicate TextMention(mentionType: string) {
    mentionType == "user" || mentionType == "date"
  }

  /** What the renderer reads must be there: a linked text has a link URL, a linked mention a link. */
  predicate SpanOk(s: Span) {
    match s
    case TextSpan(_, href, _, link, _) => Truthy(href) ==> link.Some?
    case EquationSpan(_) => true
    case MentionSpan(_, href, mt) => LinkMention(mt) ==> Truthy(href)
  }

  predicate SpansOk(spans: seq<Span>) {
    forall i :: 0 <= i < |spans| ==> SpanOk(spans[i])
  }

  /** A text span before styling: its linked content, or its plain text. */
  function BaseText(s: Span): string
    requires s.TextSpan? && SpanOk(s)
  {
    if Truthy(s.href) then TextLink(s.content, s.link.value) else s.plainText
  }

  /** The first `n` styles of the fixed order applied, innermost first, to `base`. */
  function Styled(a: Annotations, base: string, n: nat): string
    requires n <= |StyleOrder|
  {
    if n == 0 then base
    else
      var inner := Styled(a, base, n - 1);
      if IsOn(a, StyleOrder[n - 1]) then Apply(StyleOrder[n - 1], inner) else inner
  }

  /** The color wrapper, applied last and only for a color other than "default". */
  function WithColor(a: Annotations, styled: string): string {
    if a.color != "default" then Colored(styled, a.color) else styled
  }

  /** The markdown of one span. */
  function RenderSpan(s: Span): string
    requires SpanOk(s)
  {
    match s
    case EquationSpan(plain) => InlineEquation(plain)
    case MentionSpan(plain, href, mt) =>
      if TextMention(mt) then "(" + MentionContent(plain, href) + ")"
      else if LinkMention(mt) then MentionLink(MentionContent(plain, href), href.value)
      else ""
    case TextSpan(_, _, _, _, a) => WithColor(a, Styled(a, BaseText(s), |StyleOrder|))
  }

  /** The markdown of a rich text: each span's rendering, in order. */
  function RenderRichText(spans: seq<Span>): string
    requires SpansOk(spans)
  {
    ConcatMap(spans, RenderSpan)
  }

  /** `open + x + close` when `on`, else `x` unchanged. */
  function Wrap(on: bool, open: string, close: string, x: string): string {
    if on then open + x + close else x
  }

  /** Each styling step wraps the text so far in the style's tags, or leaves it alone. */
  lemma StyledStep(a: Annotations, base: string, n: nat)
    requires n < |StyleOrder|
    ensures var st := StyleOrder[n];
      Styled(a, base, n + 1) == Wrap(IsOn(a, st), OpenTag(st), CloseTag(st), Styled(a, base, n))
  {
  }

  /**
   * The annotations nest in a fixed order around the (linked) content: bold
   * innermost, then italic, strikethrough, underline, code, and the color
   * outermost.
   */
  lemma TextSpanNesting(s: Span)
    requires s.TextSpan? && SpanOk(s)
    ensures var a := s.annotations;
      RenderSpan(s)
      == Wrap(a.color != "default", ColorOpen(a.color), ColorClose,
           Wrap(a.code, "`", "`",
             Wrap(a.underline, "<u>", "</u>",
               Wrap(a.strikethrough, "~~", "~~",
                 Wrap(a.italic, "*", "*",
                   Wrap(a.bold, "**", "**", BaseText(s)))))))
  {
    var a := s.annotations;
    var b := BaseText(s);
    var s1 := Wrap(a.bold, "**", "**", b);
    var s2 := Wrap(a.italic, "*", "*", s1);
    var s3 := Wrap(a.strikethrough, "~~", "~~", s2);
    var s4 := Wrap(a.underline, "<u>", "</u>", s3);
    var s5 := Wrap(a.code, "`", "`", s4);
    assert Styled(a, b, 1) == s1 by { StyledStep(a, b, 0); assert StyleOrder[0] == Bold; }
    assert Styled(a, b, 2) == s2 by { StyledStep(a, b, 1); assert StyleOrder[1] == Italic; }
    assert Styled(a, b, 3) == s3 by { StyledStep(a, b, 2); assert StyleOrder[2] == Strikethrough; }
    assert Styled(a, b, 4) == s4 by { StyledStep(a, b, 3); assert StyleOrder[3] == Underline; }
    assert Styled(a, b, 5) == s5 by { StyledStep(a, b, 4); assert StyleOrder[4] == Code; }
  }

  /** Rendering distributes over concatenation: no span is merged with, or reordered around, another. */
  lemma RenderRichTextAppend(xs: seq<Span>, ys: seq<Span>)
    requires SpansOk(xs) && SpansOk(ys)
    ensures SpansOk(xs + ys)
    ensures RenderRichText(xs + ys) == RenderRichText(xs) + RenderRichText(ys)
  {
    ConcatMapAppend(xs, ys, RenderSpan);
  }

  /** A single span renders on its own. */
  lemma RenderRichTextSingle(s: Span)
    requires SpanOk(s)
    ensures RenderRichText([s]) == RenderSpan(s)
  {
    assert [s][..0] == [];
    assert ConcatMap([s], RenderSpan) == ConcatMap([s][..0], RenderSpan) + RenderSpan(s);
  }

  /** `richtext_word_converter`: one span, with the annotation loop over the fixed style order. */
  method RichtextWordConverter(s: Span) returns (word: string)
    requires SpanOk(s)
    ensures word == RenderSpan(s)
  {
    match s {
      case EquationSpan(plain) =>
        word := InlineEquation(plain);
      case MentionSpan(plain, href, mt) =>
        word := "";
        if TextMention(mt) || LinkMention(mt) {
          var content := MentionContent(plain, href);
          if TextMention(mt) {
            word := "(" + content + ")";
          } else {
            word := MentionLink(content, href.value);
          }
        }
      case TextSpan(plain, href, content, link, a) =>
        if Truthy(href) {
          word := TextLink(content, link.value);
        } else {
          word := plain;
        }
        var i := 0;
        while i < |StyleOrder|
          invariant 0 <= i <= |StyleOrder|
          invariant word == Styled(a, BaseText(s), i)
        {
          if IsOn(a, StyleOrder[i]) {
            word := Apply(StyleOrder[i], word);
          }
          i := i + 1;
        }
        if a.color != "default" {
          word := Colored(word, a.color);
        }
    }
  }

  /** `richtext_convertor`: the spans' renderings concatenated in order. */
  method RichtextConvertor(spans: seq<Span>) returns (sentence: string)
    requires SpansOk(spans)
    ensures sentence == RenderRichText(spans)
  {
    sentence := "";
    var i := 0;
    while i < |spans|
      invariant 0 <= i <= |spans|
      invariant sentence == RenderRichText(spans[..i])
    {
      var word := RichtextWordConverter(spans[i]);
      assert spans[..i + 1][..i] == spans[..i];
      sentence := sentence + word;
      i := i + 1;
    }
    assert spans[..i] == spans;
  }
}
