/**
 * The raw Notion export the site builder consumes: one record per page or
 * database, keyed by id in the order the export lists them, each with its
 * parent, typed properties, icon, cover and block tree.
 */
module RawNotion {
  import opened Optional
  import opened Json

  type Id = string

  /** The style flags of a text span. */
  datatype Annotations = Annotations(
    bold: bool, italic: bool, strikethrough: bool, underline: bool, code: bool, color: string)

  /** One rich-text span. */
  datatype Span =
    | TextSpan(plainText: string, href: Option<string>, content: string, link: Option<string>,
               annotations: Annotations)
    | EquationSpan(plainText: string)
    | MentionSpan(plainText: string, href: Option<string>, mentionType: string)

  datatype RawParent = Workspace | PageParent(pageId: Id) | DatabaseParent(databaseId: Id)

  datatype ObjectKind = PageObject | DatabaseObject

  datatype DateRange = DateRange(start: string, end: Option<string>)

  /**
   * A typed database property. File entries are the `file.url` of each file;
   * a property of any other type keeps its type name and raw payload.
   */
  datatype PropValue =
    | PTitle(title: seq<Span>)
    | PRichText(richText: seq<Span>)
    | PNumber(number: Option<int>)
    | PSelect(select: Option<string>)
    | PMultiSelect(tags: seq<string>)
    | PDate(date: Option<DateRange>)
    | PPeople(people: seq<string>)
    | PFiles(files: seq<string>)
    | PCheckbox(checked: bool)
    | PUrl(url: Option<string>)
    | PEmail(email: Option<string>)
    | PPhoneNumber(phone: Option<string>)
    | PCreatedTime(createdTime: Option<string>)
    | PLastEditedTime(lastEditedTime: Option<string>)
    | POther(typeName: string, payload: Json)

  /** A page's icon: none, an emoji, or an uploaded file. */
  datatype RawIcon = NoIcon | EmojiIcon(emoji: string) | FileIcon(url: string)

  /**
   * The payload of a block under its type key; a field is `None` when the key
   * is absent. `icon` is the emoji of a callout, `file` and `external` the
   * nested `url`, `cells` the rich texts of a table row.
   */
  datatype Payload = Payload(
    text: Option<seq<Span>>,
    icon: Option<string>,
    checked: Option<bool>,
    expression: Option<string>,
    url: Option<string>,
    caption: Option<seq<Span>>,
    external: Option<string>,
    language: Option<string>,
    file: Option<string>,
    cells: Option<seq<seq<Span>>>,
    dontDownload: bool)

  /**
   * A block's `type`: each kind the converter distinguishes, and `Other` for
   * the rest, keeping the name.
   */
  datatype BlockKind =
    | Paragraph | Heading1 | Heading2 | Heading3 | Callout | Toggle | Quote
    | BulletedListItem | NumberedListItem | ToDo | CodeBlock | Embed | Image | Bookmark
    | Equation | Divider | FileBlock | TableRow | Video | Table
    | ChildPage | ChildDatabase | DbEntry
    | Other(name: string)

  /** The `type` string of a kind. */
  function KindName(k: BlockKind): string {
    match k
    case Paragraph => "paragraph"
    case Heading1 => "heading_1"
    case Heading2 => "heading_2"
    case Heading3 => "heading_3"
    case Callout => "callout"
    case Toggle => "toggle"
    case Quote => "quote"
    case BulletedListItem => "bulleted_list_item"
    case NumberedListItem => "numbered_list_item"
    case ToDo => "to_do"
    case CodeBlock => "code"
    case Embed => "embed"
    case Image => "image"
    case Bookmark => "bookmark"
    case Equation => "equation"
    case Divider => "divider"
    case FileBlock => "file"
    case TableRow => "table_row"
    case Video => "video"
    case Table => "table"
    case ChildPage => "child_page"
    case ChildDatabase => "child_database"
    case DbEntry => "db_entry"
    case Other(name) => name
  }

  /** The kind a `type` string names; any other string is `Other`. */
  function ParseKind(name: string): (k: BlockKind)
    ensures k.Other? ==> k.name == name
  {
    match name
    case "paragraph" => Paragraph
    case "heading_1" => Heading1
    case "heading_2" => Heading2
    case "heading_3" => Heading3
    case "callout" => Callout
    case "toggle" => Toggle
    case "quote" => Quote
    case "bulleted_list_item" => BulletedListItem
    case "numbered_list_item" => NumberedListItem
    case "to_do" => ToDo
    case "code" => CodeBlock
    case "embed" => Embed
    case "image" => Image
    case "bookmark" => Bookmark
    case "equation" => Equation
    case "divider" => Divider
    case "file" => FileBlock
    case "table_row" => TableRow
    case "video" => Video
    case "table" => Table
    case "child_page" => ChildPage
    case "child_database" => ChildDatabase
    case "db_entry" => DbEntry
    case _ => Other(name)
  }

  /** An `Other` kind never carries the name of a distinguished kind. */
  predicate KindOk(k: BlockKind) {
    k.Other? ==> ParseKind(k.name) == k
  }

  /** Reading a `type` string and writing it back gives the string. */
  lemma KindNameParse(name: string)
    ensures KindOk(ParseKind(name)) && KindName(ParseKind(name)) == name
  {
  }

  /** Writing a well-formed kind and reading it back gives the kind. */
  lemma ParseKindName(k: BlockKind)
    requires KindOk(k)
    ensures ParseKind(KindName(k)) == k
  {
    match k
    case Other(_) =>
    case _ =>
  }

  /** A content block; `children` is read only when `hasChildren` is set. */
  datatype Block = Block(id: Id, kind: BlockKind, hasChildren: bool, payload: Payload, children: seq<Block>)

  /** The export of one page or database. */
  datatype RawPage = RawPage(
    objectKind: ObjectKind,
    parent: RawParent,
    properties: seq<(string, PropValue)>,
    title: seq<Span>,
    lastEditedTime: string,
    cover: Json,
    icon: RawIcon,
    blocks: seq<Block>)

  /** The whole export: page ids in export order, and each id's record. */
  datatype Raw = Raw(ids: seq<Id>, pages: map<Id, RawPage>)

  /** The export is a dictionary: ids are distinct and each has a record. */
  ghost predicate WellKeyed(raw: Raw) {
    (forall i, j :: 0 <= i < j < |raw.ids| ==> raw.ids[i] != raw.ids[j])
    && (forall id :: id in raw.pages <==> id in raw.ids)
  }

  /** The id a record's parent field names, if it is not the workspace. */
  function ParentId(p: RawParent): (r: Option<Id>)
    ensures r.None? <==> p.Workspace?
  {
    match p
    case Workspace => None
    case PageParent(id) => Some(id)
    case DatabaseParent(id) => Some(id)
  }

  /** The property named `name`, if any. */
  function Lookup(props: seq<(string, PropValue)>, name: string): (r: Option<PropValue>)
    ensures r.Some? ==> (exists i :: 0 <= i < |props| && props[i] == (name, r.value))
    ensures r.None? ==> forall i :: 0 <= i < |props| ==> props[i].0 != name
  {
    if props == [] then None
    else if props[0].0 == name then Some(props[0].1)
    else
      var r := Lookup(props[1..], name);
      assert r.Some? ==> props[1..][0..] == props[1..];
      r
  }

  /** The Notion type name of a property. */
  function TypeName(p: PropValue): string {
    match p
    case PTitle(_) => "title"
    case PRichText(_) => "rich_text"
    case PNumber(_) => "number"
    case PSelect(_) => "select"
    case PMultiSelect(_) => "multi_select"
    case PDate(_) => "date"
    case PPeople(_) => "people"
    case PFiles(_) => "files"
    case PCheckbox(_) => "checkbox"
    case PUrl(_) => "url"
    case PEmail(_) => "email"
    case PPhoneNumber(_) => "phone_number"
    case PCreatedTime(_) => "created_time"
    case PLastEditedTime(_) => "last_edited_time"
    case POther(t, _) => t
  }

  // ---------------------------------------------------------------------
  // The JSON form of the property bag, searched for the `title` key
  // ---------------------------------------------------------------------

  function OptStr(o: Option<string>): Json {
    if o.Some? then JStr(o.value) else JNull
  }

  function EncodeAnnotations(a: Annotations): Json {
    JObj([("bold", JBool(a.bold)), ("italic", JBool(a.italic)), ("strikethrough", JBool(a.strikethrough)),
          ("underline", JBool(a.underline)), ("code", JBool(a.code)), ("color", JStr(a.color))])
  }

  function EncodeSpan(s: Span): Json {
    match s
    case TextSpan(plain, href, content, link, ann) =>
      JObj([("type", JStr("text")), ("plain_text", JStr(plain)), ("href", OptStr(href)),
            ("text", JObj([("content", JStr(content)),
                           ("link", if link.Some? then JObj([("url", JStr(link.value))]) else JNull)])),
            ("annotations", EncodeAnnotations(ann))])
    case EquationSpan(plain) =>
      JObj([("type", JStr("equation")), ("plain_text", JStr(plain)), ("href", JNull),
            ("equation", JObj([("expression", JStr(plain))]))])
    case MentionSpan(plain, href, mt) =>
      JObj([("type", JStr("mention")), ("plain_text", JStr(plain)), ("href", OptStr(href)),
            ("mention", JObj([("type", JStr(mt))]))])
  }

  function EncodeSpans(spans: seq<Span>): (r: Json)
    ensures r.JList? && |r.items| == |spans|
    ensures forall i :: 0 <= i < |spans| ==> r.items[i] == EncodeSpan(spans[i])
  {
    JList(seq(|spans|, i requires 0 <= i < |spans| => EncodeSpan(spans[i])))
  }

  function Named(names: seq<string>): (r: Json)
    ensures r.JList? && |r.items| == |names|
  {
    JList(seq(|names|, i requires 0 <= i < |names| => JObj([("name", JStr(names[i]))])))
  }

  function EncodeValue(p: PropValue): Json {
    match p
    case PTitle(t) => EncodeSpans(t)
    case PRichText(t) => EncodeSpans(t)
    case PNumber(n) => if n.Some? then JNum(n.value) else JNull
    case PSelect(s) => if s.Some? then JObj([("name", JStr(s.value))]) else JNull
    case PMultiSelect(tags) => Named(tags)
    case PDate(d) =>
      if d.Some? then JObj([("start", JStr(d.value.start)), ("end", OptStr(d.value.end))]) else JNull
    case PPeople(people) => Named(people)
    case PFiles(urls) =>
      JList(seq(|urls|, i requires 0 <= i < |urls| => JObj([("file", JObj([("url", JStr(urls[i]))]))])))
    case PCheckbox(b) => JBool(b)
    case PUrl(u) => OptStr(u)
    case PEmail(e) => OptStr(e)
    case PPhoneNumber(ph) => OptStr(ph)
    case PCreatedTime(t) => OptStr(t)
    case PLastEditedTime(t) => OptStr(t)
    case POther(_, payload) => payload
  }

  /** A property as the export writes it: its type, then its value under the type's name. */
  function EncodeProperty(p: PropValue): Json {
    JObj([("type", JStr(TypeName(p))), (TypeName(p), EncodeValue(p))])
  }

  /** The property bag as the export writes it. */
  function PropsJson(props: seq<(string, PropValue)>): (r: Json)
    ensures r.JObj? && |r.fields| == |props|
  {
    JObj(PropFields(props))
  }

  function PropFields(props: seq<(string, PropValue)>): (r: seq<(string, Json)>)
    ensures |r| == |props|
  {
    if props == [] then [] else [(props[0].0, EncodeProperty(props[0].1))] + PropFields(props[1..])
  }

  /** An object is free of `key` when each field name differs from it and each value is free of it. */
  lemma LacksObj(key: string, f: seq<(string, Json)>)
    requires forall i :: 0 <= i < |f| ==> f[i].0 != key
    requires forall i :: 0 <= i < |f| ==> Lacks(key, f[i].1)
    ensures Lacks(key, JObj(f))
  {
  }

  lemma SpanLacksTitle(s: Span)
    ensures Lacks("title", EncodeSpan(s))
  {
    var f := EncodeSpan(s).fields;
    match s {
      case TextSpan(_, _, _, link, ann) =>
        var a := EncodeAnnotations(ann).fields;
        LacksObj("title", a);
        var l := if link.Some? then JObj([("url", JStr(link.value))]) else JNull;
        assert Lacks("title", l);
        assert Lacks("title", f[3].1);
      case _ =>
    }
    LacksObj("title", f);
  }

  lemma SpansLackTitle(spans: seq<Span>)
    ensures Lacks("title", EncodeSpans(spans))
  {
    forall i | 0 <= i < |spans| ensures Lacks("title", EncodeSpans(spans).items[i]) {
      SpanLacksTitle(spans[i]);
    }
  }

  lemma NamedLacksTitle(names: seq<string>)
    ensures Lacks("title", Named(names))
  {
    forall i | 0 <= i < |names| ensures Lacks("title", Named(names).items[i]) {
      LacksObj("title", [("name", JStr(names[i]))]);
    }
  }

  /**
   * Outside its title property and properties of unmodelled types, a property
   * bag holds no `title` key.
   */
  lemma ValueLacksTitle(p: PropValue)
    requires !p.PTitle? && !p.POther?
    ensures Lacks("title", EncodeProperty(p))
  {
    var v := EncodeValue(p);
    match p {
      case PRichText(t) => SpansLackTitle(t);
      case PSelect(sel) =>
        if sel.Some? { LacksObj("title", v.fields); }
      case PDate(d) =>
        if d.Some? { LacksObj("title", v.fields); }
      case PMultiSelect(tags) => NamedLacksTitle(tags);
      case PPeople(people) => NamedLacksTitle(people);
      case PFiles(urls) =>
        forall i | 0 <= i < |urls| ensures Lacks("title", v.items[i]) {
          var inner := JObj([("url", JStr(urls[i]))]);
          LacksObj("title", inner.fields);
          LacksObj("title", [("file", inner)]);
        }
      case _ =>
    }
    assert Lacks("title", v);
    LacksObj("title", EncodeProperty(p).fields);
  }

  lemma {:induction false} PropFieldsAppend(a: seq<(string, PropValue)>, b: seq<(string, PropValue)>)
    ensures PropFields(a + b) == PropFields(a) + PropFields(b)
  {
    if a == [] {
      assert a + b == b;
    } else {
      assert (a + b)[0] == a[0] && (a + b)[1..] == a[1..] + b;
      PropFieldsAppend(a[1..], b);
    }
  }

  /** Properties neither named `title` nor of type title nor of an unmodelled type hold no `title` key. */
  lemma {:induction false} PlainPropsLackTitle(props: seq<(string, PropValue)>)
    requires forall i :: 0 <= i < |props| ==> props[i].0 != "title" && !props[i].1.PTitle? && !props[i].1.POther?
    ensures Lacks("title", PropsJson(props))
  {
    if props != [] {
      PlainPropsLackTitle(props[1..]);
      ValueLacksTitle(props[0].1);
      var f := PropFields(props);
      assert f == [(props[0].0, EncodeProperty(props[0].1))] + PropFields(props[1..]);
      LacksObj("title", f);
    }
  }

  /**
   * In a property bag whose title property comes before any property named
   * `title` or of an unmodelled type, the first value found under `title` is
   * the title property's rich text.
   */
  lemma FirstTitleHit(before: seq<(string, PropValue)>, name: string, spans: seq<Span>,
                      after: seq<(string, PropValue)>)
    requires forall i :: 0 <= i < |before| ==> before[i].0 != "title" && !before[i].1.PTitle? && !before[i].1.POther?
    requires name != "title"
    ensures var hits := Search("title", PropsJson(before + [(name, PTitle(spans))] + after));
      |hits| > 0 && hits[0] == EncodeSpans(spans)
  {
    var x := [(name, PTitle(spans))];
    PropFieldsAppend(before, x);
    PropFieldsAppend(before + x, after);
    var fb := PropFields(before);
    var fx := PropFields(x);
    var fa := PropFields(after);
    assert fx == [(name, EncodeProperty(PTitle(spans)))];
    PlainPropsLackTitle(before);
    SearchLacks("title", JObj(fb));
    var enc := EncodeProperty(PTitle(spans));
    TopLevelHit("title", [("type", JStr("title"))], EncodeSpans(spans), []);
    assert [("type", JStr("title"))] + [("title", EncodeSpans(spans))] + [] == enc.fields;
    LacksObj("title", [("type", JStr("title"))]);
    SearchLacks("title", JObj([("type", JStr("title"))]));
    assert Inside("title", enc) == Search("title", enc);
    SearchCons("title", name, enc, []);
    assert fx + [] == fx;
    SearchAppend("title", fb, fx);
    SearchAppend("title", fb + fx, fa);
  }
}
