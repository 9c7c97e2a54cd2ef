/**
 * The markdown of database-entry properties (`p_*` in structuring.py) and the
 * pass `parse_db_entry_properties` that gives every database entry its raw
 * properties, their markdown, and the URLs of the files they hold.
 */
module Properties {
  import opened Optional
  import opened RawNotion
  import opened RichText
  import opened PyStr
  import opened Externals
  import opened SiteModel
  import opened PyDict

  type StrDict = Dict<string, string>

  // ---------------------------------------------------------------------------
  // The handlers

  /** The property types with a handler, plus `title`, which the pass skips. */
  const HandledTypes: set<string> := {
    "title", "rich_text", "number", "select", "multi_select", "date", "people", "files",
    "checkbox", "url", "email", "phone_number", "created_time", "last_edited_time"}

  /**
   * A property as the export writes it: rich text that the converter accepts,
   * and a raw payload only for a type without a handler.
   */
  predicate PropOk(p: PropValue) {
    match p
    case PRichText(t) => SpansOk(t)
    case POther(t, _) => t !in HandledTypes
    case _ => true
  }

  predicate PropsOk(props: seq<(string, PropValue)>) {
    forall i :: 0 <= i < |props| ==> PropOk(props[i].1)
  }

  /** The decimal digits of a natural number, most significant first. */
  function Digits(n: nat): (r: string)
    decreases n
  {
    if n < 10 then ['0' + n as char] else Digits(n / 10) + ['0' + (n % 10) as char]
  }

  /** `str(n)` for an integer. */
  function IntStr(n: int): string {
    if n < 0 then "-" + Digits(-n) else Digits(n)
  }

  /** The value of a string of decimal digits. */
  function DigitsValue(s: string): int
    decreases |s|
  {
    if s == [] then 0 else 10 * DigitsValue(s[..|s| - 1]) + (s[|s| - 1] as int - '0' as int)
  }

  /** The integer a string written by `str(n)` stands for (`int(s)`). */
  function ParseInt(s: string): int {
    if s != [] && s[0] == '-' then -DigitsValue(s[1..]) else DigitsValue(s)
  }

  /** `str(n)` is digits only, without a leading zero unless it is `0`, and reads back as `n`. */
  lemma {:induction false} DigitsRoundTrip(n: nat)
    ensures var s := Digits(n);
      && s != [] && (forall i :: 0 <= i < |s| ==> '0' <= s[i] <= '9')
      && (s[0] == '0' ==> n == 0)
      && DigitsValue(s) == n
    decreases n
  {
    if n >= 10 {
      DigitsRoundTrip(n / 10);
      var s := Digits(n);
      assert s[..|s| - 1] == Digits(n / 10);
      assert s[0] == Digits(n / 10)[0];
    }
  }

  lemma IntStrRoundTrip(n: int)
    ensures ParseInt(IntStr(n)) == n
    ensures IntStr(n) != [] && (IntStr(n)[0] == '-' <==> n < 0)
  {
    if n < 0 {
      DigitsRoundTrip(-n);
      assert IntStr(n)[1..] == Digits(-n);
    } else {
      DigitsRoundTrip(n);
    }
  }

  /** What `rstrip('; ')` removes. */
  const SepChars: set<char> := {';', ' '}

  /** One name of a multi-select or people property followed by the separator. */
  function NameItem(name: string): string {
    name + "; "
  }

  /** `p_multi_select` / `p_people`: each name followed by `"; "`, then trailing `;` and spaces removed. */
  function NamesMd(names: seq<string>): string {
    RStrip(ConcatMap(names, NameItem), SepChars)
  }

  /** The markdown link of one attached file. */
  function FileLink(url: string): string {
    "[\U{1F4CE}](" + url + ")"
  }

  function FileItem(url: string): string {
    FileLink(url) + "; "
  }

  /** `p_files`: each file link followed by `"; "`, then trailing `;` and spaces removed. */
  function FilesMd(urls: seq<string>): string {
    RStrip(ConcatMap(urls, FileItem), SepChars)
  }

  function FileLinks(urls: seq<string>): (r: seq<string>)
    ensures |r| == |urls| && forall i :: 0 <= i < |urls| ==> r[i] == FileLink(urls[i])
  {
    seq(|urls|, i requires 0 <= i < |urls| => FileLink(urls[i]))
  }

  /** `p_date`: the start date, and ` - ` and the end date when there is one. */
  function DateMd(d: Option<DateRange>, formatDate: string -> string): string {
    if d.None? then ""
    else if d.value.end.None? then formatDate(d.value.start)
    else formatDate(d.value.start) + " - " + formatDate(d.value.end.value)
  }

  /** The handler a property's type selects in `properties_map`, applied to it. */
  function PropertyMd(p: PropValue, env: Env): string
    requires PropOk(p)
  {
    match p
    case PTitle(_) => ""
    case PRichText(t) => RenderRichText(t)
    case PNumber(n) => if n.Some? then IntStr(n.value) else ""
    case PSelect(s) => if s.Some? then s.value else ""
    case PMultiSelect(tags) => NamesMd(tags)
    case PDate(d) => DateMd(d, env.formatDate)
    case PPeople(people) => NamesMd(people)
    case PFiles(urls) => FilesMd(urls)
    case PCheckbox(b) => if b then "- [x]" else "- [ ]"
    case PUrl(u) => if u.Some? then "[\U{1F578}](" + u.value + ")" else ""
    case PEmail(e) => if e.Some? then e.value else ""
    case PPhoneNumber(ph) => if ph.Some? then ph.value else ""
    case PCreatedTime(t) => if t.Some? then env.formatDate(t.value) else ""
    case PLastEditedTime(t) => if t.Some? then env.formatDate(t.value) else ""
    case POther(_, _) => ""
  }

  // ---------------------------------------------------------------------------
  // What the handlers promise

  lemma {:induction false} ConcatSepJoin(xs: seq<string>)
    requires xs != []
    ensures ConcatMap(xs, NameItem) == Join(xs, "; ") + "; "
    decreases |xs|
  {
    var init := xs[..|xs| - 1];
    var x := xs[|xs| - 1];
    if init != [] {
      ConcatSepJoin(init);
      JoinSnoc(init, x, "; ");
      assert init + [x] == xs;
    }
  }

  lemma {:induction false} JoinSnoc(xs: seq<string>, x: string, sep: string)
    requires xs != []
    ensures Join(xs + [x], sep) == Join(xs, sep) + sep + x
    decreases |xs|
  {
    if |xs| == 1 {
      assert (xs + [x])[1..] == [x];
    } else {
      JoinSnoc(xs[1..], x, sep);
      assert (xs + [x])[1..] == xs[1..] + [x];
    }
  }

  /** `rstrip` removes a tail made of stripped characters and stops at a kept one. */
  lemma RStripTail(s: string, t: string, chars: set<char>)
    requires s != [] && s[|s| - 1] !in chars
    requires forall i :: 0 <= i < |t| ==> t[i] in chars
    ensures RStrip(s + t, chars) == s
  {
    var r := RStrip(s + t, chars);
    RStripShape(s + t, chars);
    assert (s + t)[|s| - 1] == s[|s| - 1];
    assert r == (s + t)[..|s|] == s;
  }

  /**
   * `p_multi_select` and `p_people` give the names joined by `"; "` whenever
   * the last name does not itself end in `;` or a space (stripping then
   * removes only the final separator), and `""` for no names.
   */
  lemma NamesMdJoin(names: seq<string>)
    ensures names == [] ==> NamesMd(names) == ""
    ensures names != [] && names[|names| - 1] != [] && names[|names| - 1][|names[|names| - 1]| - 1] !in SepChars
      ==> NamesMd(names) == Join(names, "; ")
  {
    if names != [] && names[|names| - 1] != [] && names[|names| - 1][|names[|names| - 1]| - 1] !in SepChars {
      ConcatSepJoin(names);
      StrippedJoin(names);
    }
  }

  /** Stripping the final separator off a join stops at the last piece when that ends in a kept character. */
  lemma StrippedJoin(xs: seq<string>)
    requires xs != [] && xs[|xs| - 1] != [] && xs[|xs| - 1][|xs[|xs| - 1]| - 1] !in SepChars
    ensures RStrip(Join(xs, "; ") + "; ", SepChars) == Join(xs, "; ")
  {
    var j := Join(xs, "; ");
    var last := xs[|xs| - 1];
    JoinLast(xs, "; ");
    assert j[|j| - 1] == last[|last| - 1];
    RStripTail(j, "; ", SepChars);
  }

  /** A joined string ends with its last piece. */
  lemma {:induction false} JoinLast(xs: seq<string>, sep: string)
    requires xs != []
    ensures EndsWith(Join(xs, sep), xs[|xs| - 1])
    decreases |xs|
  {
    if |xs| > 1 {
      JoinLast(xs[1..], sep);
      EndsWithAppend(xs[0] + sep, Join(xs[1..], sep), xs[|xs| - 1]);
    }
  }

  lemma {:induction false} FileItemsJoin(urls: seq<string>)
    requires urls != []
    ensures ConcatMap(urls, FileItem) == Join(FileLinks(urls), "; ") + "; "
    decreases |urls|
  {
    var init := urls[..|urls| - 1];
    var u := urls[|urls| - 1];
    if init != [] {
      FileItemsJoin(init);
      JoinSnoc(FileLinks(init), FileLink(u), "; ");
      assert FileLinks(init) + [FileLink(u)] == FileLinks(urls);
    } else {
      assert FileLinks(urls) == [FileLink(u)];
    }
  }

  /** `p_files` always gives the file links joined by `"; "`: a link ends in `)`, which stripping keeps. */
  lemma FilesMdJoin(urls: seq<string>)
    ensures FilesMd(urls) == Join(FileLinks(urls), "; ")
  {
    if urls != [] {
      FileItemsJoin(urls);
      var links := FileLinks(urls);
      var last := links[|links| - 1];
      assert last == FileLink(urls[|urls| - 1]);
      assert last[|last| - 1] == ')';
      StrippedJoin(links);
    }
  }

  // ---------------------------------------------------------------------------
  // The handlers that loop

  /** The loop of `p_multi_select` and `p_people`. */
  method NamesMarkdown(names: seq<string>) returns (md: string)
    ensures md == NamesMd(names)
  {
    md := "";
    for i := 0 to |names|
      invariant md == ConcatMap(names[..i], NameItem)
    {
      assert names[..i + 1][..i] == names[..i];
      md := md + names[i] + "; ";
    }
    assert names[..|names|] == names;
    md := RStrip(md, SepChars);
  }

  /** The loop of `p_files`. */
  method FilesMarkdown(urls: seq<string>) returns (md: string)
    ensures md == FilesMd(urls)
  {
    md := "";
    for i := 0 to |urls|
      invariant md == ConcatMap(urls[..i], FileItem)
    {
      assert urls[..i + 1][..i] == urls[..i];
      md := md + FileLink(urls[i]) + "; ";
    }
    assert urls[..|urls|] == urls;
    md := RStrip(md, SepChars);
  }

  /** `properties_map[property['type']](property)` */
  method PropertyMarkdown(p: PropValue, env: Env) returns (md: string)
    requires PropOk(p)
    ensures md == PropertyMd(p, env)
  {
    match p
    case PRichText(t) =>
      md := RichtextConvertor(t);
    case PMultiSelect(tags) =>
      md := NamesMarkdown(tags);
    case PPeople(people) =>
      md := NamesMarkdown(people);
    case PFiles(urls) =>
      md := FilesMarkdown(urls);
    case _ =>
      md := PropertyMd(p, env);
  }

  // ---------------------------------------------------------------------------
  // One database entry

  /** The `properties_md` dict the pass builds from a property bag. */
  function PropsMd(props: seq<(string, PropValue)>, env: Env): StrDict
    requires PropsOk(props)
    decreases |props|
  {
    if props == [] then []
    else
      var init := PropsMd(props[..|props| - 1], env);
      var (name, p) := props[|props| - 1];
      if p.PTitle? then init else Put(init, name, PropertyMd(p, env))
  }

  /** The file URLs the pass appends to an entry's `files`, in property order. */
  function PropFiles(props: seq<(string, PropValue)>): seq<string>
    decreases |props|
  {
    if props == [] then []
    else
      var p := props[|props| - 1].1;
      PropFiles(props[..|props| - 1]) + (if p.PFiles? then p.files else [])
  }

  /** The names of the properties that are not the title. */
  function MdNames(props: seq<(string, PropValue)>): set<string> {
    set i | 0 <= i < |props| && !props[i].1.PTitle? :: props[i].0
  }

  /** The names of a property bag, which is a dict, are distinct. */
  ghost predicate DistinctNames(props: seq<(string, PropValue)>) {
    forall i, j :: 0 <= i < j < |props| ==> props[i].0 != props[j].0
  }

  /** `properties_md` has one key per property except the title, and no key twice. */
  lemma {:induction false} PropsMdKeys(props: seq<(string, PropValue)>, env: Env)
    requires PropsOk(props)
    ensures Keys(PropsMd(props, env)) == MdNames(props)
    ensures DistinctKeys(PropsMd(props, env))
    decreases |props|
  {
    if props != [] {
      var init := props[..|props| - 1];
      var (name, p) := props[|props| - 1];
      PropsMdKeys(init, env);
      assert MdNames(props) == MdNames(init) + (if p.PTitle? then {} else {name}) by {
        forall x | x in MdNames(props) ensures x in MdNames(init) + (if p.PTitle? then {} else {name}) {
          var i :| 0 <= i < |props| && !props[i].1.PTitle? && props[i].0 == x;
          if i < |init| { assert init[i] == props[i]; }
        }
        forall x | x in MdNames(init) ensures x in MdNames(props) {
          var i :| 0 <= i < |init| && !init[i].1.PTitle? && init[i].0 == x;
          assert props[i] == init[i];
        }
      }
      if !p.PTitle? {
        PutShape(PropsMd(init, env), name, PropertyMd(p, env));
      }
    }
  }

  /**
   * In a bag with distinct names, every property but the title maps in
   * `properties_md` to its handler's markdown (`""` for a type without one).
   */
  lemma {:induction false} PropsMdValue(props: seq<(string, PropValue)>, env: Env, i: nat)
    requires PropsOk(props) && DistinctNames(props) && i < |props| && !props[i].1.PTitle?
    ensures Get(PropsMd(props, env), props[i].0) == Some(PropertyMd(props[i].1, env))
    ensures props[i].1.POther? ==> Get(PropsMd(props, env), props[i].0) == Some("")
    decreases |props|
  {
    var init := props[..|props| - 1];
    var (name, p) := props[|props| - 1];
    assert PropsOk(init);
    if !p.PTitle? {
      PutShape(PropsMd(init, env), name, PropertyMd(p, env));
    }
    if i < |init| {
      assert init[i] == props[i];
      assert DistinctNames(init);
      PropsMdValue(init, env, i);
      assert props[i].0 != name;
    }
  }

  /** A URL is appended to `files` exactly when some files property of the bag holds it. */
  lemma {:induction false} PropFilesFrom(props: seq<(string, PropValue)>, u: string)
    ensures u in PropFiles(props) <==> exists i :: 0 <= i < |props| && props[i].1.PFiles? && u in props[i].1.files
    decreases |props|
  {
    if props != [] {
      var init := props[..|props| - 1];
      PropFilesFrom(init, u);
      if exists i :: 0 <= i < |init| && init[i].1.PFiles? && u in init[i].1.files {
        var i :| 0 <= i < |init| && init[i].1.PFiles? && u in init[i].1.files;
        assert props[i] == init[i];
      }
      if exists i :: 0 <= i < |props| && props[i].1.PFiles? && u in props[i].1.files {
        var i :| 0 <= i < |props| && props[i].1.PFiles? && u in props[i].1.files;
        if i < |init| { assert init[i] == props[i]; }
      }
    }
  }

  /**
   * The inner loop of `parse_db_entry_properties`: for each property but the
   * title, its key is set to `''`, then, for a type with a handler, the
   * files are appended and the key set to the handler's markdown.
   */
  method EntryProperties(props: seq<(string, PropValue)>, files0: seq<string>, env: Env)
    returns (md: StrDict, files: seq<string>)
    requires PropsOk(props)
    ensures md == PropsMd(props, env)
    ensures files == files0 + PropFiles(props)
  {
    md := [];
    files := files0;
    for i := 0 to |props|
      invariant md == PropsMd(props[..i], env)
      invariant files == files0 + PropFiles(props[..i])
    {
      md, files := NextProperty(props, files0, env, i, md, files);
    }
    assert props[..|props|] == props;
  }

  /** The loop of `EntryProperties` taking the `i`-th property. */
  method NextProperty(props: seq<(string, PropValue)>, files0: seq<string>, env: Env, i: nat, md0: StrDict, filesIn: seq<string>)
    returns (md: StrDict, files: seq<string>)
    requires PropsOk(props) && i < |props|
    requires PropsOk(props[..i]) && md0 == PropsMd(props[..i], env) && filesIn == files0 + PropFiles(props[..i])
    ensures PropsOk(props[..i + 1]) && md == PropsMd(props[..i + 1], env)
    ensures files == files0 + PropFiles(props[..i + 1])
  {
    PropsStep(props, env, i);
    ghost var added := if props[i].1.PFiles? then props[i].1.files else [];
    ghost var before := PropFiles(props[..i]);
    md, files := AddProperty(md0, filesIn, props[i].0, props[i].1, env);
    ConcatAssoc(files0, before, added);
  }

  /** Taking one more property into the bag adds its key and its files. */
  lemma PropsStep(props: seq<(string, PropValue)>, env: Env, i: nat)
    requires PropsOk(props) && i < |props|
    ensures PropsOk(props[..i]) && PropsOk(props[..i + 1]) && PropOk(props[i].1)
    ensures PropsMd(props[..i + 1], env) ==
      if props[i].1.PTitle? then PropsMd(props[..i], env) else Put(PropsMd(props[..i], env), props[i].0, PropertyMd(props[i].1, env))
    ensures PropFiles(props[..i + 1]) == PropFiles(props[..i]) + if props[i].1.PFiles? then props[i].1.files else []
  {
    assert props[..i + 1][..i] == props[..i];
    assert props[..i + 1][i] == props[i];
  }

  /** One turn of that loop, for the property `name` with value `p`. */
  method AddProperty(md0: StrDict, files0: seq<string>, name: string, p: PropValue, env: Env)
    returns (md: StrDict, files: seq<string>)
    requires PropOk(p)
    ensures md == if p.PTitle? then md0 else Put(md0, name, PropertyMd(p, env))
    ensures files == files0 + if p.PFiles? then p.files else []
  {
    md, files := md0, files0;
    if !p.PTitle? {
      md := Put(md, name, "");
      if !p.POther? {
        if p.PFiles? {
          for j := 0 to |p.files|
            invariant files == files0 + p.files[..j]
          {
            assert p.files[..j + 1] == p.files[..j] + [p.files[j]];
            files := files + [p.files[j]];
          }
          assert p.files[..|p.files|] == p.files;
        }
        var v := PropertyMarkdown(p, env);
        PutTwice(md0, name, "", v);
        md := Put(md, name, v);
      } else {
        assert PropertyMd(p, env) == "";
      }
    }
  }

  /** The record `parse_db_entry_properties` leaves for a database entry with the given raw properties. */
  function EntryRecord(page: Page, props: seq<(string, PropValue)>, env: Env): Page
    requires PropsOk(props)
  {
    page.(properties := Some(props), propertiesMd := Some(PropsMd(props, env)), files := page.files + PropFiles(props))
  }

  /** Every database entry has a raw record whose properties the handlers accept. */
  ghost predicate EntriesReady(pages: map<Id, Page>, raw: Raw) {
    forall id :: id in pages && pages[id].kind == DbEntryKind ==>
      id in raw.pages && PropsOk(raw.pages[id].properties)
  }

  /** The table after `parse_db_entry_properties`: database entries rebuilt, every other record as it was. */
  function WithProperties(pages: map<Id, Page>, raw: Raw, env: Env): (r: map<Id, Page>)
    requires EntriesReady(pages, raw)
    ensures r.Keys == pages.Keys
  {
    map x | x in pages :: if pages[x].kind == DbEntryKind then EntryRecord(pages[x], raw.pages[x].properties, env) else pages[x]
  }

  /**
   * After the pass a database entry keeps everything but its properties,
   * their markdown and its files; it holds its raw properties, markdown keyed
   * by exactly its non-title property names, and its old files followed by
   * the files of its files properties. Other records are untouched.
   */
  lemma WithPropertiesShape(pages: map<Id, Page>, raw: Raw, env: Env, id: Id)
    requires EntriesReady(pages, raw) && id in pages
    ensures var r := WithProperties(pages, raw, env)[id];
      if pages[id].kind == DbEntryKind then
        && r.(properties := pages[id].properties, propertiesMd := pages[id].propertiesMd, files := pages[id].files) == pages[id]
        && r.properties == Some(raw.pages[id].properties)
        && r.propertiesMd.Some? && Keys(r.propertiesMd.value) == MdNames(raw.pages[id].properties)
        && DistinctKeys(r.propertiesMd.value)
        && r.files[..|pages[id].files|] == pages[id].files
      else r == pages[id]
  {
    if pages[id].kind == DbEntryKind {
      PropsMdKeys(raw.pages[id].properties, env);
    }
  }

  /** One record of `parse_db_entry_properties`. */
  method SetEntryProperties(site: Site, id: Id, raw: Raw, env: Env)
    requires id in site.pages
    requires site.pages[id].kind == DbEntryKind ==> id in raw.pages && PropsOk(raw.pages[id].properties)
    modifies site`pages
    ensures site.pages == old(site.pages)[id :=
      if old(site.pages)[id].kind == DbEntryKind
      then EntryRecord(old(site.pages)[id], raw.pages[id].properties, env) else old(site.pages)[id]]
  {
    if site.pages[id].kind == DbEntryKind {
      var props := raw.pages[id].properties;
      var md, files := EntryProperties(props, site.pages[id].files, env);
      site.pages := site.pages[id := site.pages[id].(properties := Some(props), propertiesMd := Some(md), files := files)];
    }
  }

  /** `parse_db_entry_properties` */
  method ParseDbEntryProperties(site: Site, raw: Raw, env: Env)
    requires Keyed(site.order, site.pages) && EntriesReady(site.pages, raw)
    modifies site`pages
    ensures site.pages == WithProperties(old(site.pages), raw, env)
  {
    ghost var start := site.pages;
    ghost var target := WithProperties(start, raw, env);
    OverlayEnds(site.order, start, target);
    var i := 0;
    while i < |site.order|
      invariant 0 <= i <= |site.order|
      invariant site.pages == Overlay(start, target, site.order[..i])
    {
      PropertiesNext(site, raw, env, start, target, i);
      i := i + 1;
    }
    OverlayEnds(site.order, start, target);
  }

  /** The loop body of `parse_db_entry_properties`: the next record in table order gets its properties. */
  method PropertiesNext(site: Site, raw: Raw, env: Env, ghost start: map<Id, Page>, ghost target: map<Id, Page>, i: nat)
    requires Keyed(site.order, start) && EntriesReady(start, raw) && target == WithProperties(start, raw, env)
    requires i < |site.order|
    requires site.pages == Overlay(start, target, site.order[..i])
    modifies site`pages
    ensures site.pages == Overlay(start, target, site.order[..i + 1])
  {
    var id := site.order[i];
    OverlayStep(site.order, start, target, i);
    SetEntryProperties(site, id, raw, env);
  }
}
