# notion4ever structuring and markdown conversion, in Dafny

notion4ever turns an exported Notion workspace (a dictionary from page id to
raw page record, each with its properties and its blocks) into a
"structured notion" site description, from which static HTML is later
generated. This project models the two core files of that step:

- `notion4ever/structuring.py`: the pass sequence `structurize_notion_content`
  builds the site: page headers and parent/child links (`parse_headers`),
  list-style databases (`find_lists_in_dbs`), ancestor lines
  (`parse_family_lines`), unique page URLs (`generate_urls`), database entry
  properties as markdown (`p_*` handlers, `parse_db_entry_properties`),
  the URL rewrite after downloading files (`download_and_replace_paths`),
  chronological ordering of database children (`sorting_db_entries`) and the
  year index of dated pages (`sorting_page_by_year`);
- `notion4ever/markdown_parser.py`: the conversion of Notion blocks and rich
  text to markdown (`block_convertor`, `blocks_convertor`,
  `information_collector`, the block formatters, `richtext_word_converter`,
  `richtext_convertor`), the line-regrouping post-pass (`grouping`) and
  `parse_markdown`, which fills every page's `md_content`.

The structured notion is the class `SiteModel.Site`: its fields `order`,
`pages`, `urls`, `rootId`, `includeFooter` and `sortedIdByYear` are the
dictionary's keys, and each pass is a method that updates the fields in
place, as the Python functions mutate the shared dictionary. Each pass is
proved equal to a specification function over the old state, and the
properties the program relies on are proved about those functions. Python's
insertion-ordered dictionaries are association lists (`PyDict`), `sorted`
is a stable insertion sort (`PySorted`), and the `str` methods used
(`split`, `join`, `replace`, `strip`, `splitlines`) are written out in
`PyStr`. Date parsing, `strftime`, URL parsing and the download outcome are
functions held in an `Externals.Env` value passed to the passes.

The whole run is `Structuring.StructurizeNotionContent`: starting from the
raw export, the site it builds has exactly the pages, URL list and year
index of the ghost function `Structuring.Build`, which composes the pass
specifications stage by stage; `Structuring.BuiltShape` collects what the
result guarantees.

## Model

| member | source | states |
|---|---|---|
| Json.SearchCons | notion4ever/structuring.py:12-32 | `recursive_search` over a dict yields the field's own value when its key matches, then the hits inside it, then the hits in the remaining fields (pre-order) |
| Json.SearchAppend | notion4ever/structuring.py:22-32 | the hits in a dict are the hits in its first fields followed by the hits in the rest |
| Json.TopLevelHit | notion4ever/structuring.py:22-25 | a top-level field with the key yields its value between the hits of the fields before and after it |
| Json.SearchLacks | notion4ever/structuring.py:12-32 | a value in which the key occurs nowhere yields no hits, whether it is a dict, a list or a scalar |
| RawNotion.ParentId | notion4ever/structuring.py:147-156 | a record's parent id is missing exactly when its parent is the workspace |
| RawNotion.PlainPropsLackTitle | notion4ever/structuring.py:125-131 | properties that are not named `title`, not title-typed and not raw payloads contain no `title` key anywhere |
| RawNotion.FirstTitleHit | notion4ever/structuring.py:125-131 | the first `title` hit in an entry's properties is the spans of the first title-typed property when no earlier property can hold a `title` key |
| Headers.KindOf | notion4ever/structuring.py:108-110 | a record is a database entry exactly when its parent is a database, whatever its `object` says |
| Headers.EntryTitle | notion4ever/structuring.py:125-131 | a database entry's title is the plain text of the first span of its title property, and None when that property has no spans |
| Headers.DatesOf | notion4ever/structuring.py:136-145 | a date is recorded exactly for a database entry whose `Date` property holds a date; it is that date's start, the end is the date's end, and an end never comes without a start |
| Headers.Header | notion4ever/structuring.py:104-187 | a header has the record's kind, title, parent id and cover, no children and no URL yet, `icon` holding the file icon's URL exactly for a file icon and `emoji` the emoji exactly for an emoji icon (never both), `date`/`dateEnd` the entry's `Date` range (`Headers.DatesOf`), the record's `last_edited_time`, and `files` holding the cover URL and then the icon file's URL, only those |
| Headers.BackLinkedOnce | notion4ever/structuring.py:158-163 | in the header table a page lists a child exactly when that child's parent id is the page, and lists each child once |
| Headers.HeaderTableUnlinked | notion4ever/structuring.py:103-189 | every record of the header table is an exported page, has no URL, and lists no child twice |
| Headers.LinkedOnce | notion4ever/structuring.py:158-163 | appending ids to their parents' `children` in raw order leaves each parent with exactly its children, each once |
| Headers.TableUpToRecord | notion4ever/structuring.py:147-163 | after the first n records, a parent's children are the ids among those n whose parent it is, in raw order |
| Headers.ChildrenIn | notion4ever/structuring.py:158-163 | the children collected from a prefix are exactly the ids in that prefix with that parent, and no more than the prefix |
| Headers.ParseHeaders | notion4ever/structuring.py:34-189 | the loop over the raw records builds the header table, each record's header with its children appended in raw order |
| Headers.TableStep | notion4ever/structuring.py:147-163 | one more record adds its header and appends its id to its parent's children, the parent being already present |
| Headers.AddRecord | notion4ever/structuring.py:159-163 | storing one header and appending its id to its parent's `children` gives the table of one more step |
| Headers.AddHeader | notion4ever/structuring.py:147-163 | one turn of the loop over the raw records takes the table after i records to the table after i + 1 |
| Hierarchy.ListsMarked | notion4ever/structuring.py:191-202 | marking list databases keeps the same pages |
| Hierarchy.ListsExactly | notion4ever/structuring.py:191-202 | only `db_list` changes; it becomes true exactly for databases with a child whose cover is None, and is never reset to false |
| Hierarchy.ListsMarkedIdempotent | notion4ever/structuring.py:191-202 | marking list databases a second time changes nothing |
| Hierarchy.FindCoverlessChild | notion4ever/structuring.py:199-202 | the inner loop finds a child without a cover exactly when one exists |
| Hierarchy.FindListsInDbs | notion4ever/structuring.py:191-202 | the pass leaves the page table equal to the marked table of the old one |
| Hierarchy.MarkDatabase | notion4ever/structuring.py:198-202 | one page is marked as a list exactly when it is a database with a coverless child; nothing else changes |
| Hierarchy.FamilyLineIsAncestors | notion4ever/structuring.py:204-211 | `parse_family_line` puts the page's ancestors, root first, in front of the line it is given |
| Hierarchy.AncestorsChain | notion4ever/structuring.py:204-211 | the ancestors are empty exactly for a page without parent; they start at a parentless page, end at the page's parent, each is the parent of the next, and all come earlier in the export |
| Hierarchy.FamilyLineSameParents | notion4ever/structuring.py:204-211 | a family line depends only on the parent links, so changing other fields does not change it |
| Hierarchy.WithFamilyLines | notion4ever/structuring.py:213-215 | giving every page its family line keeps the same pages |
| Hierarchy.ParseFamilyLines | notion4ever/structuring.py:213-215 | the pass gives every page its family line computed from the old table |
| Hierarchy.SetFamilyLine | notion4ever/structuring.py:214-215 | one page gets its family line; nothing else changes |
| Urls.Underscores | notion4ever/structuring.py:254-259 | the number of `_` appended is the first count, from where the search starts, whose URL is not taken; every smaller count is taken |
| Urls.FreshFewest | notion4ever/structuring.py:254-259 | the new URL is unused and is the base followed by the fewest underscores that make it unused |
| Urls.FreshUnused | notion4ever/structuring.py:254-259 | an unused base URL is taken as it is |
| Urls.FreshUrl | notion4ever/structuring.py:254-259 | the `while` loop appending `_` returns the fewest-underscores fresh URL for `parent_url/slug` |
| Urls.SafeSlugUnderscores | notion4ever/structuring.py:254-259 | a slug safe for concatenation stays safe with underscores appended |
| Urls.VisitFrame | notion4ever/structuring.py:217-264 | a visit only assigns URLs, and leaves pages earlier in the export than the visited one as they were |
| Urls.VisitUrls | notion4ever/structuring.py:217-264 | a visit appends as many URLs as its subtree has pages, keeps the URLs already there, appends the visited page's URL first, and keeps the list duplicate-free |
| Urls.SubtreesApart | notion4ever/structuring.py:263-264 | the subtree of a child shares no page with the subtrees of its later siblings, so the walk never reaches a page twice |
| Urls.VisitPlaces | notion4ever/structuring.py:217-264 | the k-th page of the subtree, in the order the walk visits them, gets the k-th URL the walk appends, and every page outside the subtree is left as it was |
| Urls.VisitChildrenPlaces | notion4ever/structuring.py:263-264 | the same for the walk of the children from the k-th on: each page it visits gets the URL appended at its visit, no other page changes |
| Urls.SiteUrls | notion4ever/structuring.py:219-264 | from the root: the root gets the site URL, which heads the list; the k-th page reachable from the root, in visiting order, gets the k-th URL; no page is visited twice and no URL repeats; pages not reached are left as they were |
| Urls.NewUrl | notion4ever/structuring.py:219-261 | the root's URL is the site URL and any other page's is the fresh URL for its parent's URL and its slug |
| Urls.GenerateUrls | notion4ever/structuring.py:217-264 | the recursive method leaves the pages and URL list equal to the specification walk from the old state |
| Urls.VisitChildUrls | notion4ever/structuring.py:263-264 | visiting the children in order leaves the state equal to the specification walk over the children |
| Urls.VisitChild | notion4ever/structuring.py:263-264 | walking the k-th child changes only URLs, keeps the parent's URL, and leaves the state from which the walk of the children from k + 1 on reaches the same result |
| Urls.MaxLen | notion4ever/structuring.py:257-259 | no URL is longer than the bound that makes the underscore loop end |
| Properties.DigitsRoundTrip | notion4ever/structuring.py:274-279 | the decimal digits of a natural number are nonempty, only digits, without a leading zero, and read back to the number |
| Properties.IntStrRoundTrip | notion4ever/structuring.py:274-279 | `str` of an integer reads back to the integer and starts with `-` exactly when it is negative |
| Properties.NamesMdJoin | notion4ever/structuring.py:287-291 | multi-select and people markdown is empty for no items and is the names joined with `; ` when the last name does not end in `;` or a space |
| Properties.FilesMdJoin | notion4ever/structuring.py:309-313 | files markdown is the file links joined with `; ` |
| Properties.NamesMarkdown | notion4ever/structuring.py:287-291 | the loop appending `name; ` and stripping trailing `;` and spaces computes the names markdown |
| Properties.FilesMarkdown | notion4ever/structuring.py:309-313 | the loop appending file links and stripping computes the files markdown |
| Properties.PropertyMarkdown | notion4ever/structuring.py:270-364 | the `p_*` handler of a property's type computes its markdown (checkbox `- [x]`/`- [ ]`, empty for a missing value) |
| Properties.PropsMdKeys | notion4ever/structuring.py:397-406 | an entry's `properties_md` has exactly its non-title property names as keys, each once |
| Properties.PropsMdValue | notion4ever/structuring.py:397-406 | each non-title property's markdown is its handler's output, and an unsupported type gives `''` |
| Properties.PropFilesFrom | notion4ever/structuring.py:407-409 | a URL is appended to `files` exactly when it belongs to a files-type property |
| Properties.EntryProperties | notion4ever/structuring.py:397-409 | the loop over an entry's properties builds `properties_md` and appends all files-property URLs to `files` |
| Properties.AddProperty | notion4ever/structuring.py:397-409 | one property: a title property is skipped; any other sets its key and files-type URLs are appended |
| Properties.WithPropertiesShape | notion4ever/structuring.py:371-409 | only database entries change, and only their `properties`, `properties_md` and `files`: keys are the non-title names, `files` gains the files-property URLs |
| Properties.ParseDbEntryProperties | notion4ever/structuring.py:371-409 | the pass leaves the page table equal to the specification over the old table |
| Properties.SetEntryProperties | notion4ever/structuring.py:371-409 | one page gets its properties when it is a database entry; nothing else changes |
| Localize.LocalUrl | notion4ever/structuring.py:423-424 | a file's new URL is the page URL, `/`, then the file name |
| Localize.FileStepShape | notion4ever/structuring.py:431-459 | processing file URL u: on `ValueError` nothing changes; otherwise `files[i]` becomes the new URL, other files are kept, every u in `md_content` is replaced, a database entry's `properties_md` keeps its keys and has every u in each value replaced while any other page's stays as it was, `icon`/`cover` change only when they equal u, and nothing else changes |
| Localize.RewriteValuesShape | notion4ever/structuring.py:455-459 | rewriting `properties_md` keeps its keys and replaces every occurrence of u in each value |
| Localize.LocalizedFiles | notion4ever/structuring.py:413-459 | after the first k files, each of them that downloaded (or failed with `HTTPError`) holds its new URL and the rest are unchanged; only files, markdown, icon, cover and `properties_md` change |
| Localize.RewriteProperties | notion4ever/structuring.py:456-459 | the loop over `properties_md` computes the rewritten dict |
| Localize.ReplaceFile | notion4ever/structuring.py:431-459 | one file URL of one page is rewritten; nothing else changes |
| Localize.LocalizePage | notion4ever/structuring.py:413-459 | the loop over a page's files leaves the page localized |
| Localize.DownloadAndReplacePaths | notion4ever/structuring.py:411-459 | the pass leaves every page localized from the old table |
| Ordering.SortedRecordShape | notion4ever/structuring.py:461-468 | only a database's `children` change, they stay a permutation, and they are reordered only for a database with more than one child whose first child is dated, then stably sorted by date string |
| Ordering.SortingIdempotent | notion4ever/structuring.py:461-468 | sorting database children a second time changes nothing |
| Ordering.SortEntries | notion4ever/structuring.py:463-468 | one database's children are sorted; nothing else changes |
| Ordering.SortingDbEntries | notion4ever/structuring.py:461-468 | the pass leaves the page table equal to the sorted table of the old one |
| Ordering.NewestFirstShape | notion4ever/structuring.py:472-475 | the dated pages, newest first: exactly the pages with a date, instants non-increasing, ties in table order |
| Ordering.RunsShape | notion4ever/structuring.py:478 | `groupby` splits a sequence into maximal runs of one year that concatenate back to it |
| Ordering.ByYearLosesPage | notion4ever/structuring.py:478-481 | the grouping as written, on three posts around a new year in three UTC offsets, drops a dated page (see Findings) |
| Ordering.ByYearMergedComplete | notion4ever/structuring.py:471-482 | the year index holds every dated page exactly once, in the group of its year, each year once |
| Ordering.ByYearAgree | notion4ever/structuring.py:478-481 | when a later instant never has an earlier year, the merging grouping equals the grouping as written |
| Ordering.ByYearGroups | notion4ever/structuring.py:471-482 | when years follow the time line the groups list the dated pages newest first, years strictly decreasing, each group its year's pages |
| Ordering.SortingPageByYear | notion4ever/structuring.py:471-482 | the pass sets the year index to the merging grouping of the dated pages, which differs from the grouping as written (see Findings) |
| Ordering.ExtendGroup | notion4ever/structuring.py:479-481 | appending a run's pages one by one extends its year's group by the run |
| Ordering.DatedIdsDistinct | notion4ever/structuring.py:472-473 | the dated page ids are distinct |
| PySorted.SortByKeySorted | notion4ever/structuring.py:467-468 | `sorted` returns a permutation ordered by key |
| PySorted.SortByKeyStable | notion4ever/structuring.py:467-468 | `sorted` keeps items with equal keys in their old order |
| PySorted.SortByKeyOfSorted | notion4ever/structuring.py:467-468 | sorting an already sorted sequence returns it unchanged |
| RichText.MentionContent | notion4ever/markdown_parser.py:296-307 | a mention shows its href exactly when the href is set and its plain text is `Untitled`, and its plain text otherwise |
| RichText.TextSpanNesting | notion4ever/markdown_parser.py:326-335 | a text span is link-wrapped, then wrapped by bold, italic, strikethrough, underline and code when on, then by the colour span when the colour is not `default` |
| RichText.RenderRichTextAppend | notion4ever/markdown_parser.py:339-343 | rendering two span lists in a row is rendering their concatenation |
| RichText.RenderRichTextSingle | notion4ever/markdown_parser.py:339-343 | a single span renders as that span |
| RichText.RichtextWordConverter | notion4ever/markdown_parser.py:316-336 | the method renders a span as the span rendering (equation `$ t $`, mentions, text with annotations) |
| RichText.RichtextConvertor | notion4ever/markdown_parser.py:339-343 | the loop concatenates the span renderings in order |
| Formatters.CollectInfo | notion4ever/markdown_parser.py:145-178 | a text entry exists exactly when the payload has text or an expression; a URL exactly when it has a url, external or file (file winning); an expression overrides the text |
| Formatters.PayloadFiles | notion4ever/markdown_parser.py:155-172 | a URL is registered exactly when downloads are on and it is the payload's `url`, `external` or `file` link; at most three are, the `url` first and the `file` last |
| Formatters.RowConvertor | notion4ever/markdown_parser.py:95-102 | the loop over the cells computes the row |
| Formatters.Dashes | notion4ever/markdown_parser.py:230 | the separator row has one `----` per cell of the first row |
| Formatters.ReplaceNewlineTabs | notion4ever/markdown_parser.py:211 | replacing newlines by newline plus tabs puts `depth` tabs after every newline and keeps the last character |
| Formatters.CodeIndentShape | notion4ever/markdown_parser.py:210-212 | a code fragment ends in exactly `\n\n`, with `depth` tabs after every interior newline |
| MarkdownParser.InformationCollector | notion4ever/markdown_parser.py:145-178 | the method returns the collected information and appends the payload's URLs to the page's `files` |
| MarkdownParser.BlockConvertor | notion4ever/markdown_parser.py:180-241 | the method returns the block's markdown and registers exactly the block's file URLs |
| MarkdownParser.RefConvertor | notion4ever/markdown_parser.py:187-198 | a page-reference block becomes the link to the referenced page, with its emoji, else its icon, else nothing before the title |
| MarkdownParser.OwnConvertor | notion4ever/markdown_parser.py:200-212 | the block's own fragment is its formatter's output or the "not supported" line, a code block indented to the depth, and exactly the payload's file URLs are registered |
| MarkdownParser.TableConvertor | notion4ever/markdown_parser.py:215-233 | a table renders as the header row, the separator and the later rows, then a blank line, replacing its own fragment |
| MarkdownParser.CollectRows | notion4ever/markdown_parser.py:219-225 | the loop over the rows collects each row's cells and registers their files |
| MarkdownParser.TableMarkdown | notion4ever/markdown_parser.py:227-233 | the loop writes the header line, the separator and one line per later row |
| MarkdownParser.ChildrenConvertor | notion4ever/markdown_parser.py:234-239 | each child is rendered one level deeper and prefixed by that many tabs, in order |
| MarkdownParser.BlocksConvertor | notion4ever/markdown_parser.py:136-143 | the loop concatenates the top-level blocks' markdown at depth 0 |
| MarkdownParser.BlockMdEndsBlankLine | notion4ever/markdown_parser.py:180-241 | every block's markdown ends with a blank line |
| MarkdownParser.BlocksMdEndsBlankLine | notion4ever/markdown_parser.py:136-143 | a nonempty page's markdown ends with a blank line |
| MarkdownParser.CodeBlockIndented | notion4ever/markdown_parser.py:210-212 | a childless code block ends in exactly one blank line with `depth` tabs after each interior newline |
| MarkdownParser.EmbedsNotDownloaded | notion4ever/markdown_parser.py:202-203 | embeds and videos never register a file |
| MarkdownParser.ReferencesNotDownloaded | notion4ever/markdown_parser.py:184-198 | blank paragraphs and page references never register a file |
| MarkdownParser.TidyMarkdown | notion4ever/markdown_parser.py:373-374 | the page markdown is regrouped and then has `\n\n\n` replaced by `\n\n` |
| MarkdownParser.PageConvertor | notion4ever/markdown_parser.py:371-376 | one page's `md_content` is cleared, its files registered and its markdown recorded |
| MarkdownParser.ParseMarkdown | notion4ever/markdown_parser.py:369-376 | every page of the export gets its converted markdown and registered files, all computed against the link targets of the old table |
| MarkdownParser.RefsRecorded | notion4ever/markdown_parser.py:369-376 | recording pages' markdown never changes the titles, URLs, emojis and icons that references read |
| MarkdownParser.RecordedPages | notion4ever/markdown_parser.py:369-376 | after the first n pages exactly those pages hold their converted markdown |
| MarkdownGrouping.Classify | notion4ever/markdown_parser.py:349-356 | after the leading whitespace, a line is a to-do item exactly when it starts with `- [ ]` or `- [x]`, else a bullet exactly when it starts with `* `, else numbered exactly when it starts with `1. `, else plain; an empty line is plain |
| MarkdownGrouping.ClassifyIndented | notion4ever/markdown_parser.py:350-356 | a line indented by a tab or any other whitespace has the kind of the line itself, so nested list items keep their list's kind |
| MarkdownGrouping.Grouping | notion4ever/markdown_parser.py:345-367 | the loop over the lines computes the regrouped markdown |
| MarkdownGrouping.RegroupKeepsText | notion4ever/markdown_parser.py:345-367 | regrouping keeps every nonempty line, in order |
| MarkdownGrouping.RegroupSeparatesKinds | notion4ever/markdown_parser.py:358-366 | any two adjacent nonempty output lines have the same class; an empty line is put between classes |
| MarkdownGrouping.RegroupListsUnbroken | notion4ever/markdown_parser.py:358-360 | an empty line after a list line is always followed by a nonempty line of another class, so same-class list items are never split by blank lines |
| SiteModel.Site.constructor | notion4ever/structuring.py:485-490 | a new site has the given order, pages, root and footer flag, and no URLs or year index |
| Structuring.BuildStages | notion4ever/structuring.py:484-514 | a successful build passes every stage: headers, hierarchy, URLs, content and finishing |
| Structuring.FamilyReady | notion4ever/structuring.py:103-215 | after `parse_headers`, `find_lists_in_dbs` and `parse_family_lines` no page has a URL and none lists a child twice |
| Structuring.WalkedShape | notion4ever/structuring.py:217-264 | `generate_urls` from the root over pages without URLs: the list starts with the site URL and has no duplicates, the k-th page visited gets the k-th URL, and exactly the visited pages have a URL |
| Structuring.ContentKeepsUrls | notion4ever/markdown_parser.py:369-376 | `parse_markdown` and `parse_db_entry_properties` keep every page and its URL |
| Structuring.StagesKeepUrls | notion4ever/structuring.py:500-510 | the passes after `generate_urls` assign no URL and remove none |
| Structuring.BuiltShape | notion4ever/structuring.py:484-514 | the built site keeps a record per exported page; its URL list starts with the site URL and has no duplicates; the pages reachable from the root, in the order `generate_urls` visits them, have the listed URLs in the same order, and exactly those pages have a URL; the year index holds every dated page exactly once |
| Structuring.NewSite | notion4ever/structuring.py:485-490 | the site starts with the header table, the first exported page as root and the footer flag |
| Structuring.HierarchyPasses | notion4ever/structuring.py:491-494 | `find_lists_in_dbs` then `parse_family_lines` give the table with lists marked and family lines set |
| Structuring.UrlPass | notion4ever/structuring.py:497 | `generate_urls` from the root gives the walked pages and URL list |
| Structuring.ContentPasses | notion4ever/structuring.py:500-503 | `parse_markdown` then `parse_db_entry_properties` give the content table |
| Structuring.FinishingPasses | notion4ever/structuring.py:506-510 | the optional download rewrite then `sorting_db_entries` give the finished table |
| Structuring.StructurizeNotionContent | notion4ever/structuring.py:484-514 | the whole run leaves the site with exactly the pages, URLs and year index of the staged build |

## Left out

- `notion4ever/notion2json.py`, `notion4ever/__main__.py` and `notion4ever/site_generation.py` are not part of this model (Notion API calls, command line handling, templates and file output).
- Downloading in `download_and_replace_paths`: `urlretrieve`, `mkdir`, `Path.exists` and `Path.resolve` are left out; the outcome of a download (`ok`, `HTTPError`, `ValueError`) is a function `env.fetch` of the file URL, and an already present local file is an outcome of its own, which is rewritten like `ok`.
- The `build_locally` branch of `download_and_replace_paths` is left out; only the `site_url` branch is modelled.
- `urlparse`, `unquote` and `Path(...).name` are one function `env.baseName`.
- `urljoin` (`Urls.UrlFor`, `Localize.LocalUrl`): each `urljoin` of the `site_url` branch is concatenation with `/`. `Urls.SafeSlug` requires this of the joined name: a slug or file name with no `/`, `:`, `?`, `#` or control character, no leading space, and not `.` or `..` (URL splitting deletes tabs and line breaks and strips leading control characters and spaces). The base is not constrained: a `site_url` that ends in `/` or has an empty path segment, a query or a fragment is normalised by `urljoin` (empty segments are dropped), so for such a site URL the modelled page and file URLs (`Localize.LocalUrl` included, for the root's files) differ from the program's.
- The `build_locally` branch of `generate_urls` is left out; only the `site_url` branch is modelled.
- A record without a `url` key is `url == None`; `parse_headers` sets no URL, and only `generate_urls` adds one.
- Date parsing (`dateutil.isoparse`) and formatting (`strftime`) are functions in `Externals.Env`; an instant is compared as an integer stamp, so the error Python raises when comparing naive and aware datetimes is not modelled.
- Properties.PropertyMarkdown: a number property holds an integer; Python's `str` of a float is not modelled.
- Property types without a handler keep their raw payload and render as `''`; the payload's structure is not interpreted.
- Block types are an enumeration of the kinds `block_type_map` names plus `Other(name)`; the per-kind formatters are modelled from the payload fields they read.
- Headers.EntryTitle: a database entry's title is proved for an entry whose title property comes before any property that could itself contain a `title` key (a property named `title` or an unsupported one), since `recursive_search` would otherwise find that key first.
- The crash paths of the source are not modelled as errors. Each is excluded, by a precondition or by a type, as follows:
  - `Headers.TitleOk`: a page without a `title` property, a database whose first title span has no `text`, or a database entry whose first `title` hit is not a list of spans with `plain_text` (structuring.py:112-128).
  - `Headers.DateOk`: a database entry whose `Date` property is not of date type (`["date"]` raises `KeyError`, structuring.py:138-140).
  - `Headers.CoverOk`: a cover without a `url` value (structuring.py:165-166).
  - `Headers.ParentsFirst`: a parent that does not appear before its child in the export (structuring.py:159-160).
  - `RawNotion.RawParent`: a page or database whose parent is a block (`block_id`); `page["parent"]["page_id"]` raises `KeyError` at structuring.py:152, and the type has no block parent.
  - `Urls.UrlTree`: a reached page without a title in `generate_urls`.
  - `MarkdownParser.BlockOk`: a `table_row` outside a table, a childless paragraph without rich text, a child page or database reference whose page is not in the exported table (markdown_parser.py:188), and a formatter that reads a field the payload lacks (`Formatters.Ready`).
  - `RichText.SpanOk`: a text span with a truthy `href` but no `link` (markdown_parser.py:248), and a page or database mention with an empty `href` (markdown_parser.py:288 and :294).
  - `Ordering.SortReady`: a later database child without a `date` during sorting.
  - `Localize.PageReady`: see "Files of unreached pages" below.
  - `Payload.icon`, an emoji only: a callout whose icon is not an emoji (`payload['icon']['emoji']` raises `KeyError`, markdown_parser.py:150).
  - `PFiles`, uploaded-file URLs only: an external (not uploaded) file in a `files` property (`file['file']['url']` raises `KeyError`, structuring.py:312 and :404).
  - `Env.fetch`, which has no crash outcome (only a fetched file, an HTTP error or an invalid URL): a download failing with an `OSError` other than `HTTPError`, such as `URLError`, which aborts the run (structuring.py:435-440).
- Titles of unreached pages: `Urls.UrlTree` requires the title and slug conditions of every page with a parent, also of one the walk from the root never reaches, whose title the program never reads.
- External icons: an icon dictionary with neither an `emoji` nor a `file` key (Notion's `external` icons) makes `parse_headers` raise `KeyError`; `RawNotion.RawIcon` has no such icon, so that crash is not modelled.
- References to unreached pages: a reference to a page the URL walk did not reach makes the program raise `KeyError` (the record has no `url` key); `MarkdownParser.RefLink` renders the missing URL as `None` through `MarkdownParser.Shown`.
- Files of unreached pages: a page with files but no URL makes `download_and_replace_paths` raise `KeyError`; `Localize.PageReady` requires the URL instead.
- Earlier downloads: `env.fetch` depends on the file URL only; in the program whether a local file is already present also depends on the downloads earlier in the same run, which the model does not track.
- Structuring.StructurizeNotionContent: it requires the staged build to succeed, i.e. the export satisfies those preconditions; `Build` is None otherwise.
- Logging calls and the removal of the temporary `sorted_pages` key are left out.
- Ordering.SortingPageByYear: `sortedIdByYear` is the merging grouping `Ordering.ByYearMerged` rather than the grouping as written (see Findings); `Ordering.ByYear` and `Ordering.ByYearAgree` keep the as-written behaviour and relate the two.

## Findings

| source | as written | input that shows it | evidently intended | confidence | as-written member | corrected member |
|---|---|---|---|---|---|---|
| notion4ever/structuring.py:478-481 | each `groupby` run of a year sets `sorted_id_by_year[year] = []` before appending its pages, so a year whose dates come in two runs keeps only its last run | three dated pages in three UTC offsets: a at 2021-01-01T00:30+01:00, b at 2020-12-31T23:45+00:00, c at 2021-01-01T00:00-01:00; newest first they are c (2021), b (2020), a (2021), and the index loses c | every dated page in the group of its year (`setdefault(year, []).extend(...)`), as the year index is used to list all posts | not executed; needs dates with different offsets | Ordering.ByYearLosesPage | Ordering.ByYearMergedComplete |
