/**
 * The line regrouping the converter applies to a page's markdown: the items of
 * one kind of list stay together without blank lines between them, and an
 * empty line separates each change of line kind.
 */
module MarkdownGrouping {
  import opened PyStr

  /** The kind of a markdown line, read after its indentation. */
  datatype LineClass = Plain | Checkbox | Bullet | Numbered

  /** The line without its leading tabs, then without any leading whitespace. */
  function Norm(line: string): string {
    LStrip(LStrip(line, {'\t'}), Whitespace)
  }

  /**
   * A to-do item, a bulleted item, a numbered item, or anything else, decided
   * by the first of the prefixes `- [ ]`/`- [x]`, `* ` and `1. ` that the line
   * starts with once its indentation is gone.
   */
  function Classify(line: string): (c: LineClass)
    ensures var n := LStrip(line, Whitespace);
      var box := StartsWith(n, "- [ ]") || StartsWith(n, "- [x]");
      && (c == Checkbox <==> box)
      && (c == Bullet <==> !box && StartsWith(n, "* "))
      && (c == Numbered <==> !box && !StartsWith(n, "* ") && StartsWith(n, "1. "))
    ensures line == "" ==> c == Plain
  {
    TabsThenWhitespace(line);
    var n := Norm(line);
    if StartsWith(n, "- [ ]") || StartsWith(n, "- [x]") then Checkbox
    else if StartsWith(n, "* ") then Bullet
    else if StartsWith(n, "1. ") then Numbered
    else Plain
  }

  /** Stripping tabs first changes nothing when whitespace is stripped after. */
  lemma {:induction false} TabsThenWhitespace(s: string)
    ensures LStrip(LStrip(s, {'\t'}), Whitespace) == LStrip(s, Whitespace)
    decreases |s|
  {
    if s != "" && s[0] == '\t' {
      TabsThenWhitespace(s[1..]);
    }
  }

  /** Indenting a line by a tab or a space leaves its kind as it was, so nested list items keep their list's kind. */
  lemma ClassifyIndented(w: char, line: string)
    requires w in Whitespace
    ensures Classify([w] + line) == Classify(line)
  {
    TabsThenWhitespace([w] + line);
    TabsThenWhitespace(line);
    assert ([w] + line)[1..] == line;
  }

  /**
   * The regrouped lines, `prev` being the kind of the last line kept: inside
   * a list an empty line is dropped; an empty line is inserted before a line
   * whose kind differs from the last kept line's.
   */
  function Regroup(lines: seq<string>, prev: LineClass): seq<string>
  {
    if lines == [] then []
    else
      var line := lines[0];
      if prev != Plain && line == "" then Regroup(lines[1..], prev)
      else
        var c := Classify(line);
        (if c != prev then ["", line] else [line]) + Regroup(lines[1..], c)
  }

  /** `grouping(page_md)`: the regrouped lines of the page, joined by newlines. */
  function Grouped(pageMd: string): string {
    Join(Regroup(SplitLines(pageMd), Plain), "\n")
  }

  /** `grouping`, line by line. */
  method Grouping(pageMd: string) returns (r: string)
    ensures r == Grouped(pageMd)
  {
    var lines := SplitLines(pageMd);
    var fixed: seq<string> := [];
    var prev := Plain;
    var i := 0;
    while i < |lines|
      invariant 0 <= i <= |lines|
      invariant fixed + Regroup(lines[i..], prev) == Regroup(lines, Plain)
    {
      var line := lines[i];
      RegroupStep(lines, i, prev);
      if prev != Plain && line == "" {
        assert Regroup(lines[i..], prev) == Regroup(lines[i + 1..], prev);
      } else {
        ghost var before := fixed;
        var lineClass := Classify(line);
        if lineClass != prev {
          fixed := fixed + [""];
        }
        fixed := fixed + [line];
        ghost var head: seq<string> := if lineClass != prev then ["", line] else [line];
        assert fixed == before + head;
        ConcatAssoc(before, head, Regroup(lines[i + 1..], lineClass));
        prev := lineClass;
      }
      i := i + 1;
    }
    assert lines[i..] == [];
    assert fixed + [] == fixed;
    r := Join(fixed, "\n");
  }

  /** One line of the regrouping loop. */
  lemma RegroupStep(lines: seq<string>, i: nat, prev: LineClass)
    requires i < |lines|
    ensures Regroup(lines[i..], prev)
      == if prev != Plain && lines[i] == "" then Regroup(lines[i + 1..], prev)
         else (if Classify(lines[i]) != prev then ["", lines[i]] else [lines[i]]) + Regroup(lines[i + 1..], Classify(lines[i]))
  {
    assert lines[i..][1..] == lines[i + 1..];
  }

  /** The non-empty lines of `lines`, in order. */
  function NonEmpty(lines: seq<string>): seq<string> {
    if lines == [] then []
    else (if lines[0] != "" then [lines[0]] else []) + NonEmpty(lines[1..])
  }

  /** Regrouping drops and inserts only empty lines: the text lines are kept, in order. */
  lemma {:induction false} RegroupKeepsText(lines: seq<string>, prev: LineClass)
    ensures NonEmpty(Regroup(lines, prev)) == NonEmpty(lines)
    decreases |lines|
  {
    if lines != [] {
      var line := lines[0];
      if prev != Plain && line == "" {
        RegroupKeepsText(lines[1..], prev);
      } else {
        var c := Classify(line);
        var rest := Regroup(lines[1..], c);
        RegroupKeepsText(lines[1..], c);
        var head: seq<string> := if c != prev then ["", line] else [line];
        NonEmptyAppend(head, rest);
        NonEmptyAppend([line], lines[1..]);
        assert lines == [line] + lines[1..];
        if c != prev {
          NonEmptyAppend([""], [line]);
          assert head == [""] + [line];
        }
      }
    }
  }

  lemma {:induction false} NonEmptyAppend(a: seq<string>, b: seq<string>)
    ensures NonEmpty(a + b) == NonEmpty(a) + NonEmpty(b)
    decreases |a|
  {
    if a == [] {
      assert a + b == b;
    } else {
      NonEmptyAppend(a[1..], b);
      assert (a + b)[1..] == a[1..] + b;
    }
  }

  /** Two adjacent non-empty lines of the result have the same kind. */
  predicate AdjacentAlike(out: seq<string>) {
    forall k :: 0 <= k < |out| - 1 && out[k] != "" && out[k + 1] != "" ==> Classify(out[k]) == Classify(out[k + 1])
  }

  /**
   * Lines of different kinds are never adjacent in the result: each change of
   * kind has an empty line before it.
   */
  lemma {:induction false} RegroupSeparatesKinds(lines: seq<string>, prev: LineClass)
    ensures var out := Regroup(lines, prev);
      && AdjacentAlike(out)
      && (|out| > 0 && out[0] != "" ==> Classify(out[0]) == prev)
    decreases |lines|
  {
    if lines != [] {
      var line := lines[0];
      if prev != Plain && line == "" {
        RegroupSeparatesKinds(lines[1..], prev);
      } else {
        var c := Classify(line);
        var rest := Regroup(lines[1..], c);
        RegroupSeparatesKinds(lines[1..], c);
        var head: seq<string> := if c != prev then ["", line] else [line];
        var out := head + rest;
        assert out == Regroup(lines, prev);
        forall k | 0 <= k < |out| - 1 && out[k] != "" && out[k + 1] != ""
          ensures Classify(out[k]) == Classify(out[k + 1])
        {
          if k >= |head| {
            assert out[k] == rest[k - |head|] && out[k + 1] == rest[k + 1 - |head|];
          } else if k + 1 == |head| {
            assert out[k] == line && out[k + 1] == rest[0];
          }
        }
      }
    }
  }

  /** The kind of the line kept before position `k` of the result, `prev` before the first. */
  function Before(out: seq<string>, prev: LineClass, k: nat): LineClass
    requires k <= |out|
  {
    if k == 0 then prev else Classify(out[k - 1])
  }

  /**
   * Inside a list nothing is blank: an empty line that follows a list item is
   * the separator before a non-empty line of another kind.
   */
  predicate ListsUnbroken(out: seq<string>, prev: LineClass) {
    forall k :: 0 <= k < |out| && out[k] == "" && Before(out, prev, k) != Plain ==>
      k + 1 < |out| && out[k + 1] != "" && Classify(out[k + 1]) != Before(out, prev, k)
  }

  lemma {:induction false} RegroupListsUnbroken(lines: seq<string>, prev: LineClass)
    ensures ListsUnbroken(Regroup(lines, prev), prev)
    decreases |lines|
  {
    if lines != [] {
      var line := lines[0];
      if prev != Plain && line == "" {
        RegroupListsUnbroken(lines[1..], prev);
      } else {
        var c := Classify(line);
        var rest := Regroup(lines[1..], c);
        RegroupListsUnbroken(lines[1..], c);
        UnbrokenCons(prev, line, rest);
        assert (if c != prev then ["", line] else [line]) + rest == Regroup(lines, prev);
      }
    }
  }

  /** A kept line, with the separator a change of kind puts before it, in front of an unbroken rest. */
  lemma UnbrokenCons(prev: LineClass, line: string, rest: seq<string>)
    requires prev == Plain || line != ""
    requires ListsUnbroken(rest, Classify(line))
    ensures var c := Classify(line);
      ListsUnbroken((if c != prev then ["", line] else [line]) + rest, prev)
  {
    var c := Classify(line);
    var head: seq<string> := if c != prev then ["", line] else [line];
    var out := head + rest;
    forall k | 0 <= k < |out| && out[k] == "" && Before(out, prev, k) != Plain
      ensures k + 1 < |out| && out[k + 1] != "" && Classify(out[k + 1]) != Before(out, prev, k)
    {
      if k >= |head| {
        var j := k - |head|;
        assert out[k] == rest[j];
        assert out[k - 1] == (if j == 0 then line else rest[j - 1]);
        assert Before(out, prev, k) == Before(rest, c, j);
        assert j + 1 < |rest| ==> out[k + 1] == rest[j + 1];
      } else if k + 1 < |head| {
        assert out[k + 1] == line;
      } else {
        assert false;
      }
    }
  }

  /** A blank line inside a bulleted list is dropped; one is inserted before the list and after it. */
  lemma RegroupListExample()
    ensures Regroup(["* a", "", "* b", "c"], Plain) == ["", "* a", "* b", "", "c"]
  {
    var lines := ["* a", "", "* b", "c"];
    assert LStrip("* a", {'\t'}) == "* a" && LStrip("* a", Whitespace) == "* a";
    assert LStrip("* b", {'\t'}) == "* b" && LStrip("* b", Whitespace) == "* b";
    assert LStrip("c", {'\t'}) == "c" && LStrip("c", Whitespace) == "c";
    assert lines[1..] == ["", "* b", "c"] && lines[1..][1..] == ["* b", "c"] && lines[1..][1..][1..] == ["c"];
  }
}
