/**
 * The Python `str` builtins the converter relies on, each defined as Python
 * evaluates it: `sep.join`, `split`, `replace` (every non-overlapping occurrence,
 * leftmost first), `startswith`, `in`, `lstrip`/`rstrip` with a character set,
 * `isspace` and `splitlines`.
 */
module PyStr {

  /** List concatenation regrouped; stated on plain values so that a caller's terms are not unfolded. */
  lemma ConcatAssoc<T>(a: seq<T>, b: seq<T>, c: seq<T>)
    ensures a + (b + c) == (a + b) + c
  {
  }

  /** `c * n` for a single character. */
  function Chars(c: char, n: nat): (r: string)
    ensures |r| == n
    ensures forall i :: 0 <= i < n ==> r[i] == c
  {
    if n == 0 then "" else Chars(c, n - 1) + [c]
  }

  /** `s.startswith(p)` */
  predicate StartsWith(s: string, p: string) {
    |p| <= |s| && s[..|p|] == p
  }

  /** `s.endswith(p)` */
  predicate EndsWith(s: string, p: string) {
    |p| <= |s| && s[|s| - |p|..] == p
  }

  /** A suffix of the last part is a suffix of the whole. */
  lemma EndsWithAppend(a: string, b: string, p: string)
    requires EndsWith(b, p)
    ensures EndsWith(a + b, p)
  {
    assert (a + b)[|a + b| - |p|..] == b[|b| - |p|..];
  }

  /** `u in s`: some position of `s` starts an occurrence of `u`. */
  predicate Contains(s: string, u: string)
    decreases |s|
  {
    StartsWith(s, u) || (s != "" && Contains(s[1..], u))
  }

  /** `sep.join(pieces)` */
  function Join(pieces: seq<string>, sep: string): string
  {
    if |pieces| == 0 then ""
    else if |pieces| == 1 then pieces[0]
    else pieces[0] + sep + Join(pieces[1..], sep)
  }

  /** `"".join(f(x) for x in xs)` */
  function ConcatMap<T>(xs: seq<T>, f: T --> string): string
    requires forall i :: 0 <= i < |xs| ==> f.requires(xs[i])
  {
    if xs == [] then "" else ConcatMap(xs[..|xs| - 1], f) + f(xs[|xs| - 1])
  }

  /** Mapping and joining distributes over concatenation. */
  lemma {:induction false} ConcatMapAppend<T>(xs: seq<T>, ys: seq<T>, f: T --> string)
    requires forall i :: 0 <= i < |xs| ==> f.requires(xs[i])
    requires forall i :: 0 <= i < |ys| ==> f.requires(ys[i])
    ensures forall i :: 0 <= i < |xs + ys| ==> f.requires((xs + ys)[i])
    ensures ConcatMap(xs + ys, f) == ConcatMap(xs, f) + ConcatMap(ys, f)
    decreases |ys|
  {
    if ys == [] {
      assert xs + ys == xs;
    } else {
      var zs := xs + ys;
      var init := ys[..|ys| - 1];
      assert zs[..|zs| - 1] == xs + init;
      ConcatMapAppend(xs, init, f);
    }
  }

  /** `s.split(sep)`: the text between consecutive leftmost occurrences of `sep`. */
  function Split(s: string, sep: string): (r: seq<string>)
    requires sep != ""
    ensures |r| >= 1
    decreases |s|
  {
    if StartsWith(s, sep) then [""] + Split(s[|sep|..], sep)
    else if s == "" then [""]
    else
      var rest := Split(s[1..], sep);
      [[s[0]] + rest[0]] + rest[1..]
  }

  /**
   * `s.replace(old, new)`: every non-overlapping occurrence of `old`, scanning
   * from the left, becomes `new`; an empty `old` inserts `new` around every
   * character.
   */
  function Replace(s: string, pat: string, rep: string): string
    decreases |s|
  {
    if pat == "" then
      (if s == "" then rep else rep + [s[0]] + Replace(s[1..], pat, rep))
    else if StartsWith(s, pat) then rep + Replace(s[|pat|..], pat, rep)
    else if s == "" then ""
    else [s[0]] + Replace(s[1..], pat, rep)
  }

  /** `s.lstrip(chars)` */
  function LStrip(s: string, chars: set<char>): string
    decreases |s|
  {
    if s != "" && s[0] in chars then LStrip(s[1..], chars) else s
  }

  /** `s.rstrip(chars)` */
  function RStrip(s: string, chars: set<char>): string
    decreases |s|
  {
    if s != "" && s[|s| - 1] in chars then RStrip(s[..|s| - 1], chars) else s
  }

  /** `lstrip` removes the longest prefix made of `chars`, and nothing else. */
  lemma {:induction false} LStripShape(s: string, chars: set<char>)
    ensures var r := LStrip(s, chars);
      && |r| <= |s| && r == s[|s| - |r|..]
      && (r != "" ==> r[0] !in chars)
      && forall i :: 0 <= i < |s| - |r| ==> s[i] in chars
    decreases |s|
  {
    if s != "" && s[0] in chars {
      LStripShape(s[1..], chars);
      var r := LStrip(s, chars);
      forall i | 0 <= i < |s| - |r| ensures s[i] in chars {
        if i > 0 { assert s[i] == s[1..][i - 1]; }
      }
    }
  }

  /** `rstrip` removes the longest suffix made of `chars`, and nothing else. */
  lemma {:induction false} RStripShape(s: string, chars: set<char>)
    ensures var r := RStrip(s, chars);
      && |r| <= |s| && r == s[..|r|]
      && (r != "" ==> r[|r| - 1] !in chars)
      && forall i :: |r| <= i < |s| ==> s[i] in chars
    decreases |s|
  {
    if s != "" && s[|s| - 1] in chars {
      RStripShape(s[..|s| - 1], chars);
      var r := RStrip(s, chars);
      forall i | |r| <= i < |s| ensures s[i] in chars {
        if i < |s| - 1 { assert s[i] == s[..|s| - 1][i]; }
      }
    }
  }

  /** The characters for which `str.isspace` holds; `lstrip()` with no argument strips these. */
  const Whitespace: set<char> := {
    '\t', '\n', '\U{000B}', '\U{000C}', '\r', '\U{001C}', '\U{001D}', '\U{001E}', '\U{001F}', ' ',
    '\U{0085}', '\U{00A0}', '\U{1680}', '\U{2000}', '\U{2001}', '\U{2002}', '\U{2003}', '\U{2004}',
    '\U{2005}', '\U{2006}', '\U{2007}', '\U{2008}', '\U{2009}', '\U{200A}', '\U{2028}', '\U{2029}',
    '\U{202F}', '\U{205F}', '\U{3000}'}

  /** The line boundaries of `str.splitlines` (a `\r\n` pair counts as one). */
  const LineBreaks: set<char> := {
    '\n', '\r', '\U{000B}', '\U{000C}', '\U{001C}', '\U{001D}', '\U{001E}', '\U{0085}', '\U{2028}', '\U{2029}'}

  /** The first line boundary at or after `i`, or `|s|` when there is none. */
  function LineEnd(s: string, i: nat): (j: nat)
    requires i <= |s|
    ensures i <= j <= |s|
    decreases |s| - i
  {
    if i == |s| || s[i] in LineBreaks then i else LineEnd(s, i + 1)
  }

  /** The line boundary found is the first one: none lies between `i` and it. */
  lemma {:induction false} LineEndShape(s: string, i: nat)
    requires i <= |s|
    ensures var j := LineEnd(s, i);
      && (j < |s| ==> s[j] in LineBreaks)
      && forall k :: i <= k < j ==> s[k] !in LineBreaks
    decreases |s| - i
  {
    if i < |s| && s[i] !in LineBreaks {
      LineEndShape(s, i + 1);
    }
  }

  /** `s.splitlines()`: the lines without their terminators; no empty line after a final terminator. */
  function SplitLines(s: string): seq<string>
    decreases |s|
  {
    if s == "" then []
    else
      var i := LineEnd(s, 0);
      if i == |s| then [s]
      else
        var next := if s[i] == '\r' && i + 1 < |s| && s[i + 1] == '\n' then i + 2 else i + 1;
        [s[..i]] + SplitLines(s[next..])
  }

  /** No line of `s.splitlines()` contains a line boundary. */
  lemma {:induction false} SplitLinesNoBreaks(s: string)
    ensures forall k, c :: 0 <= k < |SplitLines(s)| && c in SplitLines(s)[k] ==> c !in LineBreaks
    decreases |s|
  {
    if s != "" {
      var i := LineEnd(s, 0);
      LineEndShape(s, 0);
      if i < |s| {
        var next := if s[i] == '\r' && i + 1 < |s| && s[i + 1] == '\n' then i + 2 else i + 1;
        SplitLinesNoBreaks(s[next..]);
        assert SplitLines(s) == [s[..i]] + SplitLines(s[next..]);
      }
    }
  }

  lemma JoinCons(x: string, rest: seq<string>, sep: string)
    requires |rest| >= 1
    ensures Join([x] + rest, sep) == x + sep + Join(rest, sep)
  {
    assert ([x] + rest)[1..] == rest;
  }

  /** Joining without a separator: one more piece appends it. */
  lemma {:induction false} JoinSnocEmpty(pieces: seq<string>, x: string)
    ensures Join(pieces + [x], "") == Join(pieces, "") + x
    decreases |pieces|
  {
    if |pieces| == 0 {
      assert pieces + [x] == [x];
    } else if |pieces| == 1 {
      assert (pieces + [x])[1..] == [x];
    } else {
      JoinSnocEmpty(pieces[1..], x);
      assert (pieces + [x])[1..] == pieces[1..] + [x];
    }
  }

  /** Prepending a character to the first piece prepends it to the joined string. */
  lemma JoinHeadCons(c: char, pieces: seq<string>, sep: string)
    requires |pieces| >= 1
    ensures Join([[c] + pieces[0]] + pieces[1..], sep) == [c] + Join(pieces, sep)
  {
    var ps := [[c] + pieces[0]] + pieces[1..];
    if |pieces| > 1 {
      assert ps[1..] == pieces[1..];
      calc {
        Join(ps, sep);
        ([c] + pieces[0]) + sep + Join(pieces[1..], sep);
        [c] + (pieces[0] + sep + Join(pieces[1..], sep));
      }
    }
  }

  /** Joining the pieces of a split with the same separator gives the string back. */
  lemma {:induction false} JoinSplit(s: string, sep: string)
    requires sep != ""
    ensures Join(Split(s, sep), sep) == s
    decreases |s|
  {
    if StartsWith(s, sep) {
      var tail := s[|sep|..];
      JoinSplit(tail, sep);
      JoinCons("", Split(tail, sep), sep);
      assert s == sep + tail;
    } else if s != "" {
      JoinSplit(s[1..], sep);
      JoinHeadCons(s[0], Split(s[1..], sep), sep);
      assert s == [s[0]] + s[1..];
    }
  }

  /**
   * `s.replace(old, new)` is `new.join(s.split(old))`: the occurrences of `old`
   * that `split` cuts at are exactly the ones replaced, and the text between
   * them is kept as it was.
   */
  lemma {:induction false} ReplaceIsSplitJoin(s: string, pat: string, rep: string)
    requires pat != ""
    ensures Replace(s, pat, rep) == Join(Split(s, pat), rep)
    decreases |s|
  {
    if StartsWith(s, pat) {
      ReplaceIsSplitJoin(s[|pat|..], pat, rep);
      JoinCons("", Split(s[|pat|..], pat), rep);
    } else if s != "" {
      ReplaceIsSplitJoin(s[1..], pat, rep);
      JoinHeadCons(s[0], Split(s[1..], pat), rep);
    }
  }

  lemma {:induction false} SplitHeadIsPrefix(s: string, sep: string)
    requires sep != ""
    ensures StartsWith(s, Split(s, sep)[0])
    decreases |s|
  {
    if StartsWith(s, sep) {
    } else if s == "" {
    } else {
      SplitHeadIsPrefix(s[1..], sep);
      var h := Split(s[1..], sep)[0];
      assert s[..|h| + 1] == [s[0]] + s[1..][..|h|];
    }
  }

  lemma {:induction false} ContainsPrefix(s: string, t: string, u: string)
    requires StartsWith(t, s)
    requires Contains(s, u)
    ensures Contains(t, u)
    decreases |s|
  {
    if StartsWith(s, u) {
      assert t[..|u|] == s[..|u|];
    } else {
      ContainsPrefix(s[1..], t[1..], u);
    }
  }

  lemma {:induction false} ContainsCons(c: char, s: string, u: string)
    requires Contains([c] + s, u)
    requires !StartsWith([c] + s, u)
    ensures Contains(s, u)
  {
    assert ([c] + s)[1..] == s;
  }

  /** No piece of `s.split(sep)` contains `sep`: every occurrence was cut at. */
  lemma {:induction false} SplitPiecesAvoidSep(s: string, sep: string)
    requires sep != ""
    ensures forall k :: 0 <= k < |Split(s, sep)| ==> !Contains(Split(s, sep)[k], sep)
    decreases |s|
  {
    if StartsWith(s, sep) {
      SplitPiecesAvoidSep(s[|sep|..], sep);
      var rest := Split(s[|sep|..], sep);
      forall k | 0 <= k < |Split(s, sep)| ensures !Contains(Split(s, sep)[k], sep) {
        if k > 0 { assert Split(s, sep)[k] == rest[k - 1]; }
      }
    } else if s == "" {
    } else {
      SplitPiecesAvoidSep(s[1..], sep);
      var rest := Split(s[1..], sep);
      var head := [s[0]] + rest[0];
      if Contains(head, sep) {
        if StartsWith(head, sep) {
          SplitHeadIsPrefix(s[1..], sep);
          assert false;
        } else {
          ContainsCons(s[0], rest[0], sep);
          assert false;
        }
      }
      forall k | 0 <= k < |Split(s, sep)| ensures !Contains(Split(s, sep)[k], sep) {
        if k > 0 { assert Split(s, sep)[k] == rest[k]; }
      }
    }
  }

  /** Where `old` does not occur, `replace` changes nothing. */
  lemma {:induction false} ReplaceAbsent(s: string, pat: string, rep: string)
    requires pat != "" && !Contains(s, pat)
    ensures Replace(s, pat, rep) == s
    decreases |s|
  {
    if s != "" {
      ReplaceAbsent(s[1..], pat, rep);
    }
  }
}
