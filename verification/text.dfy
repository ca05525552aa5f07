/**
 * The text layer of `Hand.parseHandString`: `replace(/\s\s+/g, ' ')` followed by
 * `split(' ')`, over Unicode characters.
 */
module Text {

  /** The characters JavaScript's `\s` matches. */
  predicate IsWhitespace(ch: char) {
    ch == ' ' || ch == '\t' || ch == '\n' || ch == '\U{000B}' || ch == '\U{000C}' || ch == '\r'
    || ch == '\U{00A0}' || ch == '\U{1680}' || ('\U{2000}' <= ch <= '\U{200A}')
    || ch == '\U{2028}' || ch == '\U{2029}' || ch == '\U{202F}' || ch == '\U{205F}'
    || ch == '\U{3000}' || ch == '\U{FEFF}'
  }

  /** No two neighbouring characters are both whitespace. */
  predicate NoDoubleWhitespace(s: string) {
    forall i :: 1 <= i < |s| ==> !(IsWhitespace(s[i - 1]) && IsWhitespace(s[i]))
  }

  /** The characters of `s` that are not whitespace, in order. */
  function Visible(s: string): string {
    if s == [] then []
    else (if IsWhitespace(s[0]) then [] else [s[0]]) + Visible(s[1..])
  }

  /** The number of whitespace characters at the front of `s`. */
  function WhitespaceRun(s: string): (n: nat)
    ensures n <= |s|
    ensures forall i :: 0 <= i < n ==> IsWhitespace(s[i])
    ensures n < |s| ==> !IsWhitespace(s[n])
  {
    if s == [] || !IsWhitespace(s[0]) then 0 else 1 + WhitespaceRun(s[1..])
  }

  /**
   * `s.replace(/\s\s+/g, ' ')`: each maximal run of two or more whitespace
   * characters becomes one space; a lone whitespace character stays as it is.
   */
  function Collapse(s: string): (r: string)
    ensures NoDoubleWhitespace(r)
    ensures r == [] <==> s == []
    ensures r != [] ==> (IsWhitespace(r[0]) <==> IsWhitespace(s[0]))
    decreases |s|
  {
    if s == [] then []
    else if !IsWhitespace(s[0]) then [s[0]] + Collapse(s[1..])
    else
      var n := WhitespaceRun(s);
      (if n >= 2 then [' '] else [s[0]]) + Collapse(s[n..])
  }

  lemma {:induction false} VisibleOfRun(s: string, n: nat)
    requires n <= |s|
    requires forall i :: 0 <= i < n ==> IsWhitespace(s[i])
    ensures Visible(s) == Visible(s[n..])
    decreases n
  {
    if n > 0 {
      assert s[1..][n - 1..] == s[n..];
      VisibleOfRun(s[1..], n - 1);
    }
  }

  /** Collapsing whitespace keeps every other character, in order. */
  lemma {:induction false} CollapseKeepsVisible(s: string)
    ensures Visible(Collapse(s)) == Visible(s)
    decreases |s|
  {
    if s == [] {
    } else if !IsWhitespace(s[0]) {
      CollapseKeepsVisible(s[1..]);
      assert Visible([s[0]] + Collapse(s[1..])) == [s[0]] + Visible(Collapse(s[1..]));
    } else {
      var n := WhitespaceRun(s);
      var head: string := if n >= 2 then [' '] else [s[0]];
      CollapseKeepsVisible(s[n..]);
      VisibleOfRun(s, n);
      assert Visible(head + Collapse(s[n..])) == Visible(Collapse(s[n..])) by {
        assert (head + Collapse(s[n..]))[1..] == Collapse(s[n..]);
      }
    }
  }

  /** A string without neighbouring whitespace is left unchanged, so collapsing is idempotent. */
  lemma {:induction false} CollapseFixedPoint(s: string)
    requires NoDoubleWhitespace(s)
    ensures Collapse(s) == s
    decreases |s|
  {
    if s != [] {
      assert NoDoubleWhitespace(s[1..]);
      if IsWhitespace(s[0]) {
        assert WhitespaceRun(s) == 1 by {
          if |s| > 1 { assert !IsWhitespace(s[1]); }
        }
      }
      CollapseFixedPoint(s[1..]);
      assert s == [s[0]] + s[1..];
    }
  }

  lemma CollapseIdempotent(s: string)
    ensures Collapse(Collapse(s)) == Collapse(s)
  {
    CollapseFixedPoint(Collapse(s));
  }

  /** No character of `s` is whitespace. */
  predicate NoWhitespace(s: string) {
    forall i :: 0 <= i < |s| ==> !IsWhitespace(s[i])
  }

  /** Every character of `s` is whitespace. */
  predicate AllWhitespace(s: string) {
    forall i :: 0 <= i < |s| ==> IsWhitespace(s[i])
  }

  lemma {:induction false} WhitespaceRunOf(run: string, rest: string)
    requires AllWhitespace(run)
    requires rest == [] || !IsWhitespace(rest[0])
    ensures WhitespaceRun(run + rest) == |run|
    decreases |run|
  {
    if run == [] {
      assert run + rest == rest;
    } else {
      assert (run + rest)[1..] == run[1..] + rest;
      WhitespaceRunOf(run[1..], rest);
    }
  }

  /**
   * The rewrite of a whitespace run that ends where a visible character or
   * the string begins: a run of two or more becomes a single space, a lone
   * whitespace character is kept.
   */
  lemma CollapseRun(run: string, rest: string)
    requires run != [] && AllWhitespace(run)
    requires rest == [] || !IsWhitespace(rest[0])
    ensures Collapse(run + rest) == (if |run| >= 2 then " " else run) + Collapse(rest)
  {
    WhitespaceRunOf(run, rest);
    assert (run + rest)[|run|..] == rest;
    if |run| == 1 {
      assert [(run + rest)[0]] == run;
    }
  }

  /** Characters other than whitespace pass through the replacement unchanged. */
  lemma {:induction false} CollapseWord(word: string, rest: string)
    requires NoWhitespace(word)
    ensures Collapse(word + rest) == word + Collapse(rest)
    decreases |word|
  {
    if word == [] {
      assert word + rest == rest;
    } else {
      assert (word + rest)[1..] == word[1..] + rest;
      CollapseWord(word[1..], rest);
      assert word == [word[0]] + word[1..];
    }
  }

  /** What separates two tokens in a hand string: a space, or a run of two or more whitespace characters. */
  predicate Separator(sep: string) {
    sep == " " || (|sep| >= 2 && AllWhitespace(sep))
  }

  /** The words with `seps[k]` between `words[k]` and `words[k + 1]`. */
  function Interleave(words: seq<string>, seps: seq<string>): string
    requires |words| >= 1 && |seps| == |words| - 1
  {
    if |words| == 1 then words[0] else words[0] + seps[0] + Interleave(words[1..], seps[1..])
  }

  lemma InterleaveHead(words: seq<string>, seps: seq<string>)
    requires |words| >= 1 && |seps| == |words| - 1 && words[0] != []
    ensures Interleave(words, seps) != [] && Interleave(words, seps)[0] == words[0][0]
  {
  }

  /** A separator followed by a visible character collapses to one space. */
  lemma CollapseSeparator(sep: string, rest: string)
    requires Separator(sep)
    requires rest != [] && !IsWhitespace(rest[0])
    ensures Collapse(sep + rest) == " " + Collapse(rest)
  {
    assert AllWhitespace(sep);
    CollapseRun(sep, rest);
  }

  /**
   * Words of visible characters with separators between them collapse to the
   * words joined by single spaces: every separator becomes exactly one space
   * and the words are kept as they are.
   */
  lemma {:induction false} CollapseSeparated(words: seq<string>, seps: seq<string>)
    requires |words| >= 1 && |seps| == |words| - 1
    requires forall k :: 0 <= k < |words| ==> words[k] != [] && NoWhitespace(words[k])
    requires forall k :: 0 <= k < |seps| ==> Separator(seps[k])
    ensures Collapse(Interleave(words, seps)) == Join(words)
    decreases |words|
  {
    var w := words[0];
    if |words| == 1 {
      CollapseWord(w, []);
      assert w + [] == w;
    } else {
      var sep, tail := seps[0], Interleave(words[1..], seps[1..]);
      assert Interleave(words, seps) == w + (sep + tail);
      CollapseSeparated(words[1..], seps[1..]);
      InterleaveHead(words[1..], seps[1..]);
      CollapseSeparator(sep, tail);
      CollapseWord(w, sep + tail);
      assert Join(words) == w + " " + Join(words[1..]);
    }
  }

  /** Tokens with separators between them are the tokens `parseHandString` reads back. */
  lemma SeparatedTokens(words: seq<string>, seps: seq<string>)
    requires |words| >= 1 && |seps| == |words| - 1
    requires forall k :: 0 <= k < |words| ==> words[k] != [] && NoWhitespace(words[k])
    requires forall k :: 0 <= k < |seps| ==> Separator(seps[k])
    ensures HandTokens(Interleave(words, seps)) == words
  {
    CollapseSeparated(words, seps);
    assert forall k :: 0 <= k < |words| ==> ' ' !in words[k];
    SplitJoin(words);
  }

  /** The inverse of `Split`: the parts with one space between neighbours. */
  function Join(parts: seq<string>): string
    requires |parts| >= 1
  {
    if |parts| == 1 then parts[0] else parts[0] + " " + Join(parts[1..])
  }

  /** The number of spaces in `s`. */
  function Spaces(s: string): nat {
    if s == [] then 0 else (if s[0] == ' ' then 1 else 0) + Spaces(s[1..])
  }

  /**
   * `s.split(' ')`: the pieces between spaces, so a leading, trailing or
   * doubled space yields an empty piece and "" yields [""].
   */
  function Split(s: string): (parts: seq<string>)
    ensures |parts| == Spaces(s) + 1
    ensures forall k :: 0 <= k < |parts| ==> ' ' !in parts[k]
    ensures Join(parts) == s
  {
    if s == [] then [""]
    else
      var rest := Split(s[1..]);
      if s[0] == ' ' then
        assert Join([""] + rest) == " " + Join(rest) by {
          assert ([""] + rest)[1..] == rest;
        }
        [""] + rest
      else
        var parts := [[s[0]] + rest[0]] + rest[1..];
        assert Join(parts) == [s[0]] + Join(rest) by {
          if |rest| > 1 {
            assert parts[1..] == rest[1..];
          }
        }
        assert s == [s[0]] + s[1..];
        parts
  }

  lemma {:induction false} SplitWord(w: string, rest: string)
    requires ' ' !in w
    ensures Split(w + " " + rest) == [w] + Split(rest)
    decreases |w|
  {
    if w == [] {
      assert w + " " + rest == [' '] + rest;
      assert (w + " " + rest)[1..] == rest;
    } else {
      var s := w + " " + rest;
      assert s[0] == w[0] && s[0] != ' ';
      assert s[1..] == w[1..] + " " + rest;
      SplitWord(w[1..], rest);
      var r := Split(s[1..]);
      assert r == [w[1..]] + Split(rest);
      assert Split(s) == [[s[0]] + r[0]] + r[1..];
      assert [w[0]] + w[1..] == w;
    }
  }

  lemma {:induction false} SplitSingle(w: string)
    requires ' ' !in w
    ensures Split(w) == [w]
    decreases |w|
  {
    if w != [] {
      SplitSingle(w[1..]);
      assert [w[0]] + w[1..] == w;
    }
  }

  /** Splitting undoes joining: the round trip the tokenizer relies on. */
  lemma {:induction false} SplitJoin(parts: seq<string>)
    requires |parts| >= 1
    requires forall k :: 0 <= k < |parts| ==> ' ' !in parts[k]
    ensures Split(Join(parts)) == parts
    decreases |parts|
  {
    if |parts| == 1 {
      SplitSingle(parts[0]);
    } else {
      SplitJoin(parts[1..]);
      SplitWord(parts[0], Join(parts[1..]));
      assert [parts[0]] + parts[1..] == parts;
    }
  }

  /** The card tokens of a hand string, as `parseHandString` produces them. */
  function HandTokens(handString: string): (tokens: seq<string>)
    ensures |tokens| == Spaces(Collapse(handString)) + 1
    ensures forall k :: 0 <= k < |tokens| ==> ' ' !in tokens[k]
  {
    Split(Collapse(handString))
  }
}
