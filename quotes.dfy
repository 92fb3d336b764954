/** Straightening of typographic quotes.

    Every change of the editor's text runs `on_text_change`, which replaces the
    double quotes U+201C and U+201D by `"` and the single quotes U+2018 and
    U+2019 by `'`, one `str.replace` after the other.  This module models that
    chain of replacements and proves what it guarantees: no typographic quote
    survives, every other character stays where it was, the length is kept, and
    a second pass changes nothing. */
module Quotes {

  const LeftDouble: char := '\U{201C}'
  const RightDouble: char := '\U{201D}'
  const LeftSingle: char := '\U{2018}'
  const RightSingle: char := '\U{2019}'

  /** One of the four characters the editor corrects. */
  predicate IsCurly(c: char) {
    c == LeftDouble || c == RightDouble || c == LeftSingle || c == RightSingle
  }

  predicate HasCurly(s: string) {
    exists i :: 0 <= i < |s| && IsCurly(s[i])
  }

  /** The reference definition, one character at a time: the straight quote
      that stands for a typographic one, and every other character itself. */
  function Straighten(c: char): (d: char)
    ensures !IsCurly(d)
    ensures d != c <==> IsCurly(c)
    ensures c == LeftDouble || c == RightDouble ==> d == '"'
    ensures c == LeftSingle || c == RightSingle ==> d == '\''
  {
    if c == LeftDouble || c == RightDouble then '"'
    else if c == LeftSingle || c == RightSingle then '\''
    else c
  }

  /** Python's `s.replace(from, to)` for a one-character pattern: every
      occurrence of `from` is replaced, nothing else moves. */
  function Replace(s: string, from: char, to: char): (r: string)
    ensures |r| == |s|
    ensures forall i :: 0 <= i < |s| ==> r[i] == (if s[i] == from then to else s[i])
  {
    if s == [] then []
    else Replace(s[..|s| - 1], from, to) + [if s[|s| - 1] == from then to else s[|s| - 1]]
  }

  /** The text `on_text_change` computes from the buffer's content, as the
      source's chain of four replacements. */
  function Normalize(s: string): (r: string)
    ensures |r| == |s|
    ensures forall i :: 0 <= i < |s| ==> r[i] == Straighten(s[i])
    ensures !HasCurly(r)
  {
    Replace(Replace(Replace(Replace(s, LeftDouble, '"'), RightDouble, '"'), LeftSingle, '\''), RightSingle, '\'')
  }

  /** The buffer is left alone exactly when it holds no typographic quote:
      `content != fixed` in the source is the same test as "has a curly quote". */
  lemma NormalizeFixesExactlyStraightText(s: string)
    ensures Normalize(s) == s <==> !HasCurly(s)
  {
  }

  /** Normalising twice gives what normalising once gives, so the rewrite the
      editor performs is never followed by a second one. */
  lemma NormalizeIdempotent(s: string)
    ensures Normalize(Normalize(s)) == Normalize(s)
  {
  }

  /** Normalisation works character by character, so it distributes over
      concatenation: text typed before and after a quote is corrected alike. */
  lemma NormalizeAppend(a: string, b: string)
    ensures Normalize(a + b) == Normalize(a) + Normalize(b)
  {
  }

  /** The characters that change are exactly the typographic quotes; a double
      quote becomes `"` and a single quote `'`. */
  lemma NormalizeChangesOnlyCurly(s: string, i: nat)
    requires i < |s|
    ensures Normalize(s)[i] != s[i] <==> IsCurly(s[i])
    ensures (s[i] == LeftDouble || s[i] == RightDouble) ==> Normalize(s)[i] == '"'
    ensures (s[i] == LeftSingle || s[i] == RightSingle) ==> Normalize(s)[i] == '\''
  {
  }

  /** A sample sentence holding all four typographic quotes. */
  lemma NormalizeExample()
    ensures Normalize("He said \U{201C}hi\U{201D} and \U{2018}bye\U{2019}.") == "He said \"hi\" and 'bye'."
  {
  }
}
