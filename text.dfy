/**
 * The pieces of Python's string library that the core relies on:
 * `str.lower()`, `str.split()` without arguments, and substring search
 * (`icontains`).
 */
module Text {

  /** Lower case of one character: ASCII A-Z and the upper-case letters of
      Latin-1 (U+00C0..U+00DE, except the multiplication sign U+00D7), which
      include every accented capital used in Portuguese (À Á Â Ã Ç É Ê Í Ó Ô Õ Ú). */
  function LowerChar(c: char): char
  {
    if 'A' <= c <= 'Z' || ('\U{C0}' <= c <= '\U{DE}' && c != '\U{D7}') then
      (c as int + 32) as char
    else
      c
  }

  function Lower(s: string): (r: string)
    ensures |r| == |s|
    ensures forall i :: 0 <= i < |s| ==> r[i] == LowerChar(s[i])
  {
    seq(|s|, i requires 0 <= i < |s| => LowerChar(s[i]))
  }

  lemma LowerCharIdempotent(c: char)
    ensures LowerChar(LowerChar(c)) == LowerChar(c)
  {
  }

  /** Lower-casing twice is lower-casing once. */
  lemma LowerIdempotent(s: string)
    ensures Lower(Lower(s)) == Lower(s)
  {
    forall i | 0 <= i < |s|
      ensures Lower(Lower(s))[i] == Lower(s)[i]
    {
      LowerCharIdempotent(s[i]);
    }
  }

  lemma LowerAppend(a: string, b: string)
    ensures Lower(a + b) == Lower(a) + Lower(b)
  {
    assert forall i :: 0 <= i < |a + b| ==> Lower(a + b)[i] == (Lower(a) + Lower(b))[i];
  }

  /** The characters Python's `str.isspace()` accepts, so the ones `str.split()` splits on. */
  predicate IsSpace(c: char)
  {
    c == ' ' || ('\t' <= c <= '\r') || ('\U{1C}' <= c <= '\U{1F}') ||
    c == '\U{85}' || c == '\U{A0}' || c == '\U{1680}' || ('\U{2000}' <= c <= '\U{200A}') ||
    c == '\U{2028}' || c == '\U{2029}' || c == '\U{202F}' || c == '\U{205F}' || c == '\U{3000}'
  }

  predicate NoSpace(w: string)
  {
    forall i :: 0 <= i < |w| ==> !IsSpace(w[i])
  }

  /** `s` with every whitespace character removed. */
  function StripSpaces(s: string): string
  {
    if s == [] then [] else (if IsSpace(s[0]) then [] else [s[0]]) + StripSpaces(s[1..])
  }

  function Concat(ws: seq<string>): string
  {
    if ws == [] then [] else ws[0] + Concat(ws[1..])
  }

  lemma {:induction false} ConcatAppend(a: seq<string>, b: seq<string>)
    ensures Concat(a + b) == Concat(a) + Concat(b)
  {
    if a == [] {
      assert a + b == b;
    } else {
      assert (a + b)[0] == a[0];
      assert (a + b)[1..] == a[1..] + b;
      ConcatAppend(a[1..], b);
      assert Concat(a + b) == a[0] + (Concat(a[1..]) + Concat(b));
    }
  }

  /** Splitting `s`, where `current` is the word read so far. */
  function SplitFrom(s: string, current: string): (ws: seq<string>)
    requires NoSpace(current)
    ensures forall k :: 0 <= k < |ws| ==> ws[k] != [] && NoSpace(ws[k])
    decreases |s|
  {
    if s == [] then
      (if current == [] then [] else [current])
    else if IsSpace(s[0]) then
      (if current == [] then [] else [current]) + SplitFrom(s[1..], [])
    else
      SplitFrom(s[1..], current + [s[0]])
  }

  /** A run of non-whitespace characters is read into the current word. */
  lemma {:induction false} SplitFromWord(w: string, rest: string, current: string)
    requires NoSpace(current) && NoSpace(w)
    ensures NoSpace(current + w)
    ensures SplitFrom(w + rest, current) == SplitFrom(rest, current + w)
    decreases |w|
  {
    if w == [] {
      assert w + rest == rest && current + w == current;
    } else {
      assert (w + rest)[0] == w[0] && (w + rest)[1..] == w[1..] + rest;
      assert NoSpace(current + [w[0]]);
      SplitFromWord(w[1..], rest, current + [w[0]]);
      assert current + [w[0]] + w[1..] == current + w;
    }
  }

  /** Python's `s.split()`: the maximal runs of non-whitespace characters. */
  function Words(s: string): (ws: seq<string>)
    ensures forall k :: 0 <= k < |ws| ==> ws[k] != [] && NoSpace(ws[k])
  {
    SplitFrom(s, [])
  }

  lemma {:induction false} SplitFromKeepsCharacters(s: string, current: string)
    requires NoSpace(current)
    ensures Concat(SplitFrom(s, current)) == current + StripSpaces(s)
    decreases |s|
  {
    if s == [] {
    } else if IsSpace(s[0]) {
      var head: seq<string> := if current == [] then [] else [current];
      SplitFromKeepsCharacters(s[1..], []);
      ConcatAppend(head, SplitFrom(s[1..], []));
    } else {
      SplitFromKeepsCharacters(s[1..], current + [s[0]]);
    }
  }

  /** Together with the postcondition of `Words`, the words are exactly the
      non-whitespace characters of `s`, in order, cut at whitespace. */
  lemma WordsKeepCharacters(s: string)
    ensures Concat(Words(s)) == StripSpaces(s)
  {
    SplitFromKeepsCharacters(s, []);
  }

  /** A word ends exactly at the first whitespace character after it. */
  lemma WordsSplitAtSpace(a: string, c: char, b: string)
    requires a != [] && NoSpace(a) && IsSpace(c)
    ensures Words(a + [c] + b) == [a] + Words(b)
  {
    SplitFromWord(a, [c] + b, []);
    assert a + [c] + b == a + ([c] + b);
    assert [] + a == a;
    assert ([c] + b)[0] == c && ([c] + b)[1..] == b;
  }

  /** Whitespace before the first word produces no word. */
  lemma WordsSkipSpace(c: char, b: string)
    requires IsSpace(c)
    ensures Words([c] + b) == Words(b)
  {
    assert ([c] + b)[0] == c && ([c] + b)[1..] == b;
  }

  /** A run of non-whitespace characters with nothing after it is one word. */
  lemma WordsOfOneWord(a: string)
    requires a != [] && NoSpace(a)
    ensures Words(a) == [a]
  {
    SplitFromWord(a, [], []);
    assert a + [] == a && [] + a == a;
  }

  predicate IsPrefix(p: string, s: string)
  {
    |p| <= |s| && s[..|p|] == p
  }

  /** `needle` occurs in `hay` as a contiguous substring. */
  predicate Contains(hay: string, needle: string)
    decreases |hay|
  {
    IsPrefix(needle, hay) || (hay != [] && Contains(hay[1..], needle))
  }

  lemma {:induction false} ContainsAt(hay: string, needle: string, i: nat)
    requires i + |needle| <= |hay| && hay[i..i + |needle|] == needle
    ensures Contains(hay, needle)
    decreases i
  {
    if i > 0 {
      assert hay[1..][i - 1..i - 1 + |needle|] == needle;
      ContainsAt(hay[1..], needle, i - 1);
    }
  }

  /** Django's `icontains`: substring search after lower-casing both sides. */
  predicate ContainsIgnoreCase(hay: string, needle: string)
  {
    Contains(Lower(hay), Lower(needle))
  }
}
