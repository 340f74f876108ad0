/**
  Character classes and the string operations the source relies on:
  Python's `str.strip()` and `str.split(",")`, and JavaScript's
  `String.prototype.trim()` and `split(/\s+/)`.
  Both languages trim "whitespace", but the two character sets differ,
  so each is written out and the operations take the set as a parameter.
*/
module Text {

  /** Python's `str.isspace()` for a single code point. */
  predicate IsPySpace(c: char)
  {
    ('\U{9}' <= c <= '\U{D}') || ('\U{1C}' <= c <= '\U{20}') || c == '\U{85}' || c == '\U{A0}' ||
    c == '\U{1680}' || ('\U{2000}' <= c <= '\U{200A}') || c == '\U{2028}' || c == '\U{2029}' ||
    c == '\U{202F}' || c == '\U{205F}' || c == '\U{3000}'
  }

  /** ECMAScript WhiteSpace and LineTerminator: what `trim()` removes and `\s` matches. */
  predicate IsJsSpace(c: char)
  {
    ('\U{9}' <= c <= '\U{D}') || c == '\U{20}' || c == '\U{A0}' ||
    c == '\U{1680}' || ('\U{2000}' <= c <= '\U{200A}') || c == '\U{2028}' || c == '\U{2029}' ||
    c == '\U{202F}' || c == '\U{205F}' || c == '\U{3000}' || c == '\U{FEFF}'
  }

  /** True when `s` neither starts nor ends with a character of the class `sp`. */
  predicate NoEdgeSpace(s: string, sp: char -> bool)
  {
    s == [] || (!sp(s[0]) && !sp(s[|s| - 1]))
  }

  /** Number of leading characters of `s` in the class `sp`. */
  function LeadingSpaces(s: string, sp: char -> bool): (i: nat)
    ensures i <= |s|
    ensures forall k :: 0 <= k < i ==> sp(s[k])
    ensures i < |s| ==> !sp(s[i])
    decreases |s|
  {
    if |s| > 0 && sp(s[0]) then 1 + LeadingSpaces(s[1..], sp) else 0
  }

  /** Index where the run of trailing characters of `s` in the class `sp` begins. */
  function TrailingStart(s: string, sp: char -> bool): (j: nat)
    ensures j <= |s|
    ensures forall k :: j <= k < |s| ==> sp(s[k])
    ensures j > 0 ==> !sp(s[j - 1])
    decreases |s|
  {
    if |s| > 0 && sp(s[|s| - 1]) then TrailingStart(s[..|s| - 1], sp) else |s|
  }

  /**
    `s` with its leading and trailing characters of class `sp` removed:
    Python `strip()` with `IsPySpace`, JavaScript `trim()` with `IsJsSpace`.
  */
  function Trim(s: string, sp: char -> bool): (r: string)
    ensures |r| <= |s|
    ensures NoEdgeSpace(r, sp)
    ensures r == [] <==> forall k :: 0 <= k < |s| ==> sp(s[k])
    ensures forall c :: c in r ==> c in s
  {
    var i := LeadingSpaces(s, sp);
    var j := TrailingStart(s, sp);
    if i < j then s[i..j] else []
  }

  /** Trimming keeps exactly the span between the outer runs of spaces. */
  lemma TrimKeepsInterior(s: string, sp: char -> bool, i: nat, j: nat)
    requires i <= j <= |s|
    requires forall k :: 0 <= k < i ==> sp(s[k])
    requires forall k :: j <= k < |s| ==> sp(s[k])
    requires NoEdgeSpace(s[i..j], sp)
    ensures Trim(s, sp) == s[i..j]
  {
    var a := LeadingSpaces(s, sp);
    var b := TrailingStart(s, sp);
    if i < j {
      assert s[i..j][0] == s[i] && s[i..j][j - i - 1] == s[j - 1];
      assert a == i;
      assert b == j;
    } else {
      assert forall k :: 0 <= k < |s| ==> sp(s[k]);
    }
  }

  /** Trimming twice is trimming once. */
  lemma TrimIdempotent(s: string, sp: char -> bool)
    ensures Trim(Trim(s, sp), sp) == Trim(s, sp)
  {
    var t := Trim(s, sp);
    TrimKeepsInterior(t, sp, 0, |t|);
  }

  /** Python `s.split(sep)` for a one-character separator. */
  function SplitOn(s: string, sep: char): (pieces: seq<string>)
    ensures |pieces| >= 1
    ensures forall p :: p in pieces ==> sep !in p
    decreases |s|
  {
    if |s| == 0 then [""]
    else
      var rest := SplitOn(s[1..], sep);
      if s[0] == sep then [""] + rest
      else [[s[0]] + rest[0]] + rest[1..]
  }

  /** `sep.join(pieces)` in Python. */
  function Join(pieces: seq<string>, sep: char): string
  {
    if |pieces| == 0 then ""
    else if |pieces| == 1 then pieces[0]
    else pieces[0] + [sep] + Join(pieces[1..], sep)
  }

  /** Splitting on a separator loses nothing: joining the pieces gives the input back. */
  lemma {:induction false} SplitOnJoin(s: string, sep: char)
    ensures Join(SplitOn(s, sep), sep) == s
    decreases |s|
  {
    if |s| > 0 {
      var rest := SplitOn(s[1..], sep);
      SplitOnJoin(s[1..], sep);
      assert s == [s[0]] + s[1..];
      if s[0] == sep {
        var pieces := [""] + rest;
        assert SplitOn(s, sep) == pieces;
        assert pieces[1..] == rest;
        assert Join(pieces, sep) == "" + [sep] + Join(rest, sep);
      } else if |rest| == 1 {
        assert SplitOn(s, sep) == [[s[0]] + rest[0]];
      } else {
        var pieces := [[s[0]] + rest[0]] + rest[1..];
        assert SplitOn(s, sep) == pieces;
        assert pieces[1..] == rest[1..];
        assert Join(rest, sep) == rest[0] + [sep] + Join(rest[1..], sep);
        assert Join(pieces, sep) == ([s[0]] + rest[0]) + [sep] + Join(rest[1..], sep);
        assert ([s[0]] + rest[0]) + [sep] + Join(rest[1..], sep)
            == [s[0]] + (rest[0] + [sep] + Join(rest[1..], sep));
      }
    }
  }

  /** A piece without separator splits to itself. */
  lemma {:induction false} SplitOnWord(w: string, sep: char)
    requires sep !in w
    ensures SplitOn(w, sep) == [w]
    decreases |w|
  {
    if |w| > 0 {
      SplitOnWord(w[1..], sep);
      assert w == [w[0]] + w[1..];
    }
  }

  /** Splitting `w + sep + t` yields `w`, then the pieces of `t`. */
  lemma {:induction false} SplitOnCons(w: string, t: string, sep: char)
    requires sep !in w
    ensures SplitOn(w + [sep] + t, sep) == [w] + SplitOn(t, sep)
    decreases |w|
  {
    var s := w + [sep] + t;
    if |w| == 0 {
      assert s[1..] == t;
    } else {
      assert s[1..] == w[1..] + [sep] + t;
      SplitOnCons(w[1..], t, sep);
      assert w == [w[0]] + w[1..];
    }
  }

  /** Joining pieces free of the separator and splitting again gives the pieces back. */
  lemma {:induction false} JoinSplitOn(pieces: seq<string>, sep: char)
    requires |pieces| >= 1 && forall p :: p in pieces ==> sep !in p
    ensures SplitOn(Join(pieces, sep), sep) == pieces
    decreases |pieces|
  {
    if |pieces| == 1 {
      SplitOnWord(pieces[0], sep);
    } else {
      assert forall p :: p in pieces[1..] ==> p in pieces;
      JoinSplitOn(pieces[1..], sep);
      SplitOnCons(pieces[0], Join(pieces[1..], sep), sep);
      assert pieces == [pieces[0]] + pieces[1..];
    }
  }

  /** Length of the leading run of characters of `s` outside the class `sp`. */
  function WordEnd(s: string, sp: char -> bool): (i: nat)
    ensures i <= |s|
    ensures forall k :: 0 <= k < i ==> !sp(s[k])
    ensures i < |s| ==> sp(s[i])
    decreases |s|
  {
    if |s| > 0 && !sp(s[0]) then 1 + WordEnd(s[1..], sp) else 0
  }

  /**
    JavaScript `s.split(/\s+/)` (with `IsJsSpace` as `sp`): the pieces between
    maximal runs of spaces, with an empty first (last) piece when `s` starts
    (ends) with a space, and `[""]` for the empty string.
  */
  function SplitOnRuns(s: string, sp: char -> bool): (words: seq<string>)
    ensures |words| >= 1
    ensures forall j, k :: 0 <= j < |words| && 0 <= k < |words[j]| ==> !sp(words[j][k])
    decreases |s|
  {
    var i := WordEnd(s, sp);
    if i == |s| then [s]
    else
      var rest := s[i..];
      [s[..i]] + SplitOnRuns(rest[LeadingSpaces(rest, sp)..], sp)
  }

  /** A string without spaces is a single word. */
  lemma SplitOnRunsWord(w: string, sp: char -> bool)
    requires forall k :: 0 <= k < |w| ==> !sp(w[k])
    ensures SplitOnRuns(w, sp) == [w]
  {
    assert WordEnd(w, sp) == |w|;
  }

  /**
    A word, then a non-empty run of spaces, then text that does not start
    with a space: the word is the first piece and the text gives the rest.
    With the single-word case above this determines `split(/\s+/)` on every input.
  */
  lemma SplitOnRunsCons(w: string, r: string, t: string, sp: char -> bool)
    requires forall k :: 0 <= k < |w| ==> !sp(w[k])
    requires r != [] && forall k :: 0 <= k < |r| ==> sp(r[k])
    requires t == [] || !sp(t[0])
    ensures SplitOnRuns(w + r + t, sp) == [w] + SplitOnRuns(t, sp)
  {
    var s := w + r + t;
    var i := WordEnd(s, sp);
    assert s[|w|] == r[0];
    assert forall k :: 0 <= k < |w| ==> s[k] == w[k];
    assert i == |w|;
    var rest := s[i..];
    assert rest == r + t;
    var n := LeadingSpaces(rest, sp);
    assert forall k :: 0 <= k < |r| ==> rest[k] == r[k];
    assert t != [] ==> rest[|r|] == t[0];
    assert n == |r|;
    assert rest[n..] == t;
    assert s[..i] == w;
  }

  /** The words of a string that has no space at either end are all non-empty. */
  lemma {:induction false} SplitOnRunsOfTrimmed(s: string, sp: char -> bool)
    requires s != [] && NoEdgeSpace(s, sp)
    ensures forall w :: w in SplitOnRuns(s, sp) ==> w != []
    decreases |s|
  {
    var i := WordEnd(s, sp);
    if i < |s| {
      var rest := s[i..];
      var tail := rest[LeadingSpaces(rest, sp)..];
      assert rest[|rest| - 1] == s[|s| - 1];
      assert tail != [] && tail[|tail| - 1] == s[|s| - 1];
      assert !sp(tail[0]);
      SplitOnRunsOfTrimmed(tail, sp);
      assert i > 0;
    }
  }
}
