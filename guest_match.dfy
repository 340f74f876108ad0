/**
  The special-guest recognition of the start form (main.js:78-157): the typed
  name and every listed guest name are normalised, split into words, and the
  first guest sharing at least two words with the input (or equal to it
  after normalisation) selects the personalised greeting.

  Unicode canonical decomposition (`String.prototype.normalize("NFD")`) is a
  browser built-in; the model takes it as the parameter `nfd`.
*/
module GuestMatch {
  import opened Wrappers
  import opened Text

  /** Combining diacritical marks, U+0300 to U+036F. */
  predicate IsCombiningMark(c: char)
  {
    '\U{300}' <= c <= '\U{36F}'
  }

  /** `.replace(/[̀-ͯ]/g, "")`. */
  function RemoveMarks(s: string): (r: string)
    ensures |r| <= |s|
    ensures forall k :: 0 <= k < |r| ==> !IsCombiningMark(r[k])
  {
    if s == [] then []
    else if IsCombiningMark(s[0]) then RemoveMarks(s[1..])
    else [s[0]] + RemoveMarks(s[1..])
  }

  /** The capital letters of Basic Latin and Latin-1 (U+00D7 is the multiplication sign). */
  predicate IsUpper(c: char)
  {
    'A' <= c <= 'Z' || ('\U{C0}' <= c <= '\U{DE}' && c != '\U{D7}')
  }

  /** Lower-case mapping of `toLowerCase` for Basic Latin and Latin-1 letters. */
  function LowerChar(c: char): char
  {
    if IsUpper(c) then (c as int + 32) as char else c
  }

  function ToLower(s: string): string
  {
    seq(|s|, k requires 0 <= k < |s| => LowerChar(s[k]))
  }

  /** No combining mark and no Basic Latin or Latin-1 capital. */
  predicate Folded(s: string)
  {
    forall k :: 0 <= k < |s| ==> !IsCombiningMark(s[k]) && !IsUpper(s[k])
  }

  /** `normalize` of main.js:105-111: decompose, drop combining marks, lower-case, trim. */
  function Normalize(s: string, nfd: string -> string): (r: string)
    ensures NoEdgeSpace(r, IsJsSpace)
  {
    var bare := RemoveMarks(nfd(s));
    var lower := ToLower(bare);
    Trim(lower, IsJsSpace)
  }

  /** A normalised name holds no combining mark and no Basic Latin or Latin-1 capital. */
  lemma NormalizeFolded(s: string, nfd: string -> string)
    ensures Folded(Normalize(s, nfd))
  {
    var bare := RemoveMarks(nfd(s));
    var lower := ToLower(bare);
    assert Folded(lower) by {
      forall k | 0 <= k < |lower| ensures !IsCombiningMark(lower[k]) && !IsUpper(lower[k]) {
        assert !IsCombiningMark(bare[k]);
      }
    }
    var r := Trim(lower, IsJsSpace);
    forall k | 0 <= k < |r| ensures !IsCombiningMark(r[k]) && !IsUpper(r[k]) {
      assert r[k] in lower;
    }
  }

  /** `str.split(/\s+/)`. */
  function Words(s: string): seq<string>
  {
    SplitOnRuns(s, IsJsSpace)
  }

  /** `inputWords.filter(word => guestWords.includes(word)).length`: repeated input words count again. */
  function MatchedWords(inputWords: seq<string>, guestWords: seq<string>): (count: nat)
    ensures count <= |inputWords|
  {
    if inputWords == [] then 0
    else (if inputWords[0] in guestWords then 1 else 0) + MatchedWords(inputWords[1..], guestWords)
  }

  /** The test of main.js:128 on two normalised names. */
  predicate NamesMatch(normalizedInput: string, normalizedGuest: string)
  {
    MatchedWords(Words(normalizedInput), Words(normalizedGuest)) >= 2 || normalizedInput == normalizedGuest
  }

  /** Whether the typed `name` selects the guest listed as `guestName`. */
  predicate Matches(name: string, guestName: string, nfd: string -> string)
  {
    NamesMatch(Normalize(name, nfd), Normalize(guestName, nfd))
  }

  datatype Guest = Guest(name: string, description: string)

  /** The entries of `specialGuests`, main.js:89-102. */
  const Guest0 := Guest("clovis dias", "o presidente do Centro Paula Souza")
  const Guest1 := Guest("maycon geres", "o vice-presidente do Centro Paula Souza.")
  const Guest2 := Guest("robson dos santos", "o coordenador geral de Ensino Superior de Graduação do Centro Paula Souza")
  const Guest3 := Guest("divanil antunes urbano", "o coordenador geral de Ensino Médio e Técnico do Centro Paula Souza")
  const Guest4 := Guest("paulo marcelo tavares ribeiro", "o gerente da Unidade de Cultura Empreendedora do Sebrae-SP")
  const Guest5 := Guest("andré velasques de oliveira", "o coordenador da Assessoria de Comunicação do Centro Paula Souza")
  const Guest6 := Guest("marcos antonio maia lavio de oliveira", "o coordenador da Fatec Itapevi")
  const Guest7 := Guest("paulo hélio kanayama", "o coordenador da Fatec Franco da Rocha")
  const Guest8 := Guest("marta da silva", "a chefe da Divisão Educacional Regional 5")
  const Guest9 := Guest("nelson hervey costa", "o diretor superintendente do Sebrae São Paulo")
  const Guest10 := Guest("marco vinholi", "o diretor técnico do Sebrae São Paulo.")
  const Guest11 := Guest("reinaldo pedro corrêa", "o diretor de administração e finanças do Sebrae São Paulo")

  /** `specialGuests`, in the object literal's order. */
  const SpecialGuests: seq<Guest> := [
    Guest0, Guest1, Guest2, Guest3, Guest4, Guest5, Guest6, Guest7, Guest8, Guest9, Guest10, Guest11
  ]

  /** Two distinct positions of the input's words hold words of the guest's name. */
  predicate SharesTwoWords(normalizedInput: string, normalizedGuest: string)
  {
    var inputWords, guestWords := Words(normalizedInput), Words(normalizedGuest);
    exists i, j :: 0 <= i < j < |inputWords| && inputWords[i] in guestWords && inputWords[j] in guestWords
  }

  /**
    The count of main.js:125 reaching two means exactly that two distinct
    input positions hold guest words (a word typed twice counts twice).
  */
  lemma NamesMatchIff(normalizedInput: string, normalizedGuest: string)
    ensures NamesMatch(normalizedInput, normalizedGuest) <==>
            normalizedInput == normalizedGuest || SharesTwoWords(normalizedInput, normalizedGuest)
  {
    var inputWords, guestWords := Words(normalizedInput), Words(normalizedGuest);
    if MatchedWords(inputWords, guestWords) >= 2 {
      HitsOfCount(inputWords, guestWords);
    }
    if SharesTwoWords(normalizedInput, normalizedGuest) {
      var i, j :| 0 <= i < j < |inputWords| && inputWords[i] in guestWords && inputWords[j] in guestWords;
      TwoHits(inputWords, guestWords, i, j);
    }
  }

  /**
    One iteration's test of main.js:118-128 against an already normalised
    input: the guest is selected exactly when the two normalised names are
    equal or two distinct input positions hold words of the guest's name.
  */
  method TestGuest(normalizedInput: string, guestName: string, nfd: string -> string) returns (isMatch: bool)
    ensures isMatch <==> normalizedInput == Normalize(guestName, nfd) || SharesTwoWords(normalizedInput, Normalize(guestName, nfd))
  {
    var normalizedGuest := Normalize(guestName, nfd);
    var inputWords := Words(normalizedInput);
    var guestWords := Words(normalizedGuest);
    var matchedWords := MatchedWords(inputWords, guestWords);
    isMatch := matchedWords >= 2 || normalizedInput == normalizedGuest;
    NamesMatchIff(normalizedInput, normalizedGuest);
  }

  /** The first index in [from, bound) that passes `test`. */
  function FirstFrom(test: nat -> bool, from: nat, bound: nat): Option<nat>
    decreases bound - from
  {
    if from >= bound then None
    else if test(from) then Some(from)
    else FirstFrom(test, from + 1, bound)
  }

  /** `FirstFrom` finds a passing index with none before it, or there is none at all. */
  lemma {:induction false} FirstFromSpec(test: nat -> bool, from: nat, bound: nat)
    ensures var r := FirstFrom(test, from, bound);
      r.Some? ==> from <= r.value < bound && test(r.value) && forall k :: from <= k < r.value ==> !test(k)
    ensures FirstFrom(test, from, bound).None? ==> forall k :: from <= k < bound ==> !test(k)
    decreases bound - from
  {
    if from < bound && !test(from) {
      FirstFromSpec(test, from + 1, bound);
    }
  }

  lemma FirstFromStep(test: nat -> bool, from: nat, bound: nat)
    requires from < bound
    ensures FirstFrom(test, from, bound) == if test(from) then Some(from) else FirstFrom(test, from + 1, bound)
  {
  }

  /** The test of main.js:128 for guest `k`. */
  function MatchTest(normalizedInput: string, guests: seq<Guest>, nfd: string -> string): nat -> bool
  {
    (k: nat) => k < |guests| && NamesMatch(normalizedInput, Normalize(guests[k].name, nfd))
  }

  /** The guest the search of main.js:117-131 settles on for the typed `name`. */
  function FirstMatch(name: string, guests: seq<Guest>, nfd: string -> string): Option<nat>
  {
    FirstFrom(MatchTest(Normalize(name, nfd), guests, nfd), 0, |guests|)
  }

  /**
    The search picks a matching guest, no earlier guest matches, and with no
    pick no guest matches at all.
  */
  lemma FirstMatchSpec(name: string, guests: seq<Guest>, nfd: string -> string)
    ensures var r := FirstMatch(name, guests, nfd);
      r.Some? ==> r.value < |guests| && Matches(name, guests[r.value].name, nfd)
    ensures var r := FirstMatch(name, guests, nfd);
      r.Some? ==> forall k :: 0 <= k < r.value ==> !Matches(name, guests[k].name, nfd)
    ensures FirstMatch(name, guests, nfd).None? ==> forall k :: 0 <= k < |guests| ==> !Matches(name, guests[k].name, nfd)
  {
    var test := MatchTest(Normalize(name, nfd), guests, nfd);
    FirstFromSpec(test, 0, |guests|);
    forall k | 0 <= k < |guests| ensures test(k) == Matches(name, guests[k].name, nfd) {
    }
  }

  /**
    The search loop of main.js:117-131 as written: guests are tried in table
    order and the loop stops at the first that matches.
  */
  method FindGuest(name: string, guests: seq<Guest>, nfd: string -> string) returns (matched: Option<nat>)
    ensures matched == FirstMatch(name, guests, nfd)
  {
    var normalizedInput := Normalize(name, nfd);
    ghost var test := MatchTest(normalizedInput, guests, nfd);
    matched := None;
    var i: nat := 0;
    while i < |guests|
      invariant i <= |guests|
      invariant FirstMatch(name, guests, nfd) == FirstFrom(test, i, |guests|)
    {
      var isMatch := TestGuest(normalizedInput, guests[i].name, nfd);
      FirstFromStep(test, i, |guests|);
      NamesMatchIff(normalizedInput, Normalize(guests[i].name, nfd));
      assert test(i) == isMatch;
      if isMatch {
        matched := Some(i);
        break;
      }
      i := i + 1;
    }
  }

  /** Whether two names are equal after normalisation. */
  predicate SameName(name: string, guestName: string, nfd: string -> string)
  {
    Normalize(name, nfd) == Normalize(guestName, nfd)
  }

  /** Whether guest `k`'s normalised name is the normalised input. */
  function ExactTest(normalizedInput: string, guests: seq<Guest>, nfd: string -> string): nat -> bool
  {
    (k: nat) => k < |guests| && Normalize(guests[k].name, nfd) == normalizedInput
  }

  /** The first guest whose normalised name equals that of `name`. */
  function FirstExact(name: string, guests: seq<Guest>, nfd: string -> string): Option<nat>
  {
    FirstFrom(ExactTest(Normalize(name, nfd), guests, nfd), 0, |guests|)
  }

  /** The first guest whose normalised name equals the input's. */
  method FindExact(name: string, guests: seq<Guest>, nfd: string -> string) returns (exact: Option<nat>)
    ensures exact == FirstExact(name, guests, nfd)
  {
    var normalizedInput := Normalize(name, nfd);
    ghost var test := ExactTest(normalizedInput, guests, nfd);
    var i: nat := 0;
    while i < |guests|
      invariant i <= |guests|
      invariant FirstExact(name, guests, nfd) == FirstFrom(test, i, |guests|)
    {
      FirstFromStep(test, i, |guests|);
      assert test(i) == (Normalize(guests[i].name, nfd) == normalizedInput);
      if Normalize(guests[i].name, nfd) == normalizedInput {
        return Some(i);
      }
      i := i + 1;
    }
    return None;
  }

  /**
    The choice with an exact match taking precedence: the first guest whose
    normalised name equals the input's, and only when there is none, the
    guest the search as written picks.
  */
  function PreferExact(name: string, guests: seq<Guest>, nfd: string -> string): Option<nat>
  {
    var exact := FirstExact(name, guests, nfd);
    if exact.Some? then exact else FirstMatch(name, guests, nfd)
  }

  /**
    With an exact match preferred, typing a listed name (up to accents,
    case and surrounding spaces) picks a guest of that very name; otherwise
    the pick is the one of the search as written, and a pick exists exactly
    when the search as written finds one.
  */
  lemma PreferExactSpec(name: string, guests: seq<Guest>, nfd: string -> string)
    ensures forall k :: 0 <= k < |guests| && SameName(name, guests[k].name, nfd) ==>
      var r := PreferExact(name, guests, nfd);
      r.Some? && r.value <= k && SameName(name, guests[r.value].name, nfd)
    ensures (forall k :: 0 <= k < |guests| ==> !SameName(name, guests[k].name, nfd)) ==>
      PreferExact(name, guests, nfd) == FirstMatch(name, guests, nfd)
    ensures PreferExact(name, guests, nfd).None? <==> FirstMatch(name, guests, nfd).None?
    ensures var r := PreferExact(name, guests, nfd);
      r.Some? ==> r.value < |guests| && Matches(name, guests[r.value].name, nfd)
  {
    var exactTest := ExactTest(Normalize(name, nfd), guests, nfd);
    FirstFromSpec(exactTest, 0, |guests|);
    FirstMatchSpec(name, guests, nfd);
    forall k | 0 <= k < |guests| ensures exactTest(k) == SameName(name, guests[k].name, nfd) {
    }
    var exact := FirstExact(name, guests, nfd);
    if exact.Some? {
      assert NamesMatch(Normalize(name, nfd), Normalize(guests[exact.value].name, nfd));
    }
  }

  /** The corrected search: an exact name first, then the search as written. */
  method FindGuestPreferExact(name: string, guests: seq<Guest>, nfd: string -> string) returns (matched: Option<nat>)
    ensures matched == PreferExact(name, guests, nfd)
    ensures matched.Some? ==> matched.value < |guests|
  {
    matched := FindExact(name, guests, nfd);
    if matched.None? {
      matched := FindGuest(name, guests, nfd);
    }
    PreferExactSpec(name, guests, nfd);
  }

  /** Removing marks works piece by piece: it distributes over concatenation. */
  lemma {:induction false} RemoveMarksConcat(a: string, b: string)
    ensures RemoveMarks(a + b) == RemoveMarks(a) + RemoveMarks(b)
    decreases |a|
  {
    if a != [] {
      assert (a + b)[0] == a[0];
      assert (a + b)[1..] == a[1..] + b;
      RemoveMarksConcat(a[1..], b);
      if IsCombiningMark(a[0]) {
        assert RemoveMarks(a + b) == RemoveMarks(a[1..] + b);
      } else {
        assert RemoveMarks(a + b) == [a[0]] + RemoveMarks(a[1..] + b);
        assert RemoveMarks(a) == [a[0]] + RemoveMarks(a[1..]);
        assert [a[0]] + (RemoveMarks(a[1..]) + RemoveMarks(b)) == ([a[0]] + RemoveMarks(a[1..])) + RemoveMarks(b);
      }
    } else {
      assert a + b == b;
    }
  }

  /** A combining mark on its own is removed entirely. */
  lemma RemoveMarksDropsMark(c: char)
    requires IsCombiningMark(c)
    ensures RemoveMarks([c]) == []
  {
    assert [c][1..] == [];
  }

  /** Text without combining marks is left as it is. */
  lemma {:induction false} RemoveMarksPlain(s: string)
    requires forall k :: 0 <= k < |s| ==> !IsCombiningMark(s[k])
    ensures RemoveMarks(s) == s
    decreases |s|
  {
    if s != [] {
      RemoveMarksPlain(s[1..]);
      assert s == [s[0]] + s[1..];
    }
  }

  /** One or more words, each a non-empty run of lower-case ASCII letters. */
  predicate PlainWords(ws: seq<string>)
  {
    && |ws| >= 1
    && (forall i :: 0 <= i < |ws| ==> ws[i] != [])
    && (forall i, k :: 0 <= i < |ws| && 0 <= k < |ws[i]| ==> 'a' <= ws[i][k] <= 'z')
  }

  lemma PlainWordsTail(ws: seq<string>)
    requires PlainWords(ws) && |ws| >= 2
    ensures PlainWords(ws[1..])
  {
    forall i | 0 <= i < |ws| - 1 ensures ws[1..][i] == ws[i + 1] {
    }
  }

  /** Plain words joined by single spaces: letters and spaces only, a letter at each end. */
  lemma {:induction false} JoinPlain(ws: seq<string>)
    requires PlainWords(ws)
    ensures var s := Join(ws, ' '); s != [] && s[0] == ws[0][0] && 'a' <= s[|s| - 1] <= 'z'
    ensures forall k :: 0 <= k < |Join(ws, ' ')| ==> 'a' <= Join(ws, ' ')[k] <= 'z' || Join(ws, ' ')[k] == ' '
    decreases |ws|
  {
    if |ws| > 1 {
      var rest := Join(ws[1..], ' ');
      PlainWordsTail(ws);
      JoinPlain(ws[1..]);
      var s := ws[0] + [' '] + rest;
      assert Join(ws, ' ') == s;
      forall k | 0 <= k < |s| ensures 'a' <= s[k] <= 'z' || s[k] == ' ' {
        if k > |ws[0]| {
          assert s[k] == rest[k - |ws[0]| - 1];
        }
      }
    }
  }

  /** A lower-case ASCII text without edge spaces is left alone by lower-casing and trimming. */
  lemma LowerTrimPlain(t: string)
    requires forall k :: 0 <= k < |t| ==> 'a' <= t[k] <= 'z' || t[k] == ' '
    requires NoEdgeSpace(t, IsJsSpace)
    ensures Trim(ToLower(t), IsJsSpace) == t
  {
    assert ToLower(t) == t;
    TrimKeepsInterior(t, IsJsSpace, 0, |t|);
  }

  /** Plain words joined by spaces split back into the same words. */
  lemma {:induction false} WordsOfJoin(ws: seq<string>)
    requires PlainWords(ws)
    ensures Words(Join(ws, ' ')) == ws
    decreases |ws|
  {
    if |ws| == 1 {
      Text.SplitOnRunsWord(ws[0], IsJsSpace);
    } else {
      var rest := Join(ws[1..], ' ');
      PlainWordsTail(ws);
      JoinPlain(ws[1..]);
      WordsOfJoin(ws[1..]);
      assert ws[0] + [' '] + rest == ws[0] + " " + rest;
      SplitWordThenRest(ws[0], rest);
      assert ws == [ws[0]] + ws[1..];
    }
  }

  lemma {:induction false} SplitWordThenRest(w: string, rest: string)
    requires w != [] && forall k :: 0 <= k < |w| ==> !IsJsSpace(w[k])
    requires rest != [] && !IsJsSpace(rest[0])
    ensures Words(w + " " + rest) == [w] + Words(rest)
  {
    var s := w + " " + rest;
    WordEndOf(w, " " + rest);
    assert s == w + (" " + rest);
    var tail := s[|w|..];
    assert tail == " " + rest;
    assert LeadingSpaces(tail, IsJsSpace) == 1 by {
      assert tail[1..] == rest;
    }
  }

  lemma {:induction false} WordEndOf(w: string, rest: string)
    requires forall k :: 0 <= k < |w| ==> !IsJsSpace(w[k])
    requires rest != [] && IsJsSpace(rest[0])
    ensures WordEnd(w + rest, IsJsSpace) == |w|
    decreases |w|
  {
    if w != [] {
      assert (w + rest)[1..] == w[1..] + rest;
      WordEndOf(w[1..], rest);
    }
  }

  lemma {:induction false} TwoHits(inputWords: seq<string>, guestWords: seq<string>, i: nat, j: nat)
    requires i < j < |inputWords| && inputWords[i] in guestWords && inputWords[j] in guestWords
    ensures MatchedWords(inputWords, guestWords) >= 2
    decreases i
  {
    if i > 0 {
      TwoHits(inputWords[1..], guestWords, i - 1, j - 1);
    } else {
      assert inputWords[1..][j - 1] in guestWords;
      OneHit(inputWords[1..], guestWords, j - 1);
    }
  }

  /** Conversely, two hits are needed: a count of two or more has two distinct positions behind it. */
  lemma {:induction false} HitsOfCount(inputWords: seq<string>, guestWords: seq<string>)
    requires MatchedWords(inputWords, guestWords) >= 2
    ensures exists i, j :: 0 <= i < j < |inputWords| && inputWords[i] in guestWords && inputWords[j] in guestWords
    decreases |inputWords|
  {
    var tail := inputWords[1..];
    if inputWords[0] in guestWords && MatchedWords(tail, guestWords) >= 1 {
      var j := HitOfCount(tail, guestWords);
      assert inputWords[j + 1] == tail[j];
      assert 0 < j + 1 < |inputWords| && inputWords[0] in guestWords && inputWords[j + 1] in guestWords;
    } else {
      HitsOfCount(tail, guestWords);
      var i, j :| 0 <= i < j < |tail| && tail[i] in guestWords && tail[j] in guestWords;
      assert inputWords[i + 1] == tail[i] && inputWords[j + 1] == tail[j];
    }
  }

  lemma {:induction false} HitOfCount(inputWords: seq<string>, guestWords: seq<string>) returns (j: nat)
    requires MatchedWords(inputWords, guestWords) >= 1
    ensures j < |inputWords| && inputWords[j] in guestWords
    decreases |inputWords|
  {
    if inputWords[0] in guestWords {
      j := 0;
    } else {
      j := HitOfCount(inputWords[1..], guestWords);
      j := j + 1;
    }
  }

  /** A one-word name only matches a guest whose normalised name is exactly that word. */
  lemma OneWordNeedsEquality(normalizedInput: string, normalizedGuest: string)
    requires |Words(normalizedInput)| == 1
    ensures NamesMatch(normalizedInput, normalizedGuest) <==> normalizedInput == normalizedGuest
  {
  }

  lemma {:induction false} OneHit(inputWords: seq<string>, guestWords: seq<string>, j: nat)
    requires j < |inputWords| && inputWords[j] in guestWords
    ensures MatchedWords(inputWords, guestWords) >= 1
    decreases j
  {
    if j > 0 {
      OneHit(inputWords[1..], guestWords, j - 1);
    }
  }

  /** A name that decomposes to plain words joined by spaces normalises to exactly that. */
  lemma NormalizeJoined(s: string, ws: seq<string>, nfd: string -> string)
    requires PlainWords(ws) && nfd(s) == Join(ws, ' ')
    ensures Normalize(s, nfd) == Join(ws, ' ')
  {
    JoinedIsNormal(ws);
  }

  /** Plain words joined by spaces carry no mark, no capital and no edge space. */
  lemma JoinedIsNormal(ws: seq<string>)
    requires PlainWords(ws)
    ensures RemoveMarks(Join(ws, ' ')) == Join(ws, ' ')
    ensures Trim(ToLower(Join(ws, ' ')), IsJsSpace) == Join(ws, ' ')
  {
    var t := Join(ws, ' ');
    JoinPlain(ws);
    RemoveMarksPlain(t);
    LowerTrimPlain(t);
  }

  /** Removing a combining mark between mark-free text and a space-led mark-free text. */
  lemma DropMarkBefore(w: string, mark: char, t: string)
    requires forall k :: 0 <= k < |w| ==> !IsCombiningMark(w[k])
    requires forall k :: 0 <= k < |t| ==> !IsCombiningMark(t[k])
    requires IsCombiningMark(mark)
    ensures RemoveMarks(w + [mark] + " " + t) == w + " " + t
  {
    RemoveMarksConcat(w + [mark] + " ", t);
    RemoveMarksConcat(w + [mark], " ");
    RemoveMarksConcat(w, [mark]);
    RemoveMarksPlain(w);
    RemoveMarksPlain(" ");
    RemoveMarksPlain(t);
    assert RemoveMarks([mark]) == [] by {
      assert [mark][1..] == [];
    }
    assert w + [] == w;
  }

  /** Plain words joined by spaces carry no combining mark. */
  lemma JoinNoMarks(ws: seq<string>)
    requires PlainWords(ws)
    ensures forall k :: 0 <= k < |Join(ws, ' ')| ==> !IsCombiningMark(Join(ws, ' ')[k])
  {
    JoinPlain(ws);
  }

  lemma FirstWordPlain(ws: seq<string>)
    requires PlainWords(ws)
    ensures forall k :: 0 <= k < |ws[0]| ==> !IsCombiningMark(ws[0][k])
  {
  }

  lemma JoinHead(ws: seq<string>)
    requires |ws| >= 2
    ensures Join(ws, ' ') == ws[0] + " " + Join(ws[1..], ' ')
  {
  }

  /** Dropping a combining mark that follows the first word. */
  lemma DropMarkAfterFirst(ws: seq<string>, mark: char)
    requires PlainWords(ws) && |ws| >= 2 && IsCombiningMark(mark)
    ensures RemoveMarks(ws[0] + [mark] + " " + Join(ws[1..], ' ')) == Join(ws, ' ')
  {
    FirstWordPlain(ws);
    PlainWordsTail(ws);
    JoinNoMarks(ws[1..]);
    DropMarkBefore(ws[0], mark, Join(ws[1..], ' '));
    JoinHead(ws);
  }

  /** The same when decomposition leaves one combining mark after the first word's last letter. */
  lemma NormalizeMarkedFirst(s: string, ws: seq<string>, mark: char, nfd: string -> string)
    requires PlainWords(ws) && |ws| >= 2 && IsCombiningMark(mark)
    requires nfd(s) == ws[0] + [mark] + " " + Join(ws[1..], ' ')
    ensures Normalize(s, nfd) == Join(ws, ' ')
  {
    DropMarkAfterFirst(ws, mark);
    JoinedIsNormal(ws);
  }

  /**
    Two names, the second decomposing with a mark after its first word, whose
    word lists share two words: the first name selects the second's guest
    although the two are different names.
  */
  lemma SharedWordsMatch(input: string, guest: string, inputWords: seq<string>, guestWords: seq<string>,
                         mark: char, nfd: string -> string)
    requires PlainWords(inputWords) && PlainWords(guestWords) && |guestWords| >= 2 && IsCombiningMark(mark)
    requires nfd(input) == Join(inputWords, ' ')
    requires nfd(guest) == guestWords[0] + [mark] + " " + Join(guestWords[1..], ' ')
    requires exists i, j, i', j' :: 0 <= i < j < |inputWords| && 0 <= i' < |guestWords| && 0 <= j' < |guestWords|
               && inputWords[i] == guestWords[i'] && inputWords[j] == guestWords[j']
    requires inputWords[0][0] != guestWords[0][0]
    ensures Matches(input, guest, nfd)
    ensures Normalize(input, nfd) != Normalize(guest, nfd)
  {
    NormalizeJoined(input, inputWords, nfd);
    NormalizeMarkedFirst(guest, guestWords, mark, nfd);
    WordsOfJoin(inputWords);
    WordsOfJoin(guestWords);
    var i, j, i', j' :| 0 <= i < j < |inputWords| && 0 <= i' < |guestWords| && 0 <= j' < |guestWords|
      && inputWords[i] == guestWords[i'] && inputWords[j] == guestWords[j'];
    TwoHits(inputWords, guestWords, i, j);
    JoinPlain(inputWords);
    JoinPlain(guestWords);
  }

  const Guest5Words := ["andre", "velasques", "de", "oliveira"]
  const Guest6Words := ["marcos", "antonio", "maia", "lavio", "de", "oliveira"]

  lemma GuestWordsPlain()
    ensures PlainWords(Guest5Words) && PlainWords(Guest6Words)
  {
  }

  lemma Guest6Spelled()
    ensures Guest6.name == Join(Guest6Words, ' ')
  {
  }

  lemma Guest5Decomposed()
    ensures "andre\U{301} velasques de oliveira" == Guest5Words[0] + ['\U{301}'] + " " + Join(Guest5Words[1..], ' ')
  {
    var rest := ["velasques", "de", "oliveira"];
    assert Guest5Words[1..] == rest;
    assert Join(rest, ' ') == "velasques de oliveira";
  }

  /**
    A visitor who types the listed name of guest 6 is matched with guest 5:
    both names end in "de oliveira", two shared words, and guest 5 comes
    first, so the search as written never picks guest 6 by that name. The
    requirements state what canonical decomposition does to the two names:
    it leaves the ASCII one alone and splits the accented letter of the other.
  */
  lemma SeventhGuestShadowed(nfd: string -> string)
    requires nfd(Guest6.name) == Guest6.name
    requires nfd(Guest5.name) == "andre\U{301} velasques de oliveira"
    ensures Matches(SpecialGuests[6].name, SpecialGuests[5].name, nfd)
    ensures Normalize(SpecialGuests[6].name, nfd) != Normalize(SpecialGuests[5].name, nfd)
  {
    assert SpecialGuests[5] == Guest5 && SpecialGuests[6] == Guest6;
    GuestWordsPlain();
    Guest6Spelled();
    Guest5Decomposed();
    assert Guest6Words[4] == Guest5Words[2] && Guest6Words[5] == Guest5Words[3];
    assert Guest6Words[0][0] != Guest5Words[0][0];
    SharedWordsMatch(Guest6.name, Guest5.name, Guest6Words, Guest5Words, '\U{301}', nfd);
  }

  /**
    Hence the search as written answers guest 6's own name with guest 5 or an
    earlier guest, while the search preferring an exact name picks a guest
    of that very name.
  */
  lemma SeventhGuestMisgreeted(nfd: string -> string)
    requires nfd(Guest6.name) == Guest6.name
    requires nfd(Guest5.name) == "andre\U{301} velasques de oliveira"
    ensures var r := FirstMatch(SpecialGuests[6].name, SpecialGuests, nfd); r.Some? && r.value <= 5
    ensures var r := PreferExact(SpecialGuests[6].name, SpecialGuests, nfd);
      r.Some? && r.value <= 6 && SameName(SpecialGuests[6].name, SpecialGuests[r.value].name, nfd)
  {
    SeventhGuestShadowed(nfd);
    EarlierMatchShadows(SpecialGuests, 5, 6, nfd);
  }

  /**
    When guest j < k matches guest k's own listed name, the search as
    written stops at guest j or earlier, so it never greets guest k by name;
    with an exact name preferred, the pick has guest k's name.
  */
  lemma EarlierMatchShadows(guests: seq<Guest>, j: nat, k: nat, nfd: string -> string)
    requires j < k < |guests|
    requires Matches(guests[k].name, guests[j].name, nfd)
    ensures var r := FirstMatch(guests[k].name, guests, nfd); r.Some? && r.value <= j
    ensures var r := PreferExact(guests[k].name, guests, nfd);
      r.Some? && r.value <= k && SameName(guests[k].name, guests[r.value].name, nfd)
  {
    FirstMatchSpec(guests[k].name, guests, nfd);
    PreferExactSpec(guests[k].name, guests, nfd);
    assert SameName(guests[k].name, guests[k].name, nfd);
  }

  /** The two renderings of the welcome message: HTML for the chat, plain text for speech. */
  datatype Welcome = Welcome(html: string, text: string)

  /** The greeting of main.js:151-153 for a recognised guest. */
  function GuestWelcome(name: string, description: string): Welcome
  {
    Welcome(
      "Seja muito bem-vindo(a), <strong>" + name + "</strong>! \U{1F44F}<br>\U{C9} uma honra receber <strong>"
        + description + "</strong> neste evento!<br> Em que posso te ajudar?",
      "Seja muito bem-vindo, " + name + "! \U{C9} uma honra receber " + description
        + " neste evento! Em que posso te ajudar?")
  }

  /** The greeting of main.js:156-157 for every other visitor. */
  function DefaultWelcome(name: string, role: string, interestArea: string, objective: string): Welcome
  {
    Welcome(
      "Ol\U{E1}, <strong>" + name + "</strong>! \U{1F44B}<br>Que legal que um(a) <strong>" + role
        + "</strong> com interesse em <strong>" + interestArea
        + "</strong> veio nos visitar! Estou pronta para te ajudar a <strong>" + objective
        + "</strong>. Sobre o que quer saber primeiro?",
      "Ol\U{E1}, " + name + "! Que legal que um " + role + " com interesse em " + interestArea
        + " veio nos visitar! Estou pronta para te ajudar a " + objective
        + ". Sobre o que quer saber primeiro?")
  }

  /**
    The start-form handler of main.js:78-157 up to the welcome message: the
    name is trimmed, an empty name does nothing, otherwise the first guest
    in table order that matches gets the personalised greeting and everyone
    else the default one. The name in the greeting is the trimmed name as
    typed, not its normalised form.
  */
  method StartForm(rawName: string, role: string, interestArea: string, objective: string,
                   guests: seq<Guest>, nfd: string -> string) returns (welcome: Option<Welcome>)
    ensures welcome.None? <==> Trim(rawName, IsJsSpace) == []
    ensures welcome.Some? ==>
      var name := Trim(rawName, IsJsSpace);
      match FirstMatch(name, guests, nfd)
      case Some(g) => g < |guests| && Matches(name, guests[g].name, nfd) &&
                      welcome.value == GuestWelcome(name, guests[g].description)
      case None => welcome.value == DefaultWelcome(name, role, interestArea, objective)
  {
    var name := Trim(rawName, IsJsSpace);
    if name == [] {
      return None;
    }
    var matched := FindGuest(name, guests, nfd);
    FirstMatchSpec(name, guests, nfd);
    if matched.Some? {
      welcome := Some(GuestWelcome(name, guests[matched.value].description));
    } else {
      welcome := Some(DefaultWelcome(name, role, interestArea, objective));
    }
  }

  /**
    The same handler with the corrected search: a guest whose listed name
    is typed (up to accents, case and surrounding spaces) is greeted as
    that guest; otherwise the choice is the one of `StartForm`.
  */
  method StartFormPreferExact(rawName: string, role: string, interestArea: string, objective: string,
                              guests: seq<Guest>, nfd: string -> string) returns (welcome: Option<Welcome>)
    ensures welcome.None? <==> Trim(rawName, IsJsSpace) == []
    ensures welcome.Some? ==>
      var name := Trim(rawName, IsJsSpace);
      match PreferExact(name, guests, nfd)
      case Some(g) => g < |guests| && welcome.value == GuestWelcome(name, guests[g].description)
      case None => welcome.value == DefaultWelcome(name, role, interestArea, objective)
  {
    var name := Trim(rawName, IsJsSpace);
    if name == [] {
      return None;
    }
    var matched := FindGuestPreferExact(name, guests, nfd);
    if matched.Some? {
      welcome := Some(GuestWelcome(name, guests[matched.value].description));
    } else {
      welcome := Some(DefaultWelcome(name, role, interestArea, objective));
    }
  }
}
