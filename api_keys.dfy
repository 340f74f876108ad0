/**
  Start-up parsing of the speech-synthesis credentials (app.py:38-41): the
  `GEMINI_API_KEYS` variable is split on commas, each piece is stripped of
  Python whitespace, empty pieces are dropped, and an empty result is a
  configuration error raised before anything else runs.
*/
module ApiKeys {
  import opened Wrappers
  import opened Text

  datatype ConfigError = KeysNotConfigured

  /** `os.getenv("GEMINI_API_KEYS", "")`: an unset variable reads as the empty string. */
  function RawKeyList(env: Option<string>): string
  {
    match env
    case Some(v) => v
    case None => ""
  }

  /** True when every character of `s` is Python whitespace. */
  predicate Blank(s: string)
  {
    forall k :: 0 <= k < |s| ==> IsPySpace(s[k])
  }

  /** `[p.strip() for p in pieces if p.strip()]`. */
  function StrippedPieces(pieces: seq<string>): (keys: seq<string>)
    ensures |keys| <= |pieces|
    ensures forall k :: k in keys ==> k != [] && NoEdgeSpace(k, IsPySpace)
    ensures (forall p :: p in pieces ==> ',' !in p) ==> forall k :: k in keys ==> ',' !in k
    ensures keys == [] <==> forall p :: p in pieces ==> Blank(p)
  {
    if pieces == [] then []
    else
      var key := Trim(pieces[0], IsPySpace);
      var rest := StrippedPieces(pieces[1..]);
      assert forall p :: p in pieces[1..] ==> p in pieces;
      if key == [] then rest else [key] + rest
  }

  /** The key list of app.py:38, or the error of app.py:40-41. */
  function ParseApiKeys(env: Option<string>): (r: Result<seq<string>, ConfigError>)
    ensures r.Success? ==> |r.value| > 0
    ensures r.Success? ==> forall k :: k in r.value ==> k != [] && ',' !in k && NoEdgeSpace(k, IsPySpace)
  {
    var keys := StrippedPieces(SplitOn(RawKeyList(env), ','));
    if keys == [] then Failure(KeysNotConfigured) else Success(keys)
  }

  /** `key` is what the comprehension keeps of the piece `p`. */
  predicate KeptAs(p: string, key: string)
  {
    !Blank(p) && key == Trim(p, IsPySpace)
  }

  /** A key is kept exactly when it is the stripped form of some non-blank piece. */
  lemma {:induction false} StrippedPiecesMembers(pieces: seq<string>, key: string)
    ensures key in StrippedPieces(pieces) <==> exists i :: 0 <= i < |pieces| && KeptAs(pieces[i], key)
    decreases |pieces|
  {
    if pieces != [] {
      var tail := pieces[1..];
      var head := Trim(pieces[0], IsPySpace);
      var rest := StrippedPieces(tail);
      StrippedPiecesMembers(tail, key);
      assert StrippedPieces(pieces) == if head == [] then rest else [head] + rest;
      assert head == [] <==> Blank(pieces[0]);
      assert forall i :: 0 <= i < |tail| ==> tail[i] == pieces[i + 1];
      if key in StrippedPieces(pieces) {
        if key in rest {
          var i :| 0 <= i < |tail| && KeptAs(tail[i], key);
          assert KeptAs(pieces[i + 1], key);
        } else {
          assert KeptAs(pieces[0], key);
        }
      }
      if exists i :: 0 <= i < |pieces| && KeptAs(pieces[i], key) {
        var i :| 0 <= i < |pieces| && KeptAs(pieces[i], key);
        if i > 0 {
          assert KeptAs(tail[i - 1], key);
        }
      }
    }
  }

  /** Keys keep the order of their pieces: stripping a concatenation concatenates the keys. */
  lemma {:induction false} StrippedPiecesAppend(a: seq<string>, b: seq<string>)
    ensures StrippedPieces(a + b) == StrippedPieces(a) + StrippedPieces(b)
    decreases |a|
  {
    if a != [] {
      assert (a + b)[0] == a[0];
      assert (a + b)[1..] == a[1..] + b;
      StrippedPiecesAppend(a[1..], b);
    } else {
      assert a + b == b;
    }
  }

  /** One piece gives its stripped form as a key, or nothing when it is blank. */
  lemma StrippedPiecesOne(p: string)
    ensures StrippedPieces([p]) == if Blank(p) then [] else [Trim(p, IsPySpace)]
  {
    assert [p][1..] == [];
  }

  /** The keys of a successful parse, read off its definition. */
  lemma ParsedKeys(env: Option<string>)
    requires ParseApiKeys(env).Success?
    ensures ParseApiKeys(env).value == StrippedPieces(SplitOn(RawKeyList(env), ','))
  {
  }

  /** A successful parse yields exactly the stripped non-blank pieces of the variable. */
  lemma ParseApiKeysMembers(env: Option<string>, key: string)
    requires ParseApiKeys(env).Success?
    ensures var pieces := SplitOn(RawKeyList(env), ',');
            key in ParseApiKeys(env).value <==> exists i :: 0 <= i < |pieces| && KeptAs(pieces[i], key)
  {
    ParsedKeys(env);
    StrippedPiecesMembers(SplitOn(RawKeyList(env), ','), key);
  }

  /**
    The first comma-separated piece contributes the first key (unless it is
    blank), and the rest of the variable contributes the following keys.
  */
  lemma ParseApiKeysOrder(first: string, rest: string)
    requires ',' !in first
    requires ParseApiKeys(Some(first + [','] + rest)).Success?
    ensures ParseApiKeys(Some(first + [','] + rest)).value ==
            (if Blank(first) then [] else [Trim(first, IsPySpace)]) + StrippedPieces(SplitOn(rest, ','))
  {
    SplitOnCons(first, rest, ',');
    StrippedPiecesAppend([first], SplitOn(rest, ','));
    StrippedPiecesOne(first);
  }

  lemma BlankCons(c: char, t: string)
    ensures Blank([c] + t) <==> IsPySpace(c) && Blank(t)
  {
    var h := [c] + t;
    if Blank(h) {
      forall k | 0 <= k < |t| ensures IsPySpace(t[k]) {
        assert h[k + 1] == t[k];
      }
      assert h[0] == c;
    }
  }

  /** Every comma-separated piece of `s` is blank exactly when `s` holds only commas and whitespace. */
  lemma {:induction false} PiecesBlankIff(s: string)
    ensures (forall p :: p in SplitOn(s, ',') ==> Blank(p)) <==>
            (forall k :: 0 <= k < |s| ==> s[k] == ',' || IsPySpace(s[k]))
    decreases |s|
  {
    if |s| > 0 {
      var rest := SplitOn(s[1..], ',');
      PiecesBlankIff(s[1..]);
      assert forall k :: 1 <= k < |s| ==> s[k] == s[1..][k - 1];
      if s[0] != ',' {
        var head := [s[0]] + rest[0];
        assert SplitOn(s, ',') == [head] + rest[1..];
        BlankCons(s[0], rest[0]);
        assert (forall p :: p in rest ==> Blank(p)) <==> Blank(rest[0]) && forall p :: p in rest[1..] ==> Blank(p) by {
          assert rest == [rest[0]] + rest[1..];
        }
      }
    }
  }

  /**
    Start-up fails exactly when the variable is unset, or set to a value made
    only of commas and whitespace.
  */
  lemma ParseFailsIff(env: Option<string>)
    ensures ParseApiKeys(env).Failure? <==>
            forall k :: 0 <= k < |RawKeyList(env)| ==> RawKeyList(env)[k] == ',' || IsPySpace(RawKeyList(env)[k])
  {
    PiecesBlankIff(RawKeyList(env));
  }
}
