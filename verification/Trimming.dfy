/** Trimming white space in Go and in JavaScript, which disagree on two characters. */
module Trimming {

  predicate CommonSpace(c: char) {
    || '\t' <= c <= '\r' || c == ' ' || c == '\U{A0}' || c == '\U{1680}' || '\U{2000}' <= c <= '\U{200A}'
    || c == '\U{2028}' || c == '\U{2029}' || c == '\U{202F}' || c == '\U{205F}' || c == '\U{3000}'
  }

  predicate GoSpace(c: char) { CommonSpace(c) || c == '\U{85}' }

  predicate JsSpace(c: char) { CommonSpace(c) || c == '\U{FEFF}' }

  function TrimLeft(s: string, space: char -> bool): string {
    if s != "" && space(s[0]) then TrimLeft(s[1..], space) else s
  }

  function TrimRight(s: string, space: char -> bool): string {
    if s != "" && space(s[|s| - 1]) then TrimRight(s[..|s| - 1], space) else s
  }

  function Trim(s: string, space: char -> bool): string { TrimRight(TrimLeft(s, space), space) }

  function TrimGo(s: string): string { Trim(s, GoSpace) }

  function TrimJs(s: string): string { Trim(s, JsSpace) }

  predicate All(s: string, space: char -> bool) { forall c <- s :: space(c) }

  // A text that is empty, or begins and ends with no space.
  predicate Core(c: string, space: char -> bool) {
    c != "" ==> !space(c[0]) && !space(c[|c| - 1])
  }

  predicate Padded(s: string, l: string, c: string, r: string, space: char -> bool) {
    s == l + c + r && All(l, space) && All(r, space) && Core(c, space)
  }

  lemma {:induction false} LeftPadding(s: string, space: char -> bool) returns (l: string)
    ensures s == l + TrimLeft(s, space) && All(l, space)
    ensures TrimLeft(s, space) != "" ==> !space(TrimLeft(s, space)[0])
  {
    if s != "" && space(s[0]) {
      var rest := LeftPadding(s[1..], space);
      l := [s[0]] + rest;
      assert s == [s[0]] + (rest + TrimLeft(s[1..], space)) == l + TrimLeft(s[1..], space);
    } else {
      l := "";
    }
  }

  lemma {:induction false} RightPadding(s: string, space: char -> bool) returns (r: string)
    ensures s == TrimRight(s, space) + r && All(r, space)
    ensures TrimRight(s, space) != "" ==> !space(TrimRight(s, space)[|TrimRight(s, space)| - 1])
  {
    if s != "" && space(s[|s| - 1]) {
      var rest := RightPadding(s[..|s| - 1], space);
      r := rest + [s[|s| - 1]];
      assert s == (TrimRight(s[..|s| - 1], space) + rest) + [s[|s| - 1]] == TrimRight(s[..|s| - 1], space) + r;
    } else {
      r := "";
    }
  }

  lemma TrimPads(s: string, space: char -> bool) returns (l: string, r: string)
    ensures Padded(s, l, Trim(s, space), r, space)
  {
    l := LeftPadding(s, space);
    r := RightPadding(TrimLeft(s, space), space);
    var c := Trim(s, space);
    assert TrimLeft(s, space) == c + r && l + (c + r) == l + c + r;
    if c != "" { assert c[0] == TrimLeft(s, space)[0]; }
  }

  // A longer padding on one side covers the first, or the last, character of the core.
  lemma PaddingCovers(s: string, l: string, c: string, r: string, l': string, c': string, r': string,
                      space': char -> bool)
    requires s == l + c + r && s == l' + c' + r' && c != "" && All(l', space') && All(r', space')
    ensures |l| < |l'| ==> space'(c[0])
    ensures |r| < |r'| ==> space'(c[|c| - 1])
  {
    if |l| < |l'| {
      assert s[|l|] == c[0] && l'[|l|] == s[|l|] && l'[|l|] in l';
    }
    if |r| < |r'| {
      var i := |s| - |r| - 1;
      assert s[i] == c[|c| - 1] && r'[i - |l'| - |c'|] == s[i] && r'[i - |l'| - |c'|] in r';
    }
  }

  // The trimmed text is the only core.
  lemma TrimIs(s: string, l: string, c: string, r: string, space: char -> bool)
    requires Padded(s, l, c, r, space)
    ensures Trim(s, space) == c
  {
    var l', r' := TrimPads(s, space);
    var c' := Trim(s, space);
    if c != "" { PaddingFits(s, l, c, r, l', c', r', space); }
    if c' != "" { PaddingFits(s, l', c', r', l, c, r, space); }
    if c != "" && c' != "" {
      assert |l| == |l'| && |r| == |r'|;
      assert c == s[|l|..|s| - |r|] && c' == s[|l'|..|s| - |r'|];
    }
  }

  lemma PaddingFits(s: string, l: string, c: string, r: string, l': string, c': string, r': string, space: char -> bool)
    requires Padded(s, l, c, r, space) && Padded(s, l', c', r', space) && c != ""
    ensures |l'| <= |l| && |r'| <= |r| && c' != ""
  {
    PaddingCovers(s, l, c, r, l', c', r', space);
  }

  // The white space both languages trim, gone; what is left begins and ends with neither of the two
  // characters on which they differ.
  predicate TrimsAlike(s: string) {
    var c := Trim(s, CommonSpace);
    c != "" ==> c[0] !in "\U{85}\U{FEFF}" && c[|c| - 1] !in "\U{85}\U{FEFF}"
  }

  // The two languages trim a text alike exactly then.
  lemma TrimsAgreeExactly(s: string)
    ensures TrimGo(s) == TrimJs(s) <==> TrimsAlike(s)
  {
    if TrimsAlike(s) { AlikeTrimsAgree(s); }
    if TrimGo(s) == TrimJs(s) { AgreedTrimsAlike(s); }
  }

  lemma AlikeTrimsAgree(s: string)
    requires TrimsAlike(s)
    ensures TrimGo(s) == TrimJs(s)
  {
    var l, r := TrimPads(s, CommonSpace);
    TrimIs(s, l, Trim(s, CommonSpace), r, GoSpace);
    TrimIs(s, l, Trim(s, CommonSpace), r, JsSpace);
  }

  lemma AgreedTrimsAlike(s: string)
    requires TrimGo(s) == TrimJs(s)
    ensures TrimsAlike(s)
  {
    var c := TrimGo(s);
    var l, r := TrimPads(s, GoSpace);
    var l', r' := TrimPads(s, JsSpace);
    if c == "" {
      assert All(s, CommonSpace);
      TrimIs(s, s, "", "", CommonSpace);
    } else {
      PaddingCovers(s, l, c, r, l', c, r', JsSpace);
      PaddingCovers(s, l', c, r', l, c, r, GoSpace);
      assert l == s[..|l|] == l';
      assert r == s[|l| + |c|..] == r';
      TrimIs(s, l, c, r, CommonSpace);
    }
  }

}
