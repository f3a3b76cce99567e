/** grep.c: the matcher, against the language that a pattern denotes. Strings are their characters up to the NUL. */
module Grep {

  /** A piece of a pattern: one character, or any number of them; '.' stands for every character. */
  datatype Piece = One(c: char) | Star(c: char)

  predicate Fits(c: char, x: char) { c == '.' || c == x }

  /** The pieces of a pattern without '^': '*' binds to the character before it, whatever that is. */
  function Pieces(re: string): seq<Piece> {
    if re == [] || re == "$" then []
    else if |re| > 1 && re[1] == '*' then [Star(re[0])] + Pieces(re[2..])
    else [One(re[0])] + Pieces(re[1..])
  }

  /** The pattern ends in a '$' that is neither starred nor the character that a '*' stars. */
  predicate AtEnd(re: string) {
    if re == [] then false
    else if re == "$" then true
    else if |re| > 1 && re[1] == '*' then AtEnd(re[2..])
    else AtEnd(re[1..])
  }

  // ----- what a pattern denotes

  predicate InPiece(p: Piece, u: string) {
    match p
    case One(c) => |u| == 1 && Fits(c, u[0])
    case Star(c) => forall k :: 0 <= k < |u| ==> Fits(c, u[k])
  }

  function Concat(parts: seq<string>): string {
    if parts == [] then "" else parts[0] + Concat(parts[1..])
  }

  /** parts are one text for each piece, in order. */
  ghost predicate Parts(pieces: seq<Piece>, parts: seq<string>) {
    |parts| == |pieces| && forall k :: 0 <= k < |pieces| ==> InPiece(pieces[k], parts[k])
  }

  /** u is in the language of the pieces. */
  ghost predicate InLanguage(pieces: seq<Piece>, u: string) {
    exists parts :: Parts(pieces, parts) && Concat(parts) == u
  }

  /** A text in the pattern's language starts text, and ends it if the pattern must match at the end. */
  ghost predicate Here(re: string, text: string) {
    exists n :: 0 <= n <= |text| && InLanguage(Pieces(re), text[..n]) && (AtEnd(re) ==> n == |text|)
  }

  /** The pattern matches text: at its start after '^', otherwise anywhere in it. */
  ghost predicate Matches(re: string, text: string) {
    if re != [] && re[0] == '^' then Here(re[1..], text)
    else exists i :: 0 <= i <= |text| && Here(re, text[i..])
  }

  // ----- the language of the first piece and the rest

  lemma Head(p: Piece, rest: seq<Piece>, v: string, w: string)
    requires InPiece(p, v) && InLanguage(rest, w)
    ensures InLanguage([p] + rest, v + w)
  {
    var parts :| Parts(rest, parts) && Concat(parts) == w;
    var all := [v] + parts;
    assert all[1..] == parts;
    assert Parts([p] + rest, all) && Concat(all) == v + w;
  }

  lemma Split(p: Piece, rest: seq<Piece>, u: string) returns (m: nat)
    requires InLanguage([p] + rest, u)
    ensures m <= |u| && InPiece(p, u[..m]) && InLanguage(rest, u[m..])
  {
    var parts :| Parts([p] + rest, parts) && Concat(parts) == u;
    m := |parts[0]|;
    assert u[..m] == parts[0] && u[m..] == Concat(parts[1..]);
    assert InPiece(([p] + rest)[0], parts[0]);
    assert Parts(rest, parts[1..]) by {
      forall k | 0 <= k < |rest| ensures InPiece(rest[k], parts[1..][k]) {
        assert InPiece(([p] + rest)[k + 1], parts[k + 1]);
      }
    }
  }

  lemma EmptyLanguage(u: string)
    ensures InLanguage([], u) <==> u == ""
  {
    if u == "" {
      assert Parts([], []) && Concat([]) == u;
    }
  }

  /** The empty pattern matches everywhere. */
  lemma HereEmpty(text: string)
    ensures Here("", text)
  {
    EmptyLanguage(text[..0]);
  }

  lemma HereEnd(text: string)
    ensures Here("$", text) <==> text == ""
  {
    EmptyLanguage(text);
    assert text[..|text|] == text;
    assert Here("$", text) <==> InLanguage(Pieces("$"), text[..|text|]);
  }

  lemma HereOne(re: string, text: string)
    requires re != [] && re != "$" && !(|re| > 1 && re[1] == '*')
    ensures Here(re, text) <==> text != "" && Fits(re[0], text[0]) && Here(re[1..], text[1..])
  {
    hide Here;
    if Here(re, text) {
      OneThenRest(re, text);
    }
    if text != "" && Fits(re[0], text[0]) && Here(re[1..], text[1..]) {
      RestThenOne(re, text);
    }
  }

  lemma RestThenOne(re: string, text: string)
    requires re != [] && re != "$" && !(|re| > 1 && re[1] == '*')
    requires text != "" && Fits(re[0], text[0]) && Here(re[1..], text[1..])
    ensures Here(re, text)
  {
    hide InLanguage;
    var rest, t := re[1..], text[1..];
    var n :| 0 <= n <= |t| && InLanguage(Pieces(rest), t[..n]) && (AtEnd(rest) ==> n == |t|);
    assert Pieces(re) == [One(re[0])] + Pieces(rest) && AtEnd(re) == AtEnd(rest);
    hide Pieces;
    hide AtEnd;
    OneMore(re[0], Pieces(rest), text, n);
    assert InLanguage(Pieces(re), text[..n + 1]);
  }

  lemma OneMore(c: char, rest: seq<Piece>, text: string, n: nat)
    requires text != "" && n < |text| && Fits(c, text[0]) && InLanguage(rest, text[1..][..n])
    ensures InLanguage([One(c)] + rest, text[..n + 1])
  {
    hide InLanguage;
    Head(One(c), rest, text[..1], text[1..][..n]);
    assert text[..1] + text[1..][..n] == text[..n + 1];
  }

  lemma OneThenRest(re: string, text: string)
    requires re != [] && re != "$" && !(|re| > 1 && re[1] == '*') && Here(re, text)
    ensures text != "" && Fits(re[0], text[0]) && Here(re[1..], text[1..])
  {
    var n :| 0 <= n <= |text| && InLanguage(Pieces(re), text[..n]) && (AtEnd(re) ==> n == |text|);
    var m := Split(One(re[0]), Pieces(re[1..]), text[..n]);
    assert m == 1;
    assert text[..n][1..] == text[1..][..n - 1];
    assert InLanguage(Pieces(re[1..]), text[1..][..n - 1]);
  }

  /** The first k characters of text fit c. */
  predicate Run(c: char, text: string, k: nat) {
    k <= |text| && forall j :: 0 <= j < k ==> Fits(c, text[j])
  }

  /** Here for c* followed by the pattern re. */
  ghost predicate StarHere(c: char, re: string, text: string) {
    exists k :: 0 <= k <= |text| && Run(c, text, k) && Here(re, text[k..])
  }

  lemma HereStar(re: string, text: string)
    requires |re| > 1 && re[1] == '*'
    ensures Here(re, text) <==> StarHere(re[0], re[2..], text)
  {
    var c, rest := re[0], re[2..];
    if Here(re, text) {
      var n :| 0 <= n <= |text| && InLanguage(Pieces(re), text[..n]) && (AtEnd(re) ==> n == |text|);
      var k := Split(Star(c), Pieces(rest), text[..n]);
      assert text[..n][..k] == text[..k] && text[..n][k..] == text[k..][..n - k];
      assert Run(c, text, k) by {
        forall j | 0 <= j < k ensures Fits(c, text[j]) {
          assert text[j] == text[..k][j];
        }
      }
      assert InLanguage(Pieces(rest), text[k..][..n - k]);
      assert Here(rest, text[k..]);
    }
    if StarHere(c, rest, text) {
      var k :| 0 <= k <= |text| && Run(c, text, k) && Here(rest, text[k..]);
      var t := text[k..];
      var n :| 0 <= n <= |t| && InLanguage(Pieces(rest), t[..n]) && (AtEnd(rest) ==> n == |t|);
      Head(Star(c), Pieces(rest), text[..k], t[..n]);
      assert text[..k] + t[..n] == text[..k + n];
      assert InLanguage(Pieces(re), text[..k + n]);
    }
  }

  // ----- patterns of single characters

  /** Neither '*' nor '$', and no '^' that would anchor it. */
  predicate Plain(w: string) { '*' !in w && '$' !in w && (w != [] ==> w[0] != '^') }

  /** u is w, but for any characters where w has '.'. */
  predicate Spells(w: string, u: string) { |u| == |w| && forall k :: 0 <= k < |w| ==> w[k] == '.' || w[k] == u[k] }

  /** The text at i is w. */
  predicate SpellsAt(w: string, text: string, i: int) { 0 <= i <= |text| - |w| && Spells(w, text[i..i + |w|]) }

  lemma {:induction false} HerePlain(w: string, text: string)
    requires '*' !in w && '$' !in w
    ensures Here(w, text) <==> |w| <= |text| && Spells(w, text[..|w|])
    decreases |w|
  {
    hide Here;
    if w == [] {
      HereEmpty(text);
    } else {
      HereOne(w, text);
      if text != "" {
        HerePlain(w[1..], text[1..]);
        SpellsMore(w, text);
      }
    }
  }

  lemma SpellsMore(w: string, text: string)
    requires w != [] && text != ""
    ensures |w| <= |text| && Spells(w, text[..|w|])
            <==> Fits(w[0], text[0]) && |w[1..]| <= |text[1..]| && Spells(w[1..], text[1..][..|w[1..]|])
  {
    if |w| <= |text| {
      assert text[1..][..|w| - 1] == text[..|w|][1..];
    }
  }

  lemma {:induction false} HerePlainEnd(w: string, text: string)
    requires '*' !in w && '$' !in w
    ensures Here(w + "$", text) <==> Spells(w, text)
    decreases |w|
  {
    hide Here;
    if w == [] {
      assert w + "$" == "$";
      HereEnd(text);
    } else {
      assert (w + "$")[1..] == w[1..] + "$";
      HereOne(w + "$", text);
      if text != "" {
        HerePlainEnd(w[1..], text[1..]);
      }
    }
  }

  /**
   * A pattern of single characters, '.' standing for any, matches just the texts that have it
   * somewhere; '^' ties it to the start and '$' to the end.
   */
  lemma PlainMatches(w: string, text: string)
    requires Plain(w) && w != []
    ensures Matches(w, text) <==> exists i :: SpellsAt(w, text, i)
    ensures Matches("^" + w, text) <==> |w| <= |text| && Spells(w, text[..|w|])
    ensures Matches(w + "$", text) <==> |w| <= |text| && Spells(w, text[|text| - |w|..])
    ensures Matches("^" + w + "$", text) <==> Spells(w, text)
  {
    hide Here;
    hide Spells;
    assert ("^" + w)[1..] == w && ("^" + w + "$")[1..] == w + "$";
    HerePlain(w, text);
    HerePlainEnd(w, text);
    PlainAnywhere(w, text);
    PlainAtEnd(w, text);
  }

  lemma PlainAnywhere(w: string, text: string)
    requires Plain(w) && w != []
    ensures Matches(w, text) <==> exists i :: SpellsAt(w, text, i)
  {
    hide Here;
    hide Spells;
    forall i | 0 <= i <= |text|
      ensures Here(w, text[i..]) <==> SpellsAt(w, text, i)
    {
      HerePlain(w, text[i..]);
      if i <= |text| - |w| {
        assert text[i..][..|w|] == text[i..i + |w|];
      }
    }
    if exists i :: SpellsAt(w, text, i) {
      var i :| SpellsAt(w, text, i);
      assert Here(w, text[i..]);
    }
  }

  lemma PlainAtEnd(w: string, text: string)
    requires Plain(w) && w != []
    ensures Matches(w + "$", text) <==> |w| <= |text| && Spells(w, text[|text| - |w|..])
  {
    hide Here;
    forall i | 0 <= i <= |text| ensures Here(w + "$", text[i..]) <==> Spells(w, text[i..]) {
      HerePlainEnd(w, text[i..]);
    }
    assert (w + "$")[0] == w[0];
    if |w| <= |text| && Spells(w, text[|text| - |w|..]) {
      assert Here(w + "$", text[|text| - |w|..]);
    }
    if Matches(w + "$", text) {
      var i :| 0 <= i <= |text| && Here(w + "$", text[i..]);
      assert |text[i..]| == |w| && i == |text| - |w|;
    }
  }

  // ----- the matcher

  method Match(re: string, text: string) returns (found: bool)
    ensures found <==> Matches(re, text)
  {
    if re != [] && re[0] == '^' {
      found := MatchHere(re[1..], text);
      return;
    }
    var i := 0;
    while true
      invariant 0 <= i <= |text|
      invariant forall j :: 0 <= j < i ==> !Here(re, text[j..])
      decreases |text| - i
    {
      var here := MatchHere(re, text[i..]);
      if here {
        return true;
      }
      if i == |text| {
        break;
      }
      i := i + 1;
    }
    return false;
  }

  method MatchHere(re: string, text: string) returns (found: bool)
    ensures found <==> Here(re, text)
    decreases |re|, 0
  {
    if re == [] {
      HereEmpty(text);
      return true;
    }
    if |re| > 1 && re[1] == '*' {
      HereStar(re, text);
      found := MatchStar(re[0], re[2..], text);
      return;
    }
    if re[0] == '$' && |re| == 1 {
      HereEnd(text);
      return text == "";
    }
    HereOne(re, text);
    if text != "" && (re[0] == '.' || re[0] == text[0]) {
      found := MatchHere(re[1..], text[1..]);
      return;
    }
    return false;
  }

  method MatchStar(c: char, re: string, text: string) returns (found: bool)
    ensures found <==> StarHere(c, re, text)
    decreases |re|, 1
  {
    var i := 0;
    while true
      invariant 0 <= i <= |text| && Run(c, text, i)
      invariant forall k :: 0 <= k < i ==> !Here(re, text[k..])
      decreases |text| - i
    {
      var here := MatchHere(re, text[i..]);
      if here {
        return true;
      }
      if i == |text| || !(text[i] == c || c == '.') {
        break;
      }
      i := i + 1;
    }
    return false;
  }
}
