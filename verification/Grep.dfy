/** grep's matcher (user/grep.c) against a declarative meaning of its patterns. Strings end where C's end
    with a zero byte. */
module Grep {

  datatype Atom = Any | Lit(c: char)

  predicate Accepts(a: Atom, c: char) { a.Any? || a.c == c }

  /** A pattern is a list of pieces: one character, any number of one kind, or the end of the text. */
  datatype Piece = One(a: Atom) | Star(a: Atom) | End

  function AtomOf(c: char): Atom { if c == '.' then Any else Lit(c) }

  /** How the matcher reads a pattern. A star makes the character before it a repetition, whatever that
      is; a dollar sign is the end only where it stands last. */
  function Parse(re: string): seq<Piece> {
    if re == "" then []
    else if |re| > 1 && re[1] == '*' then [Star(AtomOf(re[0]))] + Parse(re[2..])
    else if re == "$" then [End]
    else [One(AtomOf(re[0]))] + Parse(re[1..])
  }

  /** What a piece stands for. */
  predicate Fits(p: Piece, s: string) {
    match p
    case One(a) => |s| == 1 && Accepts(a, s[0])
    case Star(a) => forall i :: 0 <= i < |s| ==> Accepts(a, s[i])
    case End => s == ""
  }

  function Joined(parts: seq<string>): string {
    if parts == [] then "" else parts[0] + Joined(parts[1..])
  }

  predicate Anchored(ps: seq<Piece>) { ps != [] && ps[|ps| - 1].End? }

  /** The first k characters of the text are made of parts that fit the pieces, and are all of it where
      the pattern says so. */
  ghost predicate Spells(ps: seq<Piece>, parts: seq<string>, text: string, k: nat) {
    && |parts| == |ps| && k <= |text| && Joined(parts) == text[..k]
    && (forall i: nat {:trigger ps[i]} {:trigger parts[i]} :: i < |ps| ==> Fits(ps[i], parts[i]))
    && (Anchored(ps) ==> k == |text|)
  }

  /** The pattern matches at the beginning of the text. */
  ghost predicate Here(ps: seq<Piece>, text: string) {
    exists parts: seq<string>, k: nat :: Spells(ps, parts, text, k)
  }

  /** It matches somewhere in it. */
  ghost predicate Somewhere(ps: seq<Piece>, text: string) {
    exists i: nat :: i <= |text| && Here(ps, text[i..])
  }

  /** A first part in front of a match of the rest. */
  lemma Prepend(p: Piece, ps: seq<Piece>, n: nat, text: string)
    requires n <= |text| && Fits(p, text[..n]) && !p.End? && Here(ps, text[n..])
    ensures Here([p] + ps, text)
  {
    var parts: seq<string>, k: nat :| Spells(ps, parts, text[n..], k);
    var parts' := [text[..n]] + parts;
    assert parts'[1..] == parts;
    assert text[..n] + text[n..][..k] == text[..n + k];
    forall i: nat | i < |ps| + 1
        ensures Fits(([p] + ps)[i], parts'[i]) { assert i > 0 ==> Fits(ps[i - 1], parts[i - 1]); }
    assert Anchored([p] + ps) ==> Anchored(ps);
    assert Spells([p] + ps, parts', text, n + k);
  }

  /** And the other way round. */
  lemma Remove(p: Piece, ps: seq<Piece>, text: string) returns (n: nat)
    requires !p.End? && Here([p] + ps, text)
    ensures n <= |text| && Fits(p, text[..n]) && Here(ps, text[n..])
  {
    var parts: seq<string>, k: nat :| Spells([p] + ps, parts, text, k);
    n := |parts[0]|;
    assert Fits(([p] + ps)[0], parts[0]);
    assert Joined(parts) == parts[0] + Joined(parts[1..]);
    assert text[..n] == text[..k][..n] == parts[0];
    assert text[n..][..k - n] == text[..k][n..] == Joined(parts[1..]);
    forall i: nat | i < |ps| ensures Fits(ps[i], parts[1..][i]) { assert Fits(([p] + ps)[i + 1], parts[i + 1]); }
    assert Spells(ps, parts[1..], text[n..], k - n);
  }

  lemma HereNothing(text: string)
    ensures Here([], text)
  {
    assert Spells([], [], text, 0);
  }

  lemma HereEnd(text: string)
    ensures Here([End], text) <==> text == ""
  {
    if text == "" { assert Spells([End], [""], text, 0); }
    if Here([End], text) {
      var parts: seq<string>, k: nat :| Spells([End], parts, text, k);
      assert Fits([End][0], parts[0]) && parts[1..] == [];
      assert Joined(parts) == "" && |text[..k]| == k;
    }
  }

  lemma HereOne(a: Atom, ps: seq<Piece>, text: string)
    ensures Here([One(a)] + ps, text) <==> text != "" && Accepts(a, text[0]) && Here(ps, text[1..])
  {
    if Here([One(a)] + ps, text) { var n := Remove(One(a), ps, text); }
    if text != "" && Accepts(a, text[0]) && Here(ps, text[1..]) { Prepend(One(a), ps, 1, text); }
  }

  /** A repetition followed by the rest: the rest matches after some number of characters of the kind. */
  lemma HereStar(a: Atom, ps: seq<Piece>, text: string)
    ensures Here([Star(a)] + ps, text) <==>
            exists n: nat :: n <= |text| && Fits(Star(a), text[..n]) && Here(ps, text[n..])
  {
    if Here([Star(a)] + ps, text) { var n := Remove(Star(a), ps, text); }
    if n: nat :| n <= |text| && Fits(Star(a), text[..n]) && Here(ps, text[n..]) { Prepend(Star(a), ps, n, text); }
  }

  lemma TakesChar(a: Atom, text: string, i: nat, n: nat)
    requires i < n <= |text| && Fits(Star(a), text[..n])
    ensures Accepts(a, text[i])
  {
    assert text[..n][i] == text[i];
  }

  /** matchhere */
  method MatchHere(re: string, text: string) returns (b: bool)
    ensures b <==> Here(Parse(re), text)
    decreases |re|, 0
  {
    if re == "" {
      HereNothing(text);
      return true;
    }
    if |re| > 1 && re[1] == '*' {
      HereStar(AtomOf(re[0]), Parse(re[2..]), text);
      b := MatchStar(re[0], re[2..], text);
      return;
    }
    if re[0] == '$' && |re| == 1 {
      HereEnd(text);
      return text == "";
    }
    HereOne(AtomOf(re[0]), Parse(re[1..]), text);
    if text != "" && (re[0] == '.' || re[0] == text[0]) {
      b := MatchHere(re[1..], text[1..]);
      return;
    }
    b := false;
  }

  /** matchstar */
  method MatchStar(c: char, re: string, text: string) returns (b: bool)
    ensures b <==> exists n: nat :: n <= |text| && Fits(Star(AtomOf(c)), text[..n]) && Here(Parse(re), text[n..])
    decreases |re|, 1
  {
    var i: nat := 0;
    while true
      invariant i <= |text| && Fits(Star(AtomOf(c)), text[..i])
      invariant forall n: nat :: n < i ==> !Here(Parse(re), text[n..])
      decreases |text| - i
    {
      b := MatchHere(re, text[i..]);
      if b { return; }
      forall n: nat | i < n <= |text| && Fits(Star(AtomOf(c)), text[..n]) ensures Accepts(AtomOf(c), text[i]) {
        TakesChar(AtomOf(c), text, i, n);
      }
      if i == |text| || !(text[i] == c || c == '.') { return; }
      i := i + 1;
    }
  }

  /** match: a pattern that begins with ^ matches at the beginning, any other somewhere. */
  method Match(re: string, text: string) returns (b: bool)
    ensures b <==> if re != "" && re[0] == '^' then Here(Parse(re[1..]), text) else Somewhere(Parse(re), text)
  {
    if re != "" && re[0] == '^' {
      b := MatchHere(re[1..], text);
      return;
    }
    var i: nat := 0;
    while true
      invariant i <= |text| && forall n: nat :: n < i ==> !Here(Parse(re), text[n..])
      decreases |text| - i
    {
      b := MatchHere(re, text[i..]);
      if b || i == |text| { return; }
      i := i + 1;
    }
  }
}
