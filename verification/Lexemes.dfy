/**
 Text as words and marks. A word is a maximal run of letters, digits and underscores, which is what
 a `\b...\b` pattern of an identifier sees; every other character is a mark.
 */
module Lexemes {

  datatype Lexeme = Word(text: string) | Mark(c: char)

  predicate IsWordChar(c: char) {
    'a' <= c <= 'z' || 'A' <= c <= 'Z' || '0' <= c <= '9' || c == '_'
  }

  predicate AllWordChars(s: string) {
    forall c :: c in s ==> IsWordChar(c)
  }

  /** Length of the word a text starts with. */
  function WordLength(s: string): (n: nat)
    ensures n <= |s| && AllWordChars(s[..n])
    ensures n < |s| ==> !IsWordChar(s[n])
    ensures s != "" && IsWordChar(s[0]) ==> n > 0
  {
    if s == "" || !IsWordChar(s[0]) then 0
    else
      var n := WordLength(s[1..]);
      assert s[..n + 1] == [s[0]] + s[1..][..n];
      n + 1
  }

  function Lex(s: string): seq<Lexeme>
    decreases |s|
  {
    if s == "" then []
    else if IsWordChar(s[0]) then
      var n := WordLength(s);
      [Word(s[..n])] + Lex(s[n..])
    else [Mark(s[0])] + Lex(s[1..])
  }

  function LexemeText(x: Lexeme): string {
    match x
    case Word(t) => t
    case Mark(c) => [c]
  }

  function Text(ls: seq<Lexeme>): string {
    if ls == [] then "" else LexemeText(ls[0]) + Text(ls[1..])
  }

  predicate Proper(x: Lexeme) {
    match x
    case Word(t) => t != "" && AllWordChars(t)
    case Mark(c) => !IsWordChar(c)
  }

  /** Lexemes as Lex produces them: proper, and no two words side by side. */
  predicate WellLexed(ls: seq<Lexeme>) {
    && (forall i :: 0 <= i < |ls| ==> Proper(ls[i]))
    && (forall i :: 0 < i < |ls| ==> !(ls[i - 1].Word? && ls[i].Word?))
  }

  lemma {:induction false} WordLengthOf(w: string, rest: string)
    requires AllWordChars(w) && (rest != "" ==> !IsWordChar(rest[0]))
    ensures WordLength(w + rest) == |w|
  {
    if w == "" {
      assert w + rest == rest;
    } else {
      assert (w + rest)[1..] == w[1..] + rest;
      WordLengthOf(w[1..], rest);
    }
  }

  /** A word up to a mark or the end is one lexeme. */
  lemma LexWord(w: string, rest: string)
    requires w != "" && AllWordChars(w) && (rest != "" ==> !IsWordChar(rest[0]))
    ensures Lex(w + rest) == [Word(w)] + Lex(rest)
  {
    WordLengthOf(w, rest);
    assert w[0] in w && (w + rest)[0] == w[0];
    assert (w + rest)[..|w|] == w && (w + rest)[|w|..] == rest;
  }

  lemma LexMark(c: char, rest: string)
    requires !IsWordChar(c)
    ensures Lex([c] + rest) == [Mark(c)] + Lex(rest)
  {
    assert ([c] + rest)[1..] == rest;
  }

  /** Lexing loses nothing. */
  lemma {:induction false} TextOfLex(s: string)
    ensures Text(Lex(s)) == s
    decreases |s|
  {
    if s != "" {
      if IsWordChar(s[0]) {
        assert s[..1] == [s[0]];
        var n := WordLength(s);
        TextOfLex(s[n..]);
        assert s == s[..n] + s[n..];
      } else {
        TextOfLex(s[1..]);
        assert s == [s[0]] + s[1..];
      }
    }
  }

  lemma {:induction false} LexIsWellLexed(s: string)
    ensures WellLexed(Lex(s))
    ensures Lex(s) != [] && Lex(s)[0].Word? ==> s != "" && IsWordChar(s[0])
    decreases |s|
  {
    if s != "" {
      if IsWordChar(s[0]) {
        var n := WordLength(s);
        LexIsWellLexed(s[n..]);
        var rest := Lex(s[n..]);
        var ls := Lex(s);
        assert ls == [Word(s[..n])] + rest;
        forall i | 0 < i < |ls|
          ensures !(ls[i - 1].Word? && ls[i].Word?)
        {
          if i > 1 {
            assert ls[i] == rest[i - 1] && ls[i - 1] == rest[i - 2];
          }
        }
      } else {
        LexIsWellLexed(s[1..]);
        var rest, ls := Lex(s[1..]), Lex(s);
        assert ls == [Mark(s[0])] + rest;
        forall i | 0 < i < |ls|
          ensures !(ls[i - 1].Word? && ls[i].Word?)
        {
          if i > 1 {
            assert ls[i] == rest[i - 1] && ls[i - 1] == rest[i - 2];
          }
        }
      }
    }
  }

  /** Lexing the text of well-formed lexemes gives them back. */
  lemma {:induction false} LexOfText(ls: seq<Lexeme>)
    requires WellLexed(ls)
    ensures Lex(Text(ls)) == ls
  {
    if ls != [] {
      var rest := ls[1..];
      assert WellLexed(rest) by {
        assert forall i :: 0 <= i < |rest| ==> rest[i] == ls[i + 1];
      }
      LexOfText(rest);
      assert Proper(ls[0]);
      match ls[0]
      case Mark(c) => LexMark(c, Text(rest));
      case Word(w) =>
        if rest != [] {
          assert !ls[1].Word? && Proper(ls[1]);
          assert Text(rest) == LexemeText(rest[0]) + Text(rest[1..]);
        }
        LexWord(w, Text(rest));
    }
  }

  lemma {:induction false} TextConcat(a: seq<Lexeme>, b: seq<Lexeme>)
    ensures Text(a + b) == Text(a) + Text(b)
  {
    if a == [] {
      assert a + b == b;
    } else {
      assert (a + b)[1..] == a[1..] + b;
      TextConcat(a[1..], b);
    }
  }

  /** Every word of the lexemes substituted by f. */
  function MapWords(ls: seq<Lexeme>, f: string -> string): (r: seq<Lexeme>)
    ensures |r| == |ls|
  {
    seq(|ls|, i requires 0 <= i < |ls| => if ls[i].Word? then Word(f(ls[i].text)) else ls[i])
  }
}
