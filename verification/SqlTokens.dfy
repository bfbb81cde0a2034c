/**
 SQL text as a database reads it: names, numbers, string literals in single quotes with a quote inside
 written twice, operators, parentheses, commas and minus signs. Other marks stop the reader.
 */
module SqlTokens {
  import opened Optional
  import opened Text
  import L = Lexemes
  import F = RowFilterLoop

  /** A number keeps its digits; the fraction is empty for a whole number. */
  datatype Token =
    | Name(word: string)
    | Number(whole: string, fraction: string)
    | Literal(text: string)
    | Op(sign: string)
    | Open
    | Close
    | Comma
    | Minus

  const QUOTE: L.Lexeme := L.Mark('\'')
  const CLOSE: L.Lexeme := L.Mark(')')

  predicate IsDigit(c: char) { '0' <= c <= '9' }

  predicate AllDigits(s: string) { s != "" && forall c :: c in s ==> IsDigit(c) }

  predicate StartsName(w: string) { w != "" && !IsDigit(w[0]) }

  predicate IsSign(c: char) { c == '=' || c == '<' || c == '>' || c == '!' }

  predicate IsOpMark(x: L.Lexeme) { x.Mark? && IsSign(x.c) }

  // ---------------------------------------------------------------- one token

  /** The next piece of the text: nothing readable, white space, or a token. */
  datatype Scan = Stuck | Blank(rest: seq<L.Lexeme>) | Took(token: Token, rest: seq<L.Lexeme>)

  /** The lexemes of a literal up to its closing quote; a doubled quote is a quote. */
  function LiteralEnd(ls: seq<L.Lexeme>): Option<(seq<L.Lexeme>, seq<L.Lexeme>)>
    ensures LiteralEnd(ls).Some? ==> |LiteralEnd(ls).value.1| < |ls|
    decreases |ls|
  {
    if ls == [] then None
    else if ls[0] != QUOTE then
      var r := LiteralEnd(ls[1..]);
      if r.None? then None else Some(([ls[0]] + r.value.0, r.value.1))
    else if |ls| > 1 && ls[1] == QUOTE then
      var r := LiteralEnd(ls[2..]);
      if r.None? then None else Some(([QUOTE] + r.value.0, r.value.1))
    else Some(([], ls[1..]))
  }

  /** How many operator signs stand in front. */
  function OpLength(ls: seq<L.Lexeme>): (n: nat)
    ensures n <= |ls|
    ensures ls != [] && IsOpMark(ls[0]) ==> n > 0
  {
    if ls == [] || !IsOpMark(ls[0]) then 0 else 1 + OpLength(ls[1..])
  }

  predicate HasFraction(ls: seq<L.Lexeme>) {
    |ls| > 2 && ls[1] == L.Mark('.') && ls[2].Word? && AllDigits(ls[2].text)
  }

  function NextWord(w: string, ls: seq<L.Lexeme>): (r: Scan)
    requires ls != []
    ensures r.Took? || r.Blank? ==> |r.rest| < |ls|
  {
    if StartsName(w) then Took(Name(w), ls[1..])
    else if !AllDigits(w) then Stuck
    else if HasFraction(ls) then Took(Number(w, ls[2].text), ls[3..])
    else Took(Number(w, ""), ls[1..])
  }

  function NextMark(c: char, ls: seq<L.Lexeme>): (r: Scan)
    requires ls != [] && ls[0] == L.Mark(c)
    ensures r.Took? || r.Blank? ==> |r.rest| < |ls|
  {
    if IsSpace(c) then Blank(ls[1..])
    else if c == '(' then Took(Open, ls[1..])
    else if c == ')' then Took(Close, ls[1..])
    else if c == ',' then Took(Comma, ls[1..])
    else if c == '-' then Took(Minus, ls[1..])
    else if c == '\'' then
      var r := LiteralEnd(ls[1..]);
      if r.None? then Stuck else Took(Literal(L.Text(r.value.0)), r.value.1)
    else if IsSign(c) then Took(Op(L.Text(ls[..OpLength(ls)])), ls[OpLength(ls)..])
    else Stuck
  }

  function Next(ls: seq<L.Lexeme>): (r: Scan)
    requires ls != []
    ensures r.Took? || r.Blank? ==> |r.rest| < |ls|
  {
    match ls[0]
    case Word(w) => NextWord(w, ls)
    case Mark(c) => NextMark(c, ls)
  }

  // ---------------------------------------------------------------- all tokens

  function Cons(t: Token, ts: Option<seq<Token>>): Option<seq<Token>> {
    if ts.None? then None else Some([t] + ts.value)
  }

  function Tokens(ls: seq<L.Lexeme>): Option<seq<Token>>
    decreases |ls|
  {
    if ls == [] then Some([])
    else
      match Next(ls)
      case Stuck => None
      case Blank(rest) => Tokens(rest)
      case Took(t, rest) => Cons(t, Tokens(rest))
  }

  function TokensOf(s: string): Option<seq<Token>> { Tokens(L.Lex(s)) }

  // ---------------------------------------------------------------- a closing parenthesis ends whatever came before

  lemma {:induction false} LiteralEndBefore(ls: seq<L.Lexeme>, tail: seq<L.Lexeme>)
    requires LiteralEnd(ls).Some? && tail != [] && tail[0] != QUOTE
    ensures LiteralEnd(ls + tail) == Some((LiteralEnd(ls).value.0, LiteralEnd(ls).value.1 + tail))
    decreases |ls|
  {
    var all := ls + tail;
    if ls[0] != QUOTE {
      assert all[1..] == ls[1..] + tail;
      LiteralEndBefore(ls[1..], tail);
    } else if |ls| > 1 && ls[1] == QUOTE {
      assert all[2..] == ls[2..] + tail;
      LiteralEndBefore(ls[2..], tail);
    } else {
      assert all[1] == if |ls| > 1 then ls[1] else tail[0];
      assert all[1..] == ls[1..] + tail;
    }
  }

  lemma {:induction false} OpLengthBefore(ls: seq<L.Lexeme>, tail: seq<L.Lexeme>)
    requires tail != [] && !IsOpMark(tail[0])
    ensures OpLength(ls + tail) == OpLength(ls)
  {
    if ls == [] {
      assert ls + tail == tail;
    } else if IsOpMark(ls[0]) {
      assert (ls + tail)[1..] == ls[1..] + tail;
      OpLengthBefore(ls[1..], tail);
    }
  }

  /** A scan with more text behind it. */
  function Extended(r: Scan, tail: seq<L.Lexeme>): Scan {
    match r
    case Stuck => Stuck
    case Blank(rest) => Blank(rest + tail)
    case Took(t, rest) => Took(t, rest + tail)
  }

  lemma NextWordBefore(w: string, ls: seq<L.Lexeme>, tail: seq<L.Lexeme>)
    requires ls != [] && tail != [] && tail[0] == CLOSE && !NextWord(w, ls).Stuck?
    ensures NextWord(w, ls + tail) == Extended(NextWord(w, ls), tail)
  {
    var all := ls + tail;
    assert all[1..] == ls[1..] + tail;
    assert HasFraction(all) <==> HasFraction(ls);
    if HasFraction(ls) {
      assert all[3..] == ls[3..] + tail;
    }
  }

  lemma NextMarkBefore(c: char, ls: seq<L.Lexeme>, tail: seq<L.Lexeme>)
    requires ls != [] && ls[0] == L.Mark(c) && tail != [] && tail[0] == CLOSE && !NextMark(c, ls).Stuck?
    ensures NextMark(c, ls + tail) == Extended(NextMark(c, ls), tail)
  {
    var all, n := ls + tail, OpLength(ls);
    assert all[1..] == ls[1..] + tail;
    if c == '\'' {
      LiteralEndBefore(ls[1..], tail);
    } else if IsSign(c) {
      assert !IsOpMark(CLOSE);
      OpLengthBefore(ls, tail);
      assert all[..n] == ls[..n] && all[n..] == ls[n..] + tail;
    }
  }

  lemma NextBefore(ls: seq<L.Lexeme>, tail: seq<L.Lexeme>)
    requires ls != [] && tail != [] && tail[0] == CLOSE && !Next(ls).Stuck?
    ensures Next(ls + tail) == Extended(Next(ls), tail)
  {
    assert (ls + tail)[0] == ls[0];
    match ls[0]
    case Word(w) => NextWordBefore(w, ls, tail);
    case Mark(c) => NextMarkBefore(c, ls, tail);
  }

  function Plus(a: Option<seq<Token>>, b: Option<seq<Token>>): Option<seq<Token>> {
    if a.None? || b.None? then None else Some(a.value + b.value)
  }

  lemma ConsThenPlus(t: Token, a: Option<seq<Token>>, b: Option<seq<Token>>)
    ensures Cons(t, Plus(a, b)) == Plus(Cons(t, a), b)
  {
    if a.Some? && b.Some? {
      assert [t] + (a.value + b.value) == ([t] + a.value) + b.value;
    }
  }

  /** One step of the reader, with and without more text behind it. */
  lemma TokensStep(ls: seq<L.Lexeme>, tail: seq<L.Lexeme>)
    requires ls != [] && !Next(ls).Stuck? && Next(ls + tail) == Extended(Next(ls), tail)
    requires Tokens(Next(ls).rest + tail) == Plus(Tokens(Next(ls).rest), Tokens(tail))
    ensures Tokens(ls + tail) == Plus(Tokens(ls), Tokens(tail))
  {
    var r := Next(ls);
    assert ls + tail != [];
    if r.Took? {
      ConsThenPlus(r.token, Tokens(r.rest), Tokens(tail));
    }
  }

  lemma {:induction false} TokensBefore(ls: seq<L.Lexeme>, tail: seq<L.Lexeme>)
    requires Tokens(ls).Some? && tail != [] && tail[0] == CLOSE
    ensures Tokens(ls + tail) == Plus(Tokens(ls), Tokens(tail))
    decreases |ls|
  {
    if ls == [] {
      assert ls + tail == tail;
      assert Tokens(tail).Some? ==> [] + Tokens(tail).value == Tokens(tail).value;
    } else {
      NextBefore(ls, tail);
      TokensBefore(Next(ls).rest, tail);
      TokensStep(ls, tail);
    }
  }

  /** Text that is read, followed by a closing parenthesis and more. */
  lemma TextBefore(s: string, tail: string)
    requires TokensOf(s).Some? && tail != "" && tail[0] == ')'
    ensures TokensOf(s + tail) == Plus(TokensOf(s), TokensOf(tail))
  {
    F.LexConcat(s, tail);
    assert tail == [')'] + tail[1..];
    L.LexMark(')', tail[1..]);
    TokensBefore(L.Lex(s), L.Lex(tail));
  }

  // ---------------------------------------------------------------- reading written tokens

  lemma MarkFirst(c: char, rest: string)
    requires !L.IsWordChar(c)
    ensures L.Lex([c] + rest) == [L.Mark(c)] + L.Lex(rest) && ([L.Mark(c)] + L.Lex(rest))[1..] == L.Lex(rest)
  {
    L.LexMark(c, rest);
  }

  lemma BlankText(c: char, rest: string)
    requires IsSpace(c)
    ensures TokensOf([c] + rest) == TokensOf(rest)
  {
    MarkFirst(c, rest);
  }

  function MarkToken(c: char): Token
    requires c in "(),-"
  {
    if c == '(' then Open else if c == ')' then Close else if c == ',' then Comma else Minus
  }

  lemma MarkText(c: char, rest: string)
    requires c in "(),-"
    ensures TokensOf([c] + rest) == Cons(MarkToken(c), TokensOf(rest))
  {
    assert c == '(' || c == ')' || c == ',' || c == '-';
    MarkFirst(c, rest);
  }

  /** What may follow a word or a number: white space, a parenthesis, a comma, or the end. */
  predicate Apart(rest: string) { rest == "" || IsSpace(rest[0]) || rest[0] in "()," }

  lemma ApartMark(rest: string)
    requires Apart(rest) && rest != ""
    ensures !L.IsWordChar(rest[0]) && !IsSign(rest[0]) && rest[0] != '.' && rest[0] != '\''
    ensures L.Lex(rest) != [] && L.Lex(rest)[0] == L.Mark(rest[0])
  {
    assert rest[0] in "()," ==> rest[0] == '(' || rest[0] == ')' || rest[0] == ',';
    assert rest == [rest[0]] + rest[1..];
    MarkFirst(rest[0], rest[1..]);
  }

  lemma NameText(w: string, rest: string)
    requires StartsName(w) && L.AllWordChars(w) && Apart(rest)
    ensures TokensOf(w + rest) == Cons(Name(w), TokensOf(rest))
  {
    if rest != "" {
      ApartMark(rest);
    }
    L.LexWord(w, rest);
    assert ([L.Word(w)] + L.Lex(rest))[1..] == L.Lex(rest);
  }

  lemma DigitsAreWordChars(w: string)
    requires AllDigits(w)
    ensures L.AllWordChars(w) && !StartsName(w)
  {
    assert w[0] in w;
  }

  lemma WholeText(w: string, rest: string)
    requires AllDigits(w) && Apart(rest)
    ensures TokensOf(w + rest) == Cons(Number(w, ""), TokensOf(rest))
  {
    DigitsAreWordChars(w);
    if rest != "" {
      ApartMark(rest);
    }
    L.LexWord(w, rest);
    var ls := [L.Word(w)] + L.Lex(rest);
    assert ls[1..] == L.Lex(rest);
    assert !HasFraction(ls);
  }

  lemma FractionText(w: string, fraction: string, rest: string)
    requires AllDigits(w) && AllDigits(fraction) && Apart(rest)
    ensures TokensOf(w + (['.'] + (fraction + rest))) == Cons(Number(w, fraction), TokensOf(rest))
  {
    FractionLex(w, fraction, rest);
    FractionTokens(w, fraction, L.Lex(rest));
  }

  lemma FractionLex(w: string, fraction: string, rest: string)
    requires AllDigits(w) && AllDigits(fraction) && Apart(rest)
    ensures L.Lex(w + (['.'] + (fraction + rest))) == [L.Word(w)] + ([L.Mark('.')] + ([L.Word(fraction)] + L.Lex(rest)))
  {
    DigitsAreWordChars(w);
    DigitsAreWordChars(fraction);
    if rest != "" {
      ApartMark(rest);
    }
    L.LexWord(fraction, rest);
    MarkFirst('.', fraction + rest);
    L.LexWord(w, ['.'] + (fraction + rest));
  }

  lemma FractionTokens(w: string, fraction: string, tail: seq<L.Lexeme>)
    requires AllDigits(w) && AllDigits(fraction)
    ensures Tokens([L.Word(w)] + ([L.Mark('.')] + ([L.Word(fraction)] + tail))) ==
              Cons(Number(w, fraction), Tokens(tail))
  {
    var ls := [L.Word(w)] + ([L.Mark('.')] + ([L.Word(fraction)] + tail));
    DigitsAreWordChars(w);
    assert HasFraction(ls) && ls[3..] == tail;
    assert Next(ls) == Took(Number(w, fraction), tail);
  }

  /** The signs in front are those of an operator. */
  predicate SplitsAt(ls: seq<L.Lexeme>, sign: string, tail: seq<L.Lexeme>) {
    |ls| >= |sign| && OpLength(ls) == |sign| && L.Text(ls[..|sign|]) == sign && ls[|sign|..] == tail
  }

  predicate AllSigns(sign: string) { forall c :: c in sign ==> IsSign(c) }

  lemma NoSigns(rest: string)
    requires rest != "" ==> !IsSign(rest[0])
    ensures SplitsAt(L.Lex(rest), "", L.Lex(rest))
  {
    if rest != "" && !L.IsWordChar(rest[0]) {
      assert rest == [rest[0]] + rest[1..];
      MarkFirst(rest[0], rest[1..]);
    }
    assert L.Lex(rest)[..0] == [];
  }

  lemma OneMoreSign(c: char, sign: string, ls: seq<L.Lexeme>, tail: seq<L.Lexeme>)
    requires IsSign(c) && SplitsAt(ls, sign, tail)
    ensures SplitsAt([L.Mark(c)] + ls, [c] + sign, tail)
  {
    var all, n := [L.Mark(c)] + ls, |sign|;
    assert all[1..] == ls;
    assert all[..n + 1] == [L.Mark(c)] + ls[..n];
    assert ([L.Mark(c)] + ls[..n])[1..] == ls[..n];
    assert all[n + 1..] == ls[n..];
  }

  /** The sign of an operator, as lexemes. */
  lemma {:induction false} SignsLex(sign: string, rest: string)
    requires AllSigns(sign) && (rest != "" ==> !IsSign(rest[0]))
    ensures SplitsAt(L.Lex(sign + rest), sign, L.Lex(rest))
  {
    if sign == "" {
      assert sign + rest == rest;
      NoSigns(rest);
    } else {
      var c, more := sign[0], sign[1..];
      assert c in sign && forall d :: d in more ==> d in sign;
      SignsLex(more, rest);
      OneMoreSign(c, more, L.Lex(more + rest), L.Lex(rest));
      assert sign + rest == [c] + (more + rest) && sign == [c] + more;
      MarkFirst(c, more + rest);
    }
  }

  lemma OpText(sign: string, rest: string)
    requires sign != "" && AllSigns(sign) && (rest != "" ==> !IsSign(rest[0]))
    ensures TokensOf(sign + rest) == Cons(Op(sign), TokensOf(rest))
  {
    var ls := L.Lex(sign + rest);
    SignsLex(sign, rest);
    assert ls != [] && IsOpMark(ls[0]);
    assert Next(ls) == Took(Op(sign), L.Lex(rest));
  }

  // ---------------------------------------------------------------- literals

  /** A quote among the lexemes written twice. */
  function DoubledQuotes(ls: seq<L.Lexeme>): seq<L.Lexeme> {
    if ls == [] then []
    else (if ls[0] == QUOTE then [QUOTE, QUOTE] else [ls[0]]) + DoubledQuotes(ls[1..])
  }

  lemma {:induction false} LiteralEndOfDoubled(ls: seq<L.Lexeme>, tail: seq<L.Lexeme>)
    requires tail != [] ==> tail[0] != QUOTE
    ensures LiteralEnd(DoubledQuotes(ls) + ([QUOTE] + tail)) == Some((ls, tail))
  {
    var all := DoubledQuotes(ls) + ([QUOTE] + tail);
    if ls == [] {
      assert all == [QUOTE] + tail;
    } else {
      LiteralEndOfDoubled(ls[1..], tail);
      assert [ls[0]] + ls[1..] == ls;
      if ls[0] == QUOTE {
        assert all[2..] == DoubledQuotes(ls[1..]) + ([QUOTE] + tail);
      } else {
        assert all[1..] == DoubledQuotes(ls[1..]) + ([QUOTE] + tail);
      }
    }
  }

  lemma {:induction false} DoubledWord(w: string)
    requires L.AllWordChars(w)
    ensures F.Doubled(w) == w
  {
    if w != "" {
      assert w[0] in w;
      DoubledWord(w[1..]);
    }
  }

  lemma {:induction false} DoubledConcat(a: string, b: string)
    ensures F.Doubled(a + b) == F.Doubled(a) + F.Doubled(b)
  {
    if a == "" {
      assert a + b == b;
    } else {
      assert (a + b)[1..] == a[1..] + b;
      DoubledConcat(a[1..], b);
    }
  }

  lemma {:induction false} DoubledFirst(s: string)
    ensures F.Doubled(s) == "" <==> s == ""
    ensures s != "" ==> F.Doubled(s)[0] == s[0]
  {
  }

  /** A doubled text with its closing quote and what follows. */
  function Closed(s: string, rest: string): string { F.Doubled(s) + (['\''] + rest) }

  /** The lexemes of such a text. */
  function ClosedLexemes(ls: seq<L.Lexeme>, rest: string): seq<L.Lexeme> { DoubledQuotes(ls) + ([QUOTE] + L.Lex(rest)) }

  lemma ClosedMark(c: char, s: string, rest: string)
    ensures Closed([c] + s, rest) == [c] + if c == '\'' then [c] + Closed(s, rest) else Closed(s, rest)
  {
    assert ([c] + s)[1..] == s;
    assert F.Doubled([c] + s) == (if c == '\'' then [c] + [c] else [c]) + F.Doubled(s);
  }

  lemma ClosedLexeme(x: L.Lexeme, ls: seq<L.Lexeme>, rest: string)
    ensures ClosedLexemes([x] + ls, rest) ==
            [x] + if x == QUOTE then [x] + ClosedLexemes(ls, rest) else ClosedLexemes(ls, rest)
  {
    assert ([x] + ls)[1..] == ls;
    assert DoubledQuotes([x] + ls) == (if x == QUOTE then [x] + [x] else [x]) + DoubledQuotes(ls);
  }

  lemma LexClosedMark(c: char, s: string, rest: string)
    requires !L.IsWordChar(c) && L.Lex(Closed(s, rest)) == ClosedLexemes(L.Lex(s), rest)
    ensures L.Lex(Closed([c] + s, rest)) == ClosedLexemes(L.Lex([c] + s), rest)
  {
    ClosedMark(c, s, rest);
    MarkFirst(c, s);
    ClosedLexeme(L.Mark(c), L.Lex(s), rest);
    MarkFirst(c, Closed(s, rest));
    MarkFirst(c, [c] + Closed(s, rest));
  }

  lemma ClosedWord(w: string, s: string, rest: string)
    requires L.AllWordChars(w) && (s != "" ==> !L.IsWordChar(s[0]))
    ensures Closed(w + s, rest) == w + Closed(s, rest)
    ensures !L.IsWordChar(Closed(s, rest)[0])
  {
    DoubledConcat(w, s);
    DoubledWord(w);
    DoubledFirst(s);
  }

  lemma LexClosedWord(w: string, s: string, rest: string)
    requires w != "" && L.AllWordChars(w) && (s != "" ==> !L.IsWordChar(s[0]))
    requires L.Lex(Closed(s, rest)) == ClosedLexemes(L.Lex(s), rest)
    ensures L.Lex(Closed(w + s, rest)) == ClosedLexemes(L.Lex(w + s), rest)
  {
    ClosedWord(w, s, rest);
    L.LexWord(w, Closed(s, rest));
    L.LexWord(w, s);
    ClosedLexeme(L.Word(w), L.Lex(s), rest);
  }

  /** The lexemes of a doubled text followed by its closing quote. */
  lemma {:induction false} LexDoubled(s: string, rest: string)
    ensures L.Lex(Closed(s, rest)) == ClosedLexemes(L.Lex(s), rest)
    decreases |s|
  {
    if s == "" {
      MarkFirst('\'', rest);
      assert Closed(s, rest) == ['\''] + rest;
    } else if L.IsWordChar(s[0]) {
      var n := L.WordLength(s);
      LexDoubled(s[n..], rest);
      LexClosedWord(s[..n], s[n..], rest);
      assert s == s[..n] + s[n..];
    } else {
      LexDoubled(s[1..], rest);
      LexClosedMark(s[0], s[1..], rest);
      assert s == [s[0]] + s[1..];
    }
  }

  lemma SqlStringIsClosed(s: string, rest: string)
    ensures F.SqlString(s) + rest == ['\''] + Closed(s, rest)
  {
  }

  /** A string written by `_sql_string` is read as the literal it was made of. */
  lemma LiteralText(s: string, rest: string)
    requires Apart(rest)
    ensures TokensOf(F.SqlString(s) + rest) == Cons(Literal(s), TokensOf(rest))
  {
    if rest != "" {
      ApartMark(rest);
    }
    SqlStringIsClosed(s, rest);
    MarkFirst('\'', Closed(s, rest));
    LexDoubled(s, rest);
    LiteralEndOfDoubled(L.Lex(s), L.Lex(rest));
    L.TextOfLex(s);
  }

  // ---------------------------------------------------------------- words of the text

  lemma {:induction false} NamesAreWords(ls: seq<L.Lexeme>, w: string)
    requires Tokens(ls).Some? && Name(w) in Tokens(ls).value
    ensures L.Word(w) in ls && StartsName(w)
    decreases |ls|
  {
    var r := Next(ls);
    if r.Blank? {
      assert r.rest == ls[1..];
      NamesAreWords(r.rest, w);
    } else if r.token == Name(w) {
      assert ls[0] == L.Word(w);
    } else {
      NamesAreWords(r.rest, w);
      RestIsSuffix(ls);
    }
  }

  lemma {:induction false} LiteralRestIsSuffix(ls: seq<L.Lexeme>)
    requires LiteralEnd(ls).Some?
    ensures forall x :: x in LiteralEnd(ls).value.1 ==> x in ls
    decreases |ls|
  {
    if ls[0] != QUOTE {
      LiteralRestIsSuffix(ls[1..]);
    } else if |ls| > 1 && ls[1] == QUOTE {
      LiteralRestIsSuffix(ls[2..]);
    }
  }

  lemma RestIsSuffix(ls: seq<L.Lexeme>)
    requires ls != [] && Next(ls).Took?
    ensures forall x :: x in Next(ls).rest ==> x in ls
  {
    if ls[0] == QUOTE {
      LiteralRestIsSuffix(ls[1..]);
    }
  }

  // ---------------------------------------------------------------- mapping the words

  /** What happens to names, and to the texts of literals. */
  datatype Renaming = Renaming(names: string -> string, texts: string -> string)

  /** Every word of the text is mapped, in literals as anywhere else. */
  function Rewriting(f: string -> string): Renaming { Renaming(f, s => Reworded(s, f)) }

  function Reworded(s: string, f: string -> string): string { L.Text(L.MapWords(L.Lex(s), f)) }

  /** Names are mapped, and literals stay. */
  function NamesOnly(f: string -> string): Renaming { Renaming(f, s => s) }

  /** Names stay names, and numbers stay themselves. */
  ghost predicate KeepsForm(f: string -> string) {
    forall w :: if StartsName(w) then StartsName(f(w)) else f(w) == w
  }

  function MapToken(t: Token, f: Renaming): Token {
    match t
    case Name(w) => Name(f.names(w))
    case Literal(text) => Literal(f.texts(text))
    case _ => t
  }

  function MapTokens(ts: seq<Token>, f: Renaming): (r: seq<Token>)
    ensures |r| == |ts|
  {
    seq(|ts|, i requires 0 <= i < |ts| => MapToken(ts[i], f))
  }

  /** The literals stay themselves although their words are mapped. */
  predicate FixesLiterals(ts: seq<Token>, f: string -> string) {
    forall t :: t in ts && t.Literal? ==> Reworded(t.text, f) == t.text
  }

  lemma FixedLiterals(ts: seq<Token>, f: string -> string)
    ensures MapTokens(ts, Rewriting(f)) == MapTokens(ts, NamesOnly(f)) <==> FixesLiterals(ts, f)
  {
    if MapTokens(ts, Rewriting(f)) == MapTokens(ts, NamesOnly(f)) {
      forall t | t in ts && t.Literal?
        ensures Reworded(t.text, f) == t.text
      {
        var i :| 0 <= i < |ts| && ts[i] == t;
        assert MapTokens(ts, Rewriting(f))[i] == MapTokens(ts, NamesOnly(f))[i];
      }
    }
  }

  lemma MapWordsTail(ls: seq<L.Lexeme>, n: nat, f: string -> string)
    requires n <= |ls|
    ensures L.MapWords(ls, f)[n..] == L.MapWords(ls[n..], f)
    ensures L.MapWords(ls, f)[..n] == L.MapWords(ls[..n], f)
  {
  }

  lemma MapWordsMore(x: L.Lexeme, ls: seq<L.Lexeme>, f: string -> string)
    ensures L.MapWords([x] + ls, f) == (if x.Word? then [L.Word(f(x.text))] else [x]) + L.MapWords(ls, f)
    ensures L.MapWords([], f) == []
  {
  }

  lemma {:induction false} LiteralEndMapped(ls: seq<L.Lexeme>, f: string -> string)
    requires LiteralEnd(ls).Some?
    ensures LiteralEnd(L.MapWords(ls, f)) ==
              Some((L.MapWords(LiteralEnd(ls).value.0, f), L.MapWords(LiteralEnd(ls).value.1, f)))
    decreases |ls|
  {
    MapWordsTail(ls, 1, f);
    if ls[0] != QUOTE {
      LiteralEndMapped(ls[1..], f);
      MapWordsMore(ls[0], LiteralEnd(ls[1..]).value.0, f);
    } else if |ls| > 1 && ls[1] == QUOTE {
      MapWordsTail(ls, 2, f);
      LiteralEndMapped(ls[2..], f);
      MapWordsMore(QUOTE, LiteralEnd(ls[2..]).value.0, f);
    } else {
      MapWordsMore(QUOTE, [], f);
    }
  }

  lemma WellLexedTail(ls: seq<L.Lexeme>, n: nat)
    requires L.WellLexed(ls) && n <= |ls|
    ensures L.WellLexed(ls[n..])
  {
    forall i | 0 < i < |ls[n..]|
      ensures !(ls[n..][i - 1].Word? && ls[n..][i].Word?)
    {
      assert ls[n..][i - 1] == ls[n + i - 1] && ls[n..][i] == ls[n + i];
    }
  }

  lemma WellLexedMore(x: L.Lexeme, ls: seq<L.Lexeme>)
    requires L.WellLexed(ls) && L.Proper(x) && (x.Word? && ls != [] ==> !ls[0].Word?)
    ensures L.WellLexed([x] + ls)
  {
    var all := [x] + ls;
    forall i | 0 < i < |all|
      ensures !(all[i - 1].Word? && all[i].Word?)
    {
      if i > 1 {
        assert all[i - 1] == ls[i - 2] && all[i] == ls[i - 1];
      }
    }
  }

  /** The two parts of a literal are lexemes of their texts. */
  lemma {:induction false} LiteralParts(ls: seq<L.Lexeme>)
    requires L.WellLexed(ls) && LiteralEnd(ls).Some?
    ensures var (body, rest) := LiteralEnd(ls).value;
            L.WellLexed(body) && L.WellLexed(rest) && (body != [] && body[0].Word? ==> body[0] == ls[0])
    decreases |ls|
  {
    WellLexedTail(ls, 1);
    if ls[0] != QUOTE {
      LiteralParts(ls[1..]);
      var body := LiteralEnd(ls[1..]).value.0;
      assert body != [] && body[0].Word? ==> !ls[0].Word?;
      WellLexedMore(ls[0], body);
    } else if |ls| > 1 && ls[1] == QUOTE {
      WellLexedTail(ls, 2);
      LiteralParts(ls[2..]);
      WellLexedMore(QUOTE, LiteralEnd(ls[2..]).value.0);
    }
  }

  lemma {:induction false} OpLengthMapped(ls: seq<L.Lexeme>, f: string -> string)
    ensures OpLength(L.MapWords(ls, f)) == OpLength(ls)
    ensures L.MapWords(ls[..OpLength(ls)], f) == ls[..OpLength(ls)]
  {
    if ls != [] && IsOpMark(ls[0]) {
      MapWordsTail(ls, 1, f);
      OpLengthMapped(ls[1..], f);
      assert ls[..OpLength(ls)] == [ls[0]] + ls[1..][..OpLength(ls[1..])];
    }
  }

  lemma QuoteMapped(ls: seq<L.Lexeme>, f: string -> string)
    requires L.WellLexed(ls) && ls != [] && ls[0] == QUOTE && Next(ls).Took?
    ensures Next(L.MapWords(ls, f)) == Took(MapToken(Next(ls).token, Rewriting(f)), L.MapWords(Next(ls).rest, f))
  {
    MapWordsTail(ls, 1, f);
    WellLexedTail(ls, 1);
    LiteralParts(ls[1..]);
    L.LexOfText(LiteralEnd(ls[1..]).value.0);
    LiteralEndMapped(ls[1..], f);
  }

  lemma NextMapped(ls: seq<L.Lexeme>, f: string -> string)
    requires L.WellLexed(ls) && ls != [] && KeepsForm(f) && !Next(ls).Stuck?
    ensures Next(L.MapWords(ls, f)) == match Next(ls)
                                       case Blank(r) => Blank(L.MapWords(r, f))
                                       case Took(t, r) => Took(MapToken(t, Rewriting(f)), L.MapWords(r, f))
  {
    MapWordsTail(ls, 1, f);
    match ls[0]
    case Word(w) =>
      if |ls| > 2 {
        MapWordsTail(ls, 3, f);
        assert ls[2].Word? ==> (AllDigits(ls[2].text) <==> AllDigits(f(ls[2].text)));
      }
      assert HasFraction(L.MapWords(ls, f)) <==> HasFraction(ls);
    case Mark(c) =>
      if c == '\'' {
        QuoteMapped(ls, f);
      } else if IsSign(c) {
        OpLengthMapped(ls, f);
        MapWordsTail(ls, OpLength(ls), f);
      }
  }

  lemma RestIsWellLexed(ls: seq<L.Lexeme>)
    requires L.WellLexed(ls) && ls != [] && !Next(ls).Stuck?
    ensures L.WellLexed(Next(ls).rest)
  {
    WellLexedTail(ls, 1);
    if ls[0] == QUOTE {
      LiteralParts(ls[1..]);
    } else if IsOpMark(ls[0]) {
      WellLexedTail(ls, OpLength(ls));
    } else if |ls| > 2 {
      WellLexedTail(ls, 3);
    }
  }

  lemma MapTokensMore(t: Token, ts: seq<Token>, f: Renaming)
    ensures MapTokens([t] + ts, f) == [MapToken(t, f)] + MapTokens(ts, f)
  {
  }

  /** Mapping the words of a text maps its names, and the words of its literals. */
  lemma {:induction false} TokensMapped(ls: seq<L.Lexeme>, f: string -> string)
    requires L.WellLexed(ls) && Tokens(ls).Some? && KeepsForm(f)
    ensures Tokens(L.MapWords(ls, f)) == Some(MapTokens(Tokens(ls).value, Rewriting(f)))
    decreases |ls|
  {
    if ls != [] {
      var r := Next(ls);
      NextMapped(ls, f);
      RestIsWellLexed(ls);
      TokensMapped(r.rest, f);
      if r.Took? {
        MapTokensMore(r.token, Tokens(r.rest).value, Rewriting(f));
      }
    }
  }
}
