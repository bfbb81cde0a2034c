/** Printing predicates, and the proof that reading a printed predicate gives it back. */
module SqlPrint {
  import opened Optional
  import opened Text
  import L = Lexemes
  import F = RowFilterLoop
  import opened SqlTokens
  import opened SqlPredicates

  // ---------------------------------------------------------------- tokens as text

  predicate GoodToken(t: Token) {
    match t
    case Name(w) => StartsName(w) && L.AllWordChars(w)
    case Number(whole, fraction) => AllDigits(whole) && (fraction == "" || AllDigits(fraction))
    case Op(sign) => sign != "" && forall c :: c in sign ==> IsSign(c)
    case _ => true
  }

  function TokenText(t: Token): string {
    match t
    case Name(w) => w
    case Number(whole, fraction) => if fraction == "" then whole else whole + (['.'] + fraction)
    case Literal(text) => F.SqlString(text)
    case Op(sign) => sign
    case Open => ['(']
    case Close => [')']
    case Comma => [',']
    case Minus => ['-']
  }

  /** The tokens with one blank between them. */
  function Spell(ts: seq<Token>): string {
    if ts == [] then "" else TokenText(ts[0]) + Spaced(ts[1..])
  }

  function Spaced(ts: seq<Token>): string {
    if ts == [] then "" else [' '] + (TokenText(ts[0]) + Spaced(ts[1..]))
  }

  lemma TokenRead(t: Token, rest: string)
    requires GoodToken(t) && Apart(rest)
    ensures TokensOf(TokenText(t) + rest) == Cons(t, TokensOf(rest))
  {
    match t
    case Name(w) => NameText(w, rest);
    case Number(whole, fraction) =>
      if fraction == "" {
        WholeText(whole, rest);
      } else {
        FractionText(whole, fraction, rest);
        assert TokenText(t) + rest == whole + (['.'] + (fraction + rest));
      }
    case Literal(text) => LiteralText(text, rest);
    case Op(sign) => OpText(sign, rest);
    case Open => MarkText('(', rest);
    case Close => MarkText(')', rest);
    case Comma => MarkText(',', rest);
    case Minus => MarkText('-', rest);
  }

  lemma {:induction false} SpacedRead(ts: seq<Token>)
    requires forall t :: t in ts ==> GoodToken(t)
    ensures TokensOf(Spaced(ts)) == Some(ts) && Apart(Spaced(ts))
  {
    if ts != [] {
      SpacedRead(ts[1..]);
      TokenRead(ts[0], Spaced(ts[1..]));
      BlankText(' ', TokenText(ts[0]) + Spaced(ts[1..]));
      assert [ts[0]] + ts[1..] == ts;
    }
  }

  lemma SpellRead(ts: seq<Token>)
    requires forall t :: t in ts ==> GoodToken(t)
    ensures TokensOf(Spell(ts)) == Some(ts)
  {
    if ts != [] {
      SpacedRead(ts[1..]);
      TokenRead(ts[0], Spaced(ts[1..]));
      assert [ts[0]] + ts[1..] == ts;
    }
  }

  // ---------------------------------------------------------------- predicates as tokens

  function PrintTerm(t: Term): seq<Token> {
    match t
    case Col(n) => [Name(n)]
    case Num(negative, whole, fraction) => if negative then [Minus, Number(whole, fraction)]
         else [Number(whole, fraction)]
    case Str(s) => [Literal(s)]
    case Null => [Name("NULL")]
    case Bool(holds) => [Name(if holds then "TRUE" else "FALSE")]
  }

  function PrintItems(items: seq<Term>): seq<Token>
    requires items != []
  {
    PrintTerm(items[0]) + if |items| == 1 then [] else [Comma] + PrintItems(items[1..])
  }

  function Wrap(needed: bool, ts: seq<Token>): seq<Token> {
    if needed then [Open] + (ts + [Close]) else ts
  }

  /** NOT binds tighter than AND, AND tighter than OR; both group to the right. */
  function Print(e: Pred): seq<Token>
    requires Good(e)
  {
    match e
    case Cmp(l, op, r) => PrintTerm(l) + ([Op(op)] + PrintTerm(r))
    case Like(t, pattern) => PrintTerm(t) + ([Name("LIKE")] + PrintTerm(pattern))
    case In(t, items) => PrintTerm(t) + ([Name("IN")] + ([Open] + (PrintItems(items) + [Close])))
    case Between(t, low, high) => PrintTerm(t)
           + ([Name("BETWEEN")] + (PrintTerm(low) + ([Name("AND")] + PrintTerm(high))))
    case IsNull(t) => PrintTerm(t) + [Name("IS"), Name("NULL")]
    case Bare(t) => PrintTerm(t)
    case Not(p) => [Name("NOT")] + Wrap(p.And? || p.Or?, Print(p))
    case And(a, b) => Wrap(a.And? || a.Or?, Print(a)) + ([Name("AND")] + Wrap(b.Or?, Print(b)))
    case Or(a, b) => Wrap(a.Or?, Print(a)) + ([Name("OR")] + Print(b))
  }

  predicate GoodTerm(t: Term) {
    match t
    case Col(n) => StartsName(n) && L.AllWordChars(n) && !IsKeyword(n)
    case Num(_, whole, fraction) => AllDigits(whole) && (fraction == "" || AllDigits(fraction))
    case _ => true
  }

  /** Columns are names that are not keywords; literals are any text. */
  predicate Good(e: Pred) {
    match e
    case Cmp(l, op, r) => GoodTerm(l) && GoodTerm(r) && op in OPERATORS
    case Like(t, pattern) => GoodTerm(t) && GoodTerm(pattern)
    case In(t, items) => GoodTerm(t) && items != [] && forall i :: i in items ==> GoodTerm(i)
    case Between(t, low, high) => GoodTerm(t) && GoodTerm(low) && GoodTerm(high)
    case IsNull(t) => GoodTerm(t)
    case Bare(t) => GoodTerm(t)
    case Not(p) => Good(p)
    case And(a, b) => Good(a) && Good(b)
    case Or(a, b) => Good(a) && Good(b)
  }

  function TextOf(e: Pred): string
    requires Good(e)
  {
    Spell(Print(e))
  }

  // ---------------------------------------------------------------- reading printed tokens

  /** What ends a comparison, a conjunction, a disjunction. */
  predicate EndsOr(rest: seq<Token>) { rest == [] || rest[0] == Close }
  predicate EndsAnd(rest: seq<Token>) { EndsOr(rest) || IsWord(rest, "or") }
  predicate EndsTest(rest: seq<Token>) { EndsAnd(rest) || IsWord(rest, "and") }

  /** The printed keywords, in lower case. */
  lemma Lowered()
    ensures Lower("NULL") == "null" && Lower("TRUE") == "true" && Lower("FALSE") == "false"
    ensures Lower("LIKE") == "like" && Lower("IN") == "in" && Lower("BETWEEN") == "between" && Lower("IS") == "is"
    ensures Lower("NOT") == "not" && Lower("AND") == "and" && Lower("OR") == "or"
  {
  }

  lemma KeywordNames()
    ensures IsKeyword("NULL") && IsKeyword("TRUE") && IsKeyword("FALSE")
  {
    Lowered();
    assert KEYWORDS[5] == "null" && KEYWORDS[8] == "true" && KEYWORDS[9] == "false";
  }

  lemma TermOf(t: Term, rest: seq<Token>)
    requires GoodTerm(t)
    ensures ParseTerm(PrintTerm(t) + rest) == Got(t, rest)
    ensures PrintTerm(t) != [] && PrintTerm(t)[0] != Open
    ensures !IsWord(PrintTerm(t), "not")
  {
    var ts := PrintTerm(t) + rest;
    match t
    case Col(n) =>
      assert ts[1..] == rest;
      assert KEYWORDS[2] == "not";
    case Num(negative, whole, fraction) =>
      assert ts[if negative then 2 else 1..] == rest;
    case Str(s) =>
      L.TextOfLex(s);
      assert ts[1..] == rest;
    case Null =>
      KeywordNames();
      Lowered();
      assert ts[1..] == rest;
    case Bool(holds) =>
      KeywordNames();
      Lowered();
      assert ts[1..] == rest;
  }

  /** One more item in front of a list that is read. */
  lemma MoreItems(t: Term, items: seq<Term>, more: seq<Token>, rest: seq<Token>)
    requires GoodTerm(t) && ParseItems(more) == Got(items, rest)
    ensures ParseItems(PrintTerm(t) + ([Comma] + more)) == Got([t] + items, rest)
  {
    TermOf(t, [Comma] + more);
    assert ([Comma] + more)[1..] == more;
  }

  lemma LastItem(t: Term, rest: seq<Token>)
    requires GoodTerm(t) && !Starts(rest, Comma)
    ensures ParseItems(PrintTerm(t) + rest) == Got([t], rest)
  {
    TermOf(t, rest);
  }

  lemma PrintMore(items: seq<Term>, rest: seq<Token>)
    requires |items| > 1
    ensures PrintItems(items) + rest == PrintTerm(items[0]) + ([Comma] + (PrintItems(items[1..]) + rest))
    ensures items == [items[0]] + items[1..]
  {
    Regroup(PrintTerm(items[0]), Comma, PrintItems(items[1..]), rest);
  }

  lemma {:induction false} ItemsOf(items: seq<Term>, rest: seq<Token>)
    requires items != [] && (forall i :: i in items ==> GoodTerm(i)) && !Starts(rest, Comma)
    ensures ParseItems(PrintItems(items) + rest) == Got(items, rest)
    decreases |items|
  {
    if |items| == 1 {
      assert PrintItems(items) == PrintTerm(items[0]) && items == [items[0]];
      LastItem(items[0], rest);
    } else {
      ItemsOf(items[1..], rest);
      MoreItems(items[0], items[1..], PrintItems(items[1..]) + rest, rest);
      PrintMore(items, rest);
    }
  }

  /** A keyword and what follows it. */
  lemma WordThen(w: string, keyword: string, rest: seq<Token>)
    requires Lower(w) == keyword
    ensures IsWord([Name(w)] + rest, keyword) && ([Name(w)] + rest)[1..] == rest
    ensures forall other :: IsWord([Name(w)] + rest, other) ==> other == keyword
  {
  }

  lemma CmpOf(l: Term, op: string, r: Term, rest: seq<Token>)
    requires Good(Cmp(l, op, r))
    ensures ParsePrim(Print(Cmp(l, op, r)) + rest) == Got(Cmp(l, op, r), rest)
  {
    var tail := [Op(op)] + (PrintTerm(r) + rest);
    assert Print(Cmp(l, op, r)) + rest == PrintTerm(l) + tail;
    TermOf(l, tail);
    assert tail[1..] == PrintTerm(r) + rest;
    TermOf(r, rest);
    assert (PrintTerm(l) + tail)[0] == PrintTerm(l)[0];
  }

  lemma TestLike(t: Term, pattern: Term, rest: seq<Token>)
    requires GoodTerm(pattern)
    ensures ParseTest(t, [Name("LIKE")] + (PrintTerm(pattern) + rest)) == Got(Like(t, pattern), rest)
  {
    Lowered();
    WordThen("LIKE", "like", PrintTerm(pattern) + rest);
    TermOf(pattern, rest);
  }

  lemma LikeOf(t: Term, pattern: Term, rest: seq<Token>)
    requires Good(Like(t, pattern))
    ensures ParsePrim(Print(Like(t, pattern)) + rest) == Got(Like(t, pattern), rest)
  {
    Regroup(PrintTerm(t), Name("LIKE"), PrintTerm(pattern), rest);
    PrimTest(t, [Name("LIKE")] + (PrintTerm(pattern) + rest));
    TestLike(t, pattern, rest);
  }

  lemma ListOf(t: Term, items: seq<Term>, rest: seq<Token>)
    requires Good(In(t, items))
    ensures ParseIn(t, [Open] + (PrintItems(items) + ([Close] + rest))) == Got(In(t, items), rest)
  {
    var body := PrintItems(items) + ([Close] + rest);
    assert ([Open] + body)[1..] == body;
    ItemsOf(items, [Close] + rest);
    assert ([Close] + rest)[1..] == rest;
  }

  lemma TestIn(t: Term, list: seq<Token>)
    ensures ParseTest(t, [Name("IN")] + list) == ParseIn(t, list)
  {
    Lowered();
    WordThen("IN", "in", list);
  }

  /** A test begins with its term. */
  lemma PrimTest(t: Term, tail: seq<Token>)
    requires GoodTerm(t)
    ensures ParsePrim(PrintTerm(t) + tail) == ParseTest(t, tail)
  {
    TermOf(t, tail);
    assert (PrintTerm(t) + tail)[0] == PrintTerm(t)[0];
  }

  lemma PrintIn(t: Term, items: seq<Term>, rest: seq<Token>)
    requires Good(In(t, items))
    ensures Print(In(t, items)) + rest ==
            PrintTerm(t) + ([Name("IN")] + ([Open] + (PrintItems(items) + ([Close] + rest))))
  {
    Regroup(PrintTerm(t), Name("IN"), [Open] + (PrintItems(items) + [Close]), rest);
    Bracketed(PrintItems(items), rest);
  }

  lemma Bracketed(inner: seq<Token>, rest: seq<Token>)
    ensures ([Open] + (inner + [Close])) + rest == [Open] + (inner + ([Close] + rest))
  {
  }

  lemma InOf(t: Term, items: seq<Term>, rest: seq<Token>)
    requires Good(In(t, items))
    ensures ParsePrim(Print(In(t, items)) + rest) == Got(In(t, items), rest)
  {
    var list := [Open] + (PrintItems(items) + ([Close] + rest));
    PrintIn(t, items, rest);
    PrimTest(t, [Name("IN")] + list);
    TestIn(t, list);
    ListOf(t, items, rest);
  }

  lemma BoundsOf(t: Term, low: Term, high: Term, rest: seq<Token>)
    requires GoodTerm(low) && GoodTerm(high)
    ensures ParseBetween(t, PrintTerm(low) + ([Name("AND")] + (PrintTerm(high) + rest))) ==
              Got(Between(t, low, high), rest)
  {
    Lowered();
    TermOf(low, [Name("AND")] + (PrintTerm(high) + rest));
    WordThen("AND", "and", PrintTerm(high) + rest);
    TermOf(high, rest);
  }

  lemma BetweenOf(t: Term, low: Term, high: Term, rest: seq<Token>)
    requires Good(Between(t, low, high))
    ensures ParsePrim(Print(Between(t, low, high)) + rest) == Got(Between(t, low, high), rest)
  {
    var bounds := PrintTerm(low) + ([Name("AND")] + (PrintTerm(high) + rest));
    var tail := [Name("BETWEEN")] + bounds;
    assert Print(Between(t, low, high)) + rest == PrintTerm(t) + tail;
    TermOf(t, tail);
    BoundsOf(t, low, high, rest);
    TestBetween(t, bounds);
    assert (PrintTerm(t) + tail)[0] == PrintTerm(t)[0];
  }

  lemma TestBetween(t: Term, bounds: seq<Token>)
    ensures ParseTest(t, [Name("BETWEEN")] + bounds) == ParseBetween(t, bounds)
  {
    Lowered();
    WordThen("BETWEEN", "between", bounds);
  }

  lemma IsNullOf(t: Term, rest: seq<Token>)
    requires Good(IsNull(t))
    ensures ParsePrim(Print(IsNull(t)) + rest) == Got(IsNull(t), rest)
  {
    var last := [Name("NULL")] + rest;
    var tail := [Name("IS")] + last;
    assert Print(IsNull(t)) + rest == PrintTerm(t) + tail;
    TermOf(t, tail);
    Lowered();
    WordThen("IS", "is", last);
    WordThen("NULL", "null", rest);
    assert (PrintTerm(t) + tail)[0] == PrintTerm(t)[0];
  }

  lemma BareOf(t: Term, rest: seq<Token>)
    requires Good(Bare(t)) && EndsTest(rest)
    ensures ParsePrim(Print(Bare(t)) + rest) == Got(Bare(t), rest)
  {
    TermOf(t, rest);
    assert (PrintTerm(t) + rest)[0] == PrintTerm(t)[0];
  }

  lemma PrimOf(e: Pred, rest: seq<Token>)
    requires Good(e) && EndsTest(rest) && !e.Not? && !e.And? && !e.Or?
    ensures ParsePrim(Print(e) + rest) == Got(e, rest)
  {
    match e
    case Cmp(l, op, r) => CmpOf(l, op, r, rest);
    case Like(t, pattern) => LikeOf(t, pattern, rest);
    case In(t, items) => InOf(t, items, rest);
    case Between(t, low, high) => BetweenOf(t, low, high, rest);
    case IsNull(t) => IsNullOf(t, rest);
    case Bare(t) => BareOf(t, rest);
  }

  /** A test does not begin with NOT. */
  lemma NoNot(e: Pred, rest: seq<Token>)
    requires Good(e) && !e.Not? && !e.And? && !e.Or?
    ensures !IsWord(Print(e) + rest, "not")
  {
    var t := match e case Cmp(l, _, _) => l case Like(t, _) => t case In(t, _) => t case Between(t, _, _) => t
                     case IsNull(t) => t case Bare(t) => t;
    TermOf(t, rest);
    assert PrintTerm(t) <= Print(e);
    assert (Print(e) + rest)[0] == PrintTerm(t)[0];
  }

  lemma {:induction false} NotOf(e: Pred, rest: seq<Token>)
    requires Good(e) && EndsTest(rest) && !e.And? && !e.Or?
    ensures ParseNot(Print(e) + rest) == Got(e, rest)
    decreases e, 1
  {
    if e.Not? {
      var wrapped := Wrap(e.p.And? || e.p.Or?, Print(e.p));
      assert Print(e) + rest == [Name("NOT")] + (wrapped + rest);
      Lowered();
      WordThen("NOT", "not", wrapped + rest);
      UnitOf(e.p, e.p.And? || e.p.Or?, rest);
    } else {
      NoNot(e, rest);
      PrimOf(e, rest);
    }
  }

  /** A predicate, wrapped unless it is a single test or a negation. */
  lemma {:induction false} UnitOf(e: Pred, wrapped: bool, rest: seq<Token>)
    requires Good(e) && EndsTest(rest) && (!wrapped ==> !e.And? && !e.Or?)
    ensures ParseNot(Wrap(wrapped, Print(e)) + rest) == Got(e, rest)
    decreases e, 4
  {
    if wrapped {
      var tail := [Close] + rest;
      var ts := Wrap(wrapped, Print(e)) + rest;
      assert ts == [Open] + (Print(e) + tail);
      assert ts[1..] == Print(e) + tail;
      OrOf(e, tail);
      assert tail[1..] == rest;
    } else {
      NotOf(e, rest);
    }
  }

  /** Two parts joined by AND, and by OR. */
  lemma Conjunction(a: Pred, b: Pred, left: seq<Token>, right: seq<Token>, rest: seq<Token>)
    requires var tail := [Name("AND")] + right; ParseNot(left + tail) == Got(a, tail)
    requires ParseAnd(right) == Got(b, rest)
    ensures ParseAnd(left + ([Name("AND")] + right)) == Got(And(a, b), rest)
  {
    Lowered();
    WordThen("AND", "and", right);
  }

  lemma Disjunction(a: Pred, b: Pred, left: seq<Token>, right: seq<Token>, rest: seq<Token>)
    requires var tail := [Name("OR")] + right; ParseAnd(left + tail) == Got(a, tail)
    requires ParseOr(right) == Got(b, rest)
    ensures ParseOr(left + ([Name("OR")] + right)) == Got(Or(a, b), rest)
  {
    Lowered();
    WordThen("OR", "or", right);
  }

  /** The printed connectives end what stands before them. */
  lemma ConnectiveEnds(right: seq<Token>)
    ensures EndsTest([Name("AND")] + right)
    ensures EndsAnd([Name("OR")] + right)
  {
    Lowered();
    WordThen("AND", "and", right);
    WordThen("OR", "or", right);
  }

  lemma PrintAnd(a: Pred, b: Pred, rest: seq<Token>)
    requires Good(a) && Good(b)
    ensures Print(And(a, b)) + rest ==
            Wrap(a.And? || a.Or?, Print(a)) + ([Name("AND")] + (Wrap(b.Or?, Print(b)) + rest))
  {
    Regroup(Wrap(a.And? || a.Or?, Print(a)), Name("AND"), Wrap(b.Or?, Print(b)), rest);
  }

  lemma Regroup(left: seq<Token>, t: Token, right: seq<Token>, rest: seq<Token>)
    ensures (left + ([t] + right)) + rest == left + ([t] + (right + rest))
  {
  }

  lemma {:induction false} AndOf(e: Pred, rest: seq<Token>)
    requires Good(e) && EndsAnd(rest) && !e.Or?
    ensures ParseAnd(Print(e) + rest) == Got(e, rest)
    decreases e, 2
  {
    if e.And? {
      RightOf(e.b, rest);
      LeftOf(e.a, Wrap(e.b.Or?, Print(e.b)) + rest);
      Conjunction(e.a, e.b, Wrap(e.a.And? || e.a.Or?, Print(e.a)), Wrap(e.b.Or?, Print(e.b)) + rest, rest);
      PrintAnd(e.a, e.b, rest);
    } else {
      NotOf(e, rest);
      AloneOf(e, Print(e) + rest, rest);
    }
  }

  lemma {:induction false} LeftOf(a: Pred, right: seq<Token>)
    requires Good(a)
    ensures var tail := [Name("AND")] + right; ParseNot(Wrap(a.And? || a.Or?, Print(a)) + tail) == Got(a, tail)
    decreases a, 5
  {
    ConnectiveEnds(right);
    UnitOf(a, a.And? || a.Or?, [Name("AND")] + right);
  }

  lemma {:induction false} RightOf(b: Pred, rest: seq<Token>)
    requires Good(b) && EndsAnd(rest)
    ensures ParseAnd(Wrap(b.Or?, Print(b)) + rest) == Got(b, rest)
    decreases b, 5
  {
    if b.Or? {
      UnitOf(b, true, rest);
      AloneOf(b, Wrap(true, Print(b)) + rest, rest);
    } else {
      AndOf(b, rest);
    }
  }

  /** A conjunction of one part. */
  lemma AloneOf(e: Pred, ts: seq<Token>, rest: seq<Token>)
    requires ParseNot(ts) == Got(e, rest) && EndsAnd(rest)
    ensures ParseAnd(ts) == Got(e, rest)
  {
    Apart3(rest);
  }

  /** The two connectives are different words. */
  lemma Apart3(rest: seq<Token>)
    ensures EndsAnd(rest) ==> !IsWord(rest, "and")
    ensures EndsOr(rest) ==> !IsWord(rest, "or")
  {
  }

  lemma {:induction false} OrOf(e: Pred, rest: seq<Token>)
    requires Good(e) && EndsOr(rest)
    ensures ParseOr(Print(e) + rest) == Got(e, rest)
    decreases e, 3
  {
    Apart3(rest);
    if e.Or? {
      var left, right := Wrap(e.a.Or?, Print(e.a)), Print(e.b) + rest;
      var tail := [Name("OR")] + right;
      assert Print(e) + rest == left + tail;
      ConnectiveEnds(right);
      Apart3(tail);
      if e.a.Or? {
        UnitOf(e.a, true, tail);
      } else {
        AndOf(e.a, tail);
      }
      OrOf(e.b, rest);
      Disjunction(e.a, e.b, left, right, rest);
    } else {
      AndOf(e, rest);
    }
  }

  // ---------------------------------------------------------------- printed tokens are good

  predicate AllGood(ts: seq<Token>) { forall t :: t in ts ==> GoodToken(t) }

  lemma KeywordToken(w: string)
    requires w in ["NULL", "TRUE", "FALSE", "LIKE", "IN", "BETWEEN", "IS", "NOT", "AND", "OR"]
    ensures GoodToken(Name(w))
  {
  }

  lemma TermIsGood(t: Term)
    requires GoodTerm(t)
    ensures AllGood(PrintTerm(t))
  {
    match t
    case Str(s) => L.TextOfLex(s);
    case Null => KeywordToken("NULL");
    case Bool(holds) => KeywordToken(if holds then "TRUE" else "FALSE");
    case _ =>
  }

  lemma {:induction false} ItemsAreGood(items: seq<Term>)
    requires items != [] && forall i :: i in items ==> GoodTerm(i)
    ensures AllGood(PrintItems(items))
    decreases |items|
  {
    TermIsGood(items[0]);
    if |items| > 1 {
      ItemsAreGood(items[1..]);
    }
  }

  lemma OperatorIsGood(op: string)
    requires op in OPERATORS
    ensures GoodToken(Op(op))
  {
  }

  lemma JoinIsGood(left: seq<Token>, keyword: string, right: seq<Token>)
    requires AllGood(left) && AllGood(right) && GoodToken(Name(keyword))
    ensures AllGood(left + ([Name(keyword)] + right))
  {
  }

  lemma BetweenIsGood(t: Term, low: Term, high: Term)
    requires Good(Between(t, low, high))
    ensures AllGood(Print(Between(t, low, high)))
  {
    TermIsGood(t);
    TermIsGood(low);
    TermIsGood(high);
    KeywordToken("BETWEEN");
    KeywordToken("AND");
    JoinIsGood(PrintTerm(low), "AND", PrintTerm(high));
    JoinIsGood(PrintTerm(t), "BETWEEN", PrintTerm(low) + ([Name("AND")] + PrintTerm(high)));
  }

  lemma InIsGood(t: Term, items: seq<Term>)
    requires Good(In(t, items))
    ensures AllGood(Print(In(t, items)))
  {
    TermIsGood(t);
    ItemsAreGood(items);
    KeywordToken("IN");
    assert AllGood([Open] + (PrintItems(items) + [Close]));
    JoinIsGood(PrintTerm(t), "IN", [Open] + (PrintItems(items) + [Close]));
  }

  lemma TestIsGood(e: Pred)
    requires Good(e) && !e.Not? && !e.And? && !e.Or?
    ensures AllGood(Print(e))
  {
    match e
    case Cmp(l, op, r) =>
      TermIsGood(l);
      TermIsGood(r);
      OperatorIsGood(op);
    case Like(t, pattern) =>
      TermIsGood(t);
      TermIsGood(pattern);
      KeywordToken("LIKE");
      JoinIsGood(PrintTerm(t), "LIKE", PrintTerm(pattern));
    case In(t, items) => InIsGood(t, items);
    case Between(t, low, high) => BetweenIsGood(t, low, high);
    case IsNull(t) =>
      TermIsGood(t);
      KeywordToken("IS");
      KeywordToken("NULL");
      JoinIsGood(PrintTerm(t), "IS", [Name("NULL")]);
    case Bare(t) => TermIsGood(t);
  }

  lemma WrapIsGood(needed: bool, ts: seq<Token>)
    requires AllGood(ts)
    ensures AllGood(Wrap(needed, ts))
  {
  }

  lemma {:induction false} PrintIsGood(e: Pred)
    requires Good(e)
    ensures AllGood(Print(e))
  {
    match e
    case Not(p) =>
      PrintIsGood(p);
      KeywordToken("NOT");
      WrapIsGood(p.And? || p.Or?, Print(p));
    case And(a, b) =>
      PrintIsGood(a);
      PrintIsGood(b);
      KeywordToken("AND");
      WrapIsGood(a.And? || a.Or?, Print(a));
      WrapIsGood(b.Or?, Print(b));
      JoinIsGood(Wrap(a.And? || a.Or?, Print(a)), "AND", Wrap(b.Or?, Print(b)));
    case Or(a, b) =>
      PrintIsGood(a);
      PrintIsGood(b);
      KeywordToken("OR");
      WrapIsGood(a.Or?, Print(a));
      JoinIsGood(Wrap(a.Or?, Print(a)), "OR", Print(b));
    case _ => TestIsGood(e);
  }

  /** Reading undoes printing, for every predicate: literals of any text, columns that are not keywords. */
  lemma ReadUndoesPrint(e: Pred)
    requires Good(e)
    ensures Read(TextOf(e)) == Some(e)
  {
    PrintIsGood(e);
    SpellRead(Print(e));
    OrOf(e, []);
    assert Print(e) + [] == Print(e);
  }
}
