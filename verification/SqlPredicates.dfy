/**
 Row predicates as a database reads them: OR over AND over NOT over comparisons, IN lists, BETWEEN, LIKE,
 IS NULL and parentheses, with keywords in any case. A text has at most one tree.
 */
module SqlPredicates {
  import opened Optional
  import opened Text
  import L = Lexemes
  import F = RowFilterLoop
  import opened SqlTokens

  datatype Term =
    | Col(name: string)
    | Num(negative: bool, whole: string, fraction: string)
    | Str(text: string)
    | Null
    | Bool(holds: bool)

  datatype Pred =
    | Cmp(l: Term, op: string, r: Term)
    | Like(t: Term, pattern: Term)
    | In(t: Term, items: seq<Term>)
    | Between(t: Term, low: Term, high: Term)
    | IsNull(t: Term)
    | Bare(t: Term)
    | Not(p: Pred)
    | And(a: Pred, b: Pred)
    | Or(a: Pred, b: Pred)

  const KEYWORDS: seq<string> :=
    ["and", "or", "not", "in", "is", "null", "like", "between", "true", "false", "case", "when", "then", "else", "end"]

  predicate IsKeyword(w: string) { Lower(w) in KEYWORDS }

  const OPERATORS: seq<string> := ["=", "<", ">", "<=", ">=", "<>", "!=", "=="]

  // ---------------------------------------------------------------- reading

  datatype Parsed<T> = Fail | Got(tree: T, rest: seq<Token>)

  /** The list starts with this keyword, in any case. */
  predicate IsWord(ts: seq<Token>, keyword: string) { ts != [] && ts[0].Name? && Lower(ts[0].word) == keyword }

  predicate Starts(ts: seq<Token>, t: Token) { ts != [] && ts[0] == t }

  function TermOfName(w: string): Option<Term> {
    if !IsKeyword(w) then Some(Col(w))
    else if Lower(w) == "null" then Some(Null)
    else if Lower(w) == "true" then Some(Bool(true))
    else if Lower(w) == "false" then Some(Bool(false))
    else None
  }

  function ParseTerm(ts: seq<Token>): (r: Parsed<Term>)
    ensures r.Got? ==> |r.rest| < |ts|
  {
    if ts == [] then Fail
    else
      match ts[0]
      case Name(w) => (var t := TermOfName(w); if t.None? then Fail else Got(t.value, ts[1..]))
      case Number(whole, fraction) => Got(Num(false, whole, fraction), ts[1..])
      case Literal(text) => Got(Str(text), ts[1..])
      case Minus =>
        if |ts| > 1 && ts[1].Number? then Got(Num(true, ts[1].whole, ts[1].fraction), ts[2..]) else Fail
      case _ => Fail
  }

  function ParseItems(ts: seq<Token>): (r: Parsed<seq<Term>>)
    ensures r.Got? ==> |r.rest| < |ts|
    decreases |ts|
  {
    var t := ParseTerm(ts);
    if t.Fail? then Fail
    else if !Starts(t.rest, Comma) then Got([t.tree], t.rest)
    else
      var more := ParseItems(t.rest[1..]);
      if more.Fail? then Fail else Got([t.tree] + more.tree, more.rest)
  }

  function ParseIn(t: Term, ts: seq<Token>): (r: Parsed<Pred>)
    ensures r.Got? ==> |r.rest| < |ts|
  {
    if !Starts(ts, Open) then Fail
    else
      var items := ParseItems(ts[1..]);
      if items.Got? && Starts(items.rest, Close) then Got(In(t, items.tree), items.rest[1..]) else Fail
  }

  function ParseBetween(t: Term, ts: seq<Token>): (r: Parsed<Pred>)
    ensures r.Got? ==> |r.rest| < |ts|
  {
    var low := ParseTerm(ts);
    if low.Fail? || !IsWord(low.rest, "and") then Fail
    else
      var high := ParseTerm(low.rest[1..]);
      if high.Fail? then Fail else Got(Between(t, low.tree, high.tree), high.rest)
  }

  /** What may follow a term, also behind NOT. */
  function ParseSuffix(t: Term, ts: seq<Token>): (r: Parsed<Pred>)
    ensures r.Got? ==> |r.rest| < |ts|
  {
    if IsWord(ts, "in") then ParseIn(t, ts[1..])
    else if IsWord(ts, "between") then ParseBetween(t, ts[1..])
    else if IsWord(ts, "like") then
      var pattern := ParseTerm(ts[1..]);
      if pattern.Fail? then Fail else Got(Like(t, pattern.tree), pattern.rest)
    else Fail
  }

  function ParseIs(t: Term, ts: seq<Token>): (r: Parsed<Pred>)
    ensures r.Got? ==> |r.rest| < |ts|
  {
    if IsWord(ts, "null") then Got(IsNull(t), ts[1..])
    else if IsWord(ts, "not") && IsWord(ts[1..], "null") then Got(Not(IsNull(t)), ts[2..])
    else Fail
  }

  function ParseCmp(t: Term, ts: seq<Token>): (r: Parsed<Pred>)
    requires ts != [] && ts[0].Op?
    ensures r.Got? ==> |r.rest| < |ts|
  {
    var right := ParseTerm(ts[1..]);
    if ts[0].sign !in OPERATORS || right.Fail? then Fail else Got(Cmp(t, ts[0].sign, right.tree), right.rest)
  }

  /** A result under NOT, and behind the left part of a connective. */
  function Negated(r: Parsed<Pred>): Parsed<Pred> { if r.Fail? then Fail else Got(Not(r.tree), r.rest) }
  function Conjoined(a: Pred, r: Parsed<Pred>): Parsed<Pred> { if r.Fail? then Fail else Got(And(a, r.tree), r.rest) }
  function Disjoined(a: Pred, r: Parsed<Pred>): Parsed<Pred> { if r.Fail? then Fail else Got(Or(a, r.tree), r.rest) }

  /** The comparison a term begins; a term alone stands for itself. */
  function ParseTest(t: Term, ts: seq<Token>): (r: Parsed<Pred>)
    ensures r.Got? ==> |r.rest| <= |ts|
  {
    if ts != [] && ts[0].Op? then ParseCmp(t, ts)
    else if IsWord(ts, "is") then ParseIs(t, ts[1..])
    else if IsWord(ts, "not") then
      Negated(ParseSuffix(t, ts[1..]))
    else if IsWord(ts, "in") || IsWord(ts, "between") || IsWord(ts, "like") then ParseSuffix(t, ts)
    else Got(Bare(t), ts)
  }

  function ParsePrim(ts: seq<Token>): (r: Parsed<Pred>)
    ensures r.Got? ==> |r.rest| < |ts|
    decreases |ts|, 0
  {
    if Starts(ts, Open) then
      var p := ParseOr(ts[1..]);
      if p.Got? && Starts(p.rest, Close) then Got(p.tree, p.rest[1..]) else Fail
    else
      var t := ParseTerm(ts);
      if t.Fail? then Fail else ParseTest(t.tree, t.rest)
  }

  function ParseNot(ts: seq<Token>): (r: Parsed<Pred>)
    ensures r.Got? ==> |r.rest| < |ts|
    decreases |ts|, 1
  {
    if IsWord(ts, "not") then Negated(ParseNot(ts[1..])) else ParsePrim(ts)
  }

  function ParseAnd(ts: seq<Token>): (r: Parsed<Pred>)
    ensures r.Got? ==> |r.rest| < |ts|
    decreases |ts|, 2
  {
    var a := ParseNot(ts);
    if a.Fail? || !IsWord(a.rest, "and") then a
    else
      Conjoined(a.tree, ParseAnd(a.rest[1..]))
  }

  function ParseOr(ts: seq<Token>): (r: Parsed<Pred>)
    ensures r.Got? ==> |r.rest| < |ts|
    decreases |ts|, 3
  {
    var a := ParseAnd(ts);
    if a.Fail? || !IsWord(a.rest, "or") then a
    else
      Disjoined(a.tree, ParseOr(a.rest[1..]))
  }

  /** The tree of a whole token list. */
  function Parse(ts: seq<Token>): Option<Pred> {
    var r := ParseOr(ts);
    if r.Got? && r.rest == [] then Some(r.tree) else None
  }

  /** What a text means, if it is a predicate at all. */
  function Read(s: string): Option<Pred> {
    var ts := TokensOf(s);
    if ts.None? then None else Parse(ts.value)
  }

  // ---------------------------------------------------------------- a closing parenthesis ends every predicate

  /** A result with more tokens behind it. */
  function Longer<T>(r: Parsed<T>, tail: seq<Token>): Parsed<T> {
    if r.Fail? then Fail else Got(r.tree, r.rest + tail)
  }

  lemma Tail(ts: seq<Token>, n: nat, tail: seq<Token>)
    requires n <= |ts|
    ensures (ts + tail)[n..] == ts[n..] + tail
  {
  }

  lemma SameStart(ts: seq<Token>, tail: seq<Token>, keyword: string)
    requires Starts(tail, Close)
    ensures IsWord(ts + tail, keyword) <==> IsWord(ts, keyword)
    ensures ts != [] ==> (ts + tail)[0] == ts[0]
    ensures ts == [] ==> ts + tail == tail
  {
  }

  lemma TermBefore(ts: seq<Token>, tail: seq<Token>)
    requires Starts(tail, Close) && ParseTerm(ts).Got?
    ensures ParseTerm(ts + tail) == Longer(ParseTerm(ts), tail)
  {
    Tail(ts, 1, tail);
    if ts[0].Minus? {
      Tail(ts, 2, tail);
    }
  }

  lemma {:induction false} ItemsBefore(ts: seq<Token>, tail: seq<Token>)
    requires Starts(tail, Close) && ParseItems(ts).Got?
    ensures ParseItems(ts + tail) == Longer(ParseItems(ts), tail)
    decreases |ts|
  {
    TermBefore(ts, tail);
    var rest := ParseTerm(ts).rest;
    SameStart(rest, tail, "");
    if Starts(rest, Comma) {
      Tail(rest, 1, tail);
      ItemsBefore(rest[1..], tail);
    }
  }

  lemma InBefore(t: Term, ts: seq<Token>, tail: seq<Token>)
    requires Starts(tail, Close) && ParseIn(t, ts).Got?
    ensures ParseIn(t, ts + tail) == Longer(ParseIn(t, ts), tail)
  {
    Tail(ts, 1, tail);
    ItemsBefore(ts[1..], tail);
    Tail(ParseItems(ts[1..]).rest, 1, tail);
  }

  lemma BetweenBefore(t: Term, ts: seq<Token>, tail: seq<Token>)
    requires Starts(tail, Close) && ParseBetween(t, ts).Got?
    ensures ParseBetween(t, ts + tail) == Longer(ParseBetween(t, ts), tail)
  {
    TermBefore(ts, tail);
    var rest := ParseTerm(ts).rest;
    SameStart(rest, tail, "and");
    Tail(rest, 1, tail);
    TermBefore(rest[1..], tail);
  }

  lemma SuffixBefore(t: Term, ts: seq<Token>, tail: seq<Token>)
    requires Starts(tail, Close) && ParseSuffix(t, ts).Got?
    ensures ParseSuffix(t, ts + tail) == Longer(ParseSuffix(t, ts), tail)
  {
    Tail(ts, 1, tail);
    SameStart(ts, tail, "in");
    SameStart(ts, tail, "between");
    SameStart(ts, tail, "like");
    if IsWord(ts, "in") {
      InBefore(t, ts[1..], tail);
    } else if IsWord(ts, "between") {
      BetweenBefore(t, ts[1..], tail);
    } else {
      TermBefore(ts[1..], tail);
    }
  }

  lemma IsBefore(t: Term, ts: seq<Token>, tail: seq<Token>)
    requires Starts(tail, Close) && ParseIs(t, ts).Got?
    ensures ParseIs(t, ts + tail) == Longer(ParseIs(t, ts), tail)
  {
    Tail(ts, 1, tail);
    SameStart(ts, tail, "null");
    SameStart(ts, tail, "not");
    SameStart(ts[1..], tail, "null");
    if !IsWord(ts, "null") {
      Tail(ts, 2, tail);
    }
  }

  lemma TestBefore(t: Term, ts: seq<Token>, tail: seq<Token>)
    requires Starts(tail, Close) && ParseTest(t, ts).Got?
    ensures ParseTest(t, ts + tail) == Longer(ParseTest(t, ts), tail)
  {
    SameStart(ts, tail, "is");
    SameStart(ts, tail, "not");
    SameStart(ts, tail, "in");
    SameStart(ts, tail, "between");
    SameStart(ts, tail, "like");
    if ts != [] {
      Tail(ts, 1, tail);
      if ts[0].Op? {
        TermBefore(ts[1..], tail);
      } else if IsWord(ts, "is") {
        IsBefore(t, ts[1..], tail);
      } else if IsWord(ts, "not") {
        SuffixBefore(t, ts[1..], tail);
      } else if IsWord(ts, "in") || IsWord(ts, "between") || IsWord(ts, "like") {
        SuffixBefore(t, ts, tail);
      }
    }
  }

  lemma {:induction false} PrimBefore(ts: seq<Token>, tail: seq<Token>)
    requires Starts(tail, Close) && ParsePrim(ts).Got?
    ensures ParsePrim(ts + tail) == Longer(ParsePrim(ts), tail)
    decreases |ts|, 0
  {
    SameStart(ts, tail, "");
    if Starts(ts, Open) {
      Tail(ts, 1, tail);
      OrBefore(ts[1..], tail);
      Tail(ParseOr(ts[1..]).rest, 1, tail);
    } else {
      TermBefore(ts, tail);
      TestBefore(ParseTerm(ts).tree, ParseTerm(ts).rest, tail);
    }
  }

  lemma {:induction false} NotBefore(ts: seq<Token>, tail: seq<Token>)
    requires Starts(tail, Close) && ParseNot(ts).Got?
    ensures ParseNot(ts + tail) == Longer(ParseNot(ts), tail)
    decreases |ts|, 1
  {
    SameStart(ts, tail, "not");
    if IsWord(ts, "not") {
      Tail(ts, 1, tail);
      NotBefore(ts[1..], tail);
    } else {
      PrimBefore(ts, tail);
    }
  }

  lemma {:induction false} AndBefore(ts: seq<Token>, tail: seq<Token>)
    requires Starts(tail, Close) && ParseAnd(ts).Got?
    ensures ParseAnd(ts + tail) == Longer(ParseAnd(ts), tail)
    decreases |ts|, 2
  {
    NotBefore(ts, tail);
    var rest := ParseNot(ts).rest;
    SameStart(rest, tail, "and");
    if IsWord(rest, "and") {
      Tail(rest, 1, tail);
      AndBefore(rest[1..], tail);
    }
  }

  lemma {:induction false} OrBefore(ts: seq<Token>, tail: seq<Token>)
    requires Starts(tail, Close) && ParseOr(ts).Got?
    ensures ParseOr(ts + tail) == Longer(ParseOr(ts), tail)
    decreases |ts|, 3
  {
    AndBefore(ts, tail);
    var rest := ParseAnd(ts).rest;
    SameStart(rest, tail, "or");
    if IsWord(rest, "or") {
      Tail(rest, 1, tail);
      OrBefore(rest[1..], tail);
    }
  }

  // ---------------------------------------------------------------- renaming the names

  function RenameTerm(t: Term, f: Renaming): Term {
    match t
    case Col(n) => Col(f.names(n))
    case Str(text) => Str(f.texts(text))
    case _ => t
  }

  function RenameTerms(ts: seq<Term>, f: Renaming): seq<Term> {
    if ts == [] then [] else [RenameTerm(ts[0], f)] + RenameTerms(ts[1..], f)
  }

  function Rename(e: Pred, f: Renaming): Pred {
    match e
    case Cmp(l, op, r) => Cmp(RenameTerm(l, f), op, RenameTerm(r, f))
    case Like(t, pattern) => Like(RenameTerm(t, f), RenameTerm(pattern, f))
    case In(t, items) => In(RenameTerm(t, f), RenameTerms(items, f))
    case Between(t, low, high) => Between(RenameTerm(t, f), RenameTerm(low, f), RenameTerm(high, f))
    case IsNull(t) => IsNull(RenameTerm(t, f))
    case Bare(t) => Bare(RenameTerm(t, f))
    case Not(p) => Not(Rename(p, f))
    case And(a, b) => And(Rename(a, f), Rename(b, f))
    case Or(a, b) => Or(Rename(a, f), Rename(b, f))
  }

  /** Keywords stay themselves and nothing becomes one. */
  ghost predicate FixesKeywords(f: Renaming) {
    forall w :: if IsKeyword(w) then f.names(w) == w else !IsKeyword(f.names(w))
  }

  function RenamedTerm(r: Parsed<Term>, f: Renaming): Parsed<Term> {
    if r.Fail? then Fail else Got(RenameTerm(r.tree, f), MapTokens(r.rest, f))
  }

  function Renamed(r: Parsed<Pred>, f: Renaming): Parsed<Pred> {
    if r.Fail? then Fail else Got(Rename(r.tree, f), MapTokens(r.rest, f))
  }

  function RenamedItems(r: Parsed<seq<Term>>, f: Renaming): Parsed<seq<Term>> {
    if r.Fail? then Fail else Got(RenameTerms(r.tree, f), MapTokens(r.rest, f))
  }

  lemma MapTail(ts: seq<Token>, n: nat, f: Renaming)
    requires n <= |ts|
    ensures MapTokens(ts, f)[n..] == MapTokens(ts[n..], f)
  {
  }

  lemma WordMapped(ts: seq<Token>, f: Renaming, keyword: string)
    requires FixesKeywords(f) && keyword in KEYWORDS
    ensures IsWord(MapTokens(ts, f), keyword) <==> IsWord(ts, keyword)
    ensures ts != [] ==> MapTail1(ts, f)
  {
    if ts != [] && ts[0].Name? {
      var w := ts[0].word;
      assert if IsKeyword(w) then f.names(w) == w else !IsKeyword(f.names(w));
    }
  }

  predicate MapTail1(ts: seq<Token>, f: Renaming)
    requires ts != []
  {
    MapTokens(ts, f)[1..] == MapTokens(ts[1..], f)
  }

  lemma TermMapped(ts: seq<Token>, f: Renaming)
    requires FixesKeywords(f)
    ensures ParseTerm(MapTokens(ts, f)) == RenamedTerm(ParseTerm(ts), f)
  {
    if ts != [] {
      MapTail(ts, 1, f);
      if ts[0].Name? {
        var w := ts[0].word;
        assert if IsKeyword(w) then f.names(w) == w else !IsKeyword(f.names(w));
      }
      if |ts| > 1 {
        MapTail(ts, 2, f);
      }
    }
  }

  lemma StartsMapped(ts: seq<Token>, f: Renaming, t: Token)
    requires !t.Name? && !t.Literal?
    ensures Starts(MapTokens(ts, f), t) <==> Starts(ts, t)
    ensures ts != [] ==> MapTail1(ts, f)
  {
  }

  lemma {:induction false} ItemsMapped(ts: seq<Token>, f: Renaming)
    requires FixesKeywords(f)
    ensures ParseItems(MapTokens(ts, f)) == RenamedItems(ParseItems(ts), f)
    decreases |ts|
  {
    TermMapped(ts, f);
    var t := ParseTerm(ts);
    if t.Got? {
      StartsMapped(t.rest, f, Comma);
      if Starts(t.rest, Comma) {
        ItemsMapped(t.rest[1..], f);
        var more := ParseItems(t.rest[1..]);
        if more.Got? {
          assert ([t.tree] + more.tree)[1..] == more.tree;
        }
      } else {
        assert [t.tree][1..] == [];
        assert RenameTerms([t.tree], f) == [RenameTerm(t.tree, f)];
      }
    }
  }

  lemma InMapped(t: Term, ts: seq<Token>, f: Renaming)
    requires FixesKeywords(f)
    ensures ParseIn(RenameTerm(t, f), MapTokens(ts, f)) == Renamed(ParseIn(t, ts), f)
  {
    StartsMapped(ts, f, Open);
    if Starts(ts, Open) {
      ItemsMapped(ts[1..], f);
      var items := ParseItems(ts[1..]);
      if items.Got? {
        StartsMapped(items.rest, f, Close);
      }
    }
  }

  lemma BetweenMapped(t: Term, ts: seq<Token>, f: Renaming)
    requires FixesKeywords(f)
    ensures ParseBetween(RenameTerm(t, f), MapTokens(ts, f)) == Renamed(ParseBetween(t, ts), f)
  {
    TermMapped(ts, f);
    var low := ParseTerm(ts);
    if low.Got? {
      WordMapped(low.rest, f, "and");
      if IsWord(low.rest, "and") {
        TermMapped(low.rest[1..], f);
      }
    }
  }

  lemma SuffixMapped(t: Term, ts: seq<Token>, f: Renaming)
    requires FixesKeywords(f)
    ensures ParseSuffix(RenameTerm(t, f), MapTokens(ts, f)) == Renamed(ParseSuffix(t, ts), f)
  {
    WordMapped(ts, f, "in");
    WordMapped(ts, f, "between");
    WordMapped(ts, f, "like");
    if IsWord(ts, "in") {
      InMapped(t, ts[1..], f);
    } else if IsWord(ts, "between") {
      BetweenMapped(t, ts[1..], f);
    } else if IsWord(ts, "like") {
      TermMapped(ts[1..], f);
    }
  }

  lemma IsMapped(t: Term, ts: seq<Token>, f: Renaming)
    requires FixesKeywords(f)
    ensures ParseIs(RenameTerm(t, f), MapTokens(ts, f)) == Renamed(ParseIs(t, ts), f)
  {
    WordMapped(ts, f, "null");
    WordMapped(ts, f, "not");
    assert Rename(Not(IsNull(t)), f) == Not(IsNull(RenameTerm(t, f))) by {
      assert Rename(IsNull(t), f) == IsNull(RenameTerm(t, f));
    }
    if IsWord(ts, "not") {
      WordMapped(ts[1..], f, "null");
      if |ts| > 1 {
        MapTail(ts, 2, f);
      }
    }
  }

  lemma CmpMapped(t: Term, ts: seq<Token>, f: Renaming)
    requires FixesKeywords(f) && ts != [] && ts[0].Op?
    ensures MapTokens(ts, f)[0] == ts[0]
    ensures ParseCmp(RenameTerm(t, f), MapTokens(ts, f)) == Renamed(ParseCmp(t, ts), f)
  {
    MapTail(ts, 1, f);
    TermMapped(ts[1..], f);
  }

  /** The words a test can begin with. */
  lemma TestWordsMapped(ts: seq<Token>, f: Renaming)
    requires FixesKeywords(f)
    ensures IsWord(MapTokens(ts, f), "is") <==> IsWord(ts, "is")
    ensures IsWord(MapTokens(ts, f), "not") <==> IsWord(ts, "not")
    ensures IsWord(MapTokens(ts, f), "in") || IsWord(MapTokens(ts, f), "between") || IsWord(MapTokens(ts, f),
                                                                                            "like") <==>
              IsWord(ts, "in") || IsWord(ts, "between") || IsWord(ts, "like")
    ensures ts != [] ==> MapTail1(ts, f) && (MapTokens(ts, f)[0].Op? <==> ts[0].Op?)
  {
    WordMapped(ts, f, "is");
    WordMapped(ts, f, "not");
    WordMapped(ts, f, "in");
    WordMapped(ts, f, "between");
    WordMapped(ts, f, "like");
  }

  lemma NegatedMapped(r: Parsed<Pred>, f: Renaming)
    ensures Negated(Renamed(r, f)) == Renamed(Negated(r), f)
  {
  }

  lemma ConjoinedMapped(a: Pred, r: Parsed<Pred>, f: Renaming)
    ensures Conjoined(Rename(a, f), Renamed(r, f)) == Renamed(Conjoined(a, r), f)
  {
  }

  lemma DisjoinedMapped(a: Pred, r: Parsed<Pred>, f: Renaming)
    ensures Disjoined(Rename(a, f), Renamed(r, f)) == Renamed(Disjoined(a, r), f)
  {
  }

  lemma NotSuffixMapped(t: Term, ts: seq<Token>, f: Renaming)
    requires FixesKeywords(f)
    ensures Negated(ParseSuffix(RenameTerm(t, f), MapTokens(ts, f))) == Renamed(Negated(ParseSuffix(t, ts)), f)
  {
    SuffixMapped(t, ts, f);
    NegatedMapped(ParseSuffix(t, ts), f);
  }

  lemma BareMapped(t: Term, ts: seq<Token>, f: Renaming)
    ensures Got(Bare(RenameTerm(t, f)), MapTokens(ts, f)) == Renamed(Got(Bare(t), ts), f)
  {
  }

  lemma TestMapped(t: Term, ts: seq<Token>, f: Renaming)
    requires FixesKeywords(f)
    ensures ParseTest(RenameTerm(t, f), MapTokens(ts, f)) == Renamed(ParseTest(t, ts), f)
  {
    TestWordsMapped(ts, f);
    if ts != [] && ts[0].Op? {
      CmpMapped(t, ts, f);
    } else if IsWord(ts, "is") {
      IsMapped(t, ts[1..], f);
    } else if IsWord(ts, "not") {
      NotSuffixMapped(t, ts[1..], f);
    } else if IsWord(ts, "in") || IsWord(ts, "between") || IsWord(ts, "like") {
      SuffixMapped(t, ts, f);
    } else {
      BareMapped(t, ts, f);
    }
  }

  lemma {:induction false} PrimMapped(ts: seq<Token>, f: Renaming)
    requires FixesKeywords(f)
    ensures ParsePrim(MapTokens(ts, f)) == Renamed(ParsePrim(ts), f)
    decreases |ts|, 0
  {
    StartsMapped(ts, f, Open);
    if Starts(ts, Open) {
      OrMapped(ts[1..], f);
      var p := ParseOr(ts[1..]);
      if p.Got? {
        StartsMapped(p.rest, f, Close);
      }
    } else {
      TermMapped(ts, f);
      var t := ParseTerm(ts);
      if t.Got? {
        TestMapped(t.tree, t.rest, f);
      }
    }
  }

  lemma {:induction false} NotMapped(ts: seq<Token>, f: Renaming)
    requires FixesKeywords(f)
    ensures ParseNot(MapTokens(ts, f)) == Renamed(ParseNot(ts), f)
    decreases |ts|, 1
  {
    WordMapped(ts, f, "not");
    if IsWord(ts, "not") {
      NotMapped(ts[1..], f);
      NegatedMapped(ParseNot(ts[1..]), f);
    } else {
      PrimMapped(ts, f);
    }
  }

  /** The word in front is kept, and so is what follows it. */
  predicate SameWord(ts: seq<Token>, f: Renaming, keyword: string) {
    && (IsWord(MapTokens(ts, f), keyword) <==> IsWord(ts, keyword))
    && (ts != [] ==> MapTail1(ts, f))
  }

  /** A conjunction, when its parts commute with renaming. */
  lemma AndStep(ts: seq<Token>, f: Renaming)
    requires ParseNot(MapTokens(ts, f)) == Renamed(ParseNot(ts), f)
    requires var a := ParseNot(ts);
             && (a.Got? ==> SameWord(a.rest, f, "and"))
             && (a.Got? && IsWord(a.rest, "and") ==>
                   ParseAnd(MapTokens(a.rest[1..], f)) == Renamed(ParseAnd(a.rest[1..]), f))
    ensures ParseAnd(MapTokens(ts, f)) == Renamed(ParseAnd(ts), f)
  {
    var a := ParseNot(ts);
    if a.Got? && IsWord(a.rest, "and") {
      ConjoinedMapped(a.tree, ParseAnd(a.rest[1..]), f);
    }
  }

  lemma {:induction false} AndMapped(ts: seq<Token>, f: Renaming)
    requires FixesKeywords(f)
    ensures ParseAnd(MapTokens(ts, f)) == Renamed(ParseAnd(ts), f)
    decreases |ts|, 2
  {
    NotMapped(ts, f);
    var a := ParseNot(ts);
    if a.Got? {
      WordMapped(a.rest, f, "and");
      if IsWord(a.rest, "and") {
        AndMapped(a.rest[1..], f);
      }
    }
    AndStep(ts, f);
  }

  /** A disjunction, when its parts commute with renaming. */
  lemma OrStep(ts: seq<Token>, f: Renaming)
    requires ParseAnd(MapTokens(ts, f)) == Renamed(ParseAnd(ts), f)
    requires var a := ParseAnd(ts);
             && (a.Got? ==> SameWord(a.rest, f, "or"))
             && (a.Got? && IsWord(a.rest, "or") ==>
                   ParseOr(MapTokens(a.rest[1..], f)) == Renamed(ParseOr(a.rest[1..]), f))
    ensures ParseOr(MapTokens(ts, f)) == Renamed(ParseOr(ts), f)
  {
    var a := ParseAnd(ts);
    if a.Got? && IsWord(a.rest, "or") {
      DisjoinedMapped(a.tree, ParseOr(a.rest[1..]), f);
    }
  }

  /** Reading commutes with renaming. */
  lemma {:induction false} OrMapped(ts: seq<Token>, f: Renaming)
    requires FixesKeywords(f)
    ensures ParseOr(MapTokens(ts, f)) == Renamed(ParseOr(ts), f)
    decreases |ts|, 3
  {
    AndMapped(ts, f);
    var a := ParseAnd(ts);
    if a.Got? {
      WordMapped(a.rest, f, "or");
      if IsWord(a.rest, "or") {
        OrMapped(a.rest[1..], f);
      }
    }
    OrStep(ts, f);
  }

  // ---------------------------------------------------------------- the columns of a predicate

  function TermCols(t: Term): set<string> {
    if t.Col? then {t.name} else {}
  }

  function ItemCols(ts: seq<Term>): set<string> {
    if ts == [] then {} else TermCols(ts[0]) + ItemCols(ts[1..])
  }

  function Cols(e: Pred): set<string> {
    match e
    case Cmp(l, _, r) => TermCols(l) + TermCols(r)
    case Like(t, pattern) => TermCols(t) + TermCols(pattern)
    case In(t, items) => TermCols(t) + ItemCols(items)
    case Between(t, low, high) => TermCols(t) + TermCols(low) + TermCols(high)
    case IsNull(t) => TermCols(t)
    case Bare(t) => TermCols(t)
    case Not(p) => Cols(p)
    case And(a, b) => Cols(a) + Cols(b)
    case Or(a, b) => Cols(a) + Cols(b)
  }

  /** A name that is among the tokens left is among the tokens of the list. */
  predicate Within(rest: seq<Token>, ts: seq<Token>, c: string) { Name(c) in rest ==> Name(c) in ts }

  lemma WithinTail(ts: seq<Token>, n: nat, c: string)
    requires n <= |ts|
    ensures Within(ts[n..], ts, c)
  {
  }

  lemma TermHas(ts: seq<Token>, c: string)
    ensures var r := ParseTerm(ts); r.Got? ==> Within(r.rest, ts, c) && (c in TermCols(r.tree) ==> Name(c) in ts)
  {
    if ts != [] {
      WithinTail(ts, 1, c);
      if |ts| > 1 {
        WithinTail(ts, 2, c);
      }
    }
  }

  lemma {:induction false} ItemsHave(ts: seq<Token>, c: string)
    ensures var r := ParseItems(ts); r.Got? ==> Within(r.rest, ts, c) && (c in ItemCols(r.tree) ==> Name(c) in ts)
    decreases |ts|
  {
    TermHas(ts, c);
    var t := ParseTerm(ts);
    if t.Got? && Starts(t.rest, Comma) {
      WithinTail(t.rest, 1, c);
      ItemsHave(t.rest[1..], c);
      var more := ParseItems(t.rest[1..]);
      if more.Got? {
        assert ([t.tree] + more.tree)[1..] == more.tree;
      }
    } else if t.Got? {
      assert [t.tree][1..] == [];
      assert ItemCols([t.tree]) == TermCols(t.tree) + ItemCols([]);
    }
  }

  /** A result whose columns, besides those of t, are names of the list. */
  predicate Has(r: Parsed<Pred>, t: Term, ts: seq<Token>, c: string) {
    r.Got? ==> Within(r.rest, ts, c) && (c in Cols(r.tree) ==> c in TermCols(t) || Name(c) in ts)
  }

  lemma InHas(t: Term, ts: seq<Token>, c: string)
    ensures Has(ParseIn(t, ts), t, ts, c)
  {
    if Starts(ts, Open) {
      WithinTail(ts, 1, c);
      ItemsHave(ts[1..], c);
      var items := ParseItems(ts[1..]);
      if items.Got? && Starts(items.rest, Close) {
        WithinTail(items.rest, 1, c);
      }
    }
  }

  lemma BetweenHas(t: Term, ts: seq<Token>, c: string)
    ensures Has(ParseBetween(t, ts), t, ts, c)
  {
    TermHas(ts, c);
    var low := ParseTerm(ts);
    if low.Got? && IsWord(low.rest, "and") {
      WithinTail(low.rest, 1, c);
      TermHas(low.rest[1..], c);
    }
  }

  lemma SuffixHas(t: Term, ts: seq<Token>, c: string)
    ensures Has(ParseSuffix(t, ts), t, ts, c)
  {
    if ts != [] {
      WithinTail(ts, 1, c);
      InHas(t, ts[1..], c);
      BetweenHas(t, ts[1..], c);
      TermHas(ts[1..], c);
    }
  }

  lemma IsHas(t: Term, ts: seq<Token>, c: string)
    ensures Has(ParseIs(t, ts), t, ts, c)
  {
    assert Cols(Not(IsNull(t))) == Cols(IsNull(t)) == TermCols(t);
    if ts != [] {
      WithinTail(ts, 1, c);
      if |ts| > 1 {
        WithinTail(ts, 2, c);
      }
    }
  }

  lemma CmpHas(t: Term, ts: seq<Token>, c: string)
    requires ts != [] && ts[0].Op?
    ensures Has(ParseCmp(t, ts), t, ts, c)
  {
    WithinTail(ts, 1, c);
    TermHas(ts[1..], c);
  }

  lemma NotHas(r: Parsed<Pred>, t: Term, ts: seq<Token>, c: string)
    requires Has(r, t, ts, c)
    ensures r.Got? ==> Has(Got(Not(r.tree), r.rest), t, ts, c)
  {
  }

  lemma TestHas(t: Term, ts: seq<Token>, c: string)
    ensures Has(ParseTest(t, ts), t, ts, c)
  {
    if ts != [] {
      WithinTail(ts, 1, c);
      if ts[0].Op? {
        CmpHas(t, ts, c);
      } else if IsWord(ts, "is") {
        IsHas(t, ts[1..], c);
      } else if IsWord(ts, "not") {
        SuffixHas(t, ts[1..], c);
        NotHas(ParseSuffix(t, ts[1..]), t, ts, c);
      } else {
        SuffixHas(t, ts, c);
      }
    }
  }

  /** The columns are names of the list. */
  predicate Drawn(r: Parsed<Pred>, ts: seq<Token>, c: string) {
    r.Got? ==> Within(r.rest, ts, c) && (c in Cols(r.tree) ==> Name(c) in ts)
  }

  lemma {:induction false} PrimNames(ts: seq<Token>, c: string)
    ensures Drawn(ParsePrim(ts), ts, c)
    decreases |ts|, 0
  {
    if Starts(ts, Open) {
      WithinTail(ts, 1, c);
      OrNames(ts[1..], c);
      var p := ParseOr(ts[1..]);
      if p.Got? && Starts(p.rest, Close) {
        WithinTail(p.rest, 1, c);
      }
    } else {
      TermHas(ts, c);
      var t := ParseTerm(ts);
      if t.Got? {
        TestHas(t.tree, t.rest, c);
      }
    }
  }

  lemma {:induction false} NotNames(ts: seq<Token>, c: string)
    ensures Drawn(ParseNot(ts), ts, c)
    decreases |ts|, 1
  {
    if IsWord(ts, "not") {
      WithinTail(ts, 1, c);
      NotNames(ts[1..], c);
    } else {
      PrimNames(ts, c);
    }
  }

  lemma {:induction false} AndNames(ts: seq<Token>, c: string)
    ensures Drawn(ParseAnd(ts), ts, c)
    decreases |ts|, 2
  {
    NotNames(ts, c);
    var a := ParseNot(ts);
    if a.Got? && IsWord(a.rest, "and") {
      WithinTail(a.rest, 1, c);
      AndNames(a.rest[1..], c);
    }
  }

  lemma {:induction false} OrNames(ts: seq<Token>, c: string)
    ensures Drawn(ParseOr(ts), ts, c)
    decreases |ts|, 3
  {
    AndNames(ts, c);
    var a := ParseAnd(ts);
    if a.Got? && IsWord(a.rest, "or") {
      WithinTail(a.rest, 1, c);
      OrNames(a.rest[1..], c);
    }
  }

  /** Every column of a predicate is a word of its text, and not a number. */
  lemma ColsAreWords(s: string, c: string)
    requires Read(s).Some? && c in Cols(Read(s).value)
    ensures L.Word(c) in L.Lex(s) && StartsName(c)
  {
    OrNames(TokensOf(s).value, c);
    NamesAreWords(L.Lex(s), c);
  }
}
