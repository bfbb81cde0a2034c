/**
 What row predicates mean: the parameter mapping of fine_grained_policy.py preserves meaning, and the
 row filter emitted by pair_apply.py is the predicate for its members and true for everyone else.
 The meaning is that of the tree a text is read as; how two values compare is left to the database.
 */
module RowMeaning {
  import opened Optional
  import L = Lexemes
  import opened Text
  import opened RowPolicy
  import opened RowFilterLoop
  import opened SqlTokens
  import opened SqlPredicates
  import opened SqlPrint

  // ---------------------------------------------------------------- sequential and simultaneous substitution

  /** The substitution of all parameters at once. */
  function Simultaneous(word: string, params: seq<string>, columns: seq<string>): string
    requires |params| == |columns|
  {
    if params == [] then word
    else if params[0] == word then columns[0]
    else Simultaneous(word, params[1..], columns[1..])
  }

  /** The substitution of the parameters from i on, one after the other. */
  function Sequential(word: string, params: seq<string>, columns: seq<string>): string
    requires |params| == |columns|
    decreases |params|
  {
    if params == [] then word
    else Sequential(if params[0] == word then columns[0] else word, params[1..], columns[1..])
  }

  predicate Distinct(params: seq<string>) {
    forall i, j :: 0 <= i < j < |params| ==> params[i] != params[j]
  }

  /** Some input column is also the name of a later parameter that is mapped to something else. */
  predicate Captures(params: seq<string>, columns: seq<string>, i: nat, j: nat)
    requires |params| == |columns|
  {
    i < j < |params| && columns[i] == params[j] && columns[j] != params[j]
  }

  predicate CaptureFree(params: seq<string>, columns: seq<string>)
    requires |params| == |columns|
  {
    forall i, j :: 0 <= i < j < |params| ==> !Captures(params, columns, i, j)
  }

  lemma {:induction false} SequentialOfOther(word: string, params: seq<string>, columns: seq<string>)
    requires |params| == |columns|
    requires forall j :: 0 <= j < |params| && params[j] == word ==> columns[j] == word
    ensures Sequential(word, params, columns) == word
  {
    if params != [] {
      SequentialOfOther(word, params[1..], columns[1..]);
    }
  }

  lemma {:induction false} CaptureFreeAgrees(word: string, params: seq<string>, columns: seq<string>)
    requires |params| == |columns| && Distinct(params) && CaptureFree(params, columns)
    ensures Sequential(word, params, columns) == Simultaneous(word, params, columns)
  {
    if params != [] {
      var ps, cs := params[1..], columns[1..];
      if params[0] == word {
        forall j | 0 <= j < |ps| && ps[j] == columns[0]
          ensures cs[j] == columns[0]
        {
          assert !Captures(params, columns, 0, j + 1);
        }
        SequentialOfOther(columns[0], ps, cs);
      } else {
        assert Distinct(ps);
        assert CaptureFree(ps, cs) by {
          forall i, j | 0 <= i < j < |ps|
            ensures !Captures(ps, cs, i, j)
          {
            assert !Captures(params, columns, i + 1, j + 1);
          }
        }
        CaptureFreeAgrees(word, ps, cs);
      }
    }
  }

  /** The last capture of a list shows: its parameter ends as something else than its column. */
  lemma {:induction false} LastCaptureShows(params: seq<string>, columns: seq<string>, i: nat, j: nat)
    requires |params| == |columns| && Distinct(params) && Captures(params, columns, i, j)
    requires forall x, y :: 0 <= x < y && j < y < |params| ==> !Captures(params, columns, x, y)
    ensures Sequential(params[i], params, columns) == columns[j] != columns[i] ==
              Simultaneous(params[i], params, columns)
  {
    var ps, cs := params[1..], columns[1..];
    if i > 0 {
      assert Captures(ps, cs, i - 1, j - 1);
      forall x, y | 0 <= x < y && j - 1 < y < |ps|
        ensures !Captures(ps, cs, x, y)
      {
        assert !Captures(params, columns, x + 1, y + 1);
      }
      LastCaptureShows(ps, cs, i - 1, j - 1);
    } else {
      ReachesParam(columns[0], ps, cs, j - 1);
      var qs, ds := ps[j..], cs[j..];
      forall k | 0 <= k < |qs| && qs[k] == columns[j]
        ensures ds[k] == columns[j]
      {
        assert qs[k] == params[j + 1 + k] && ds[k] == columns[j + 1 + k];
        assert !Captures(params, columns, j, j + 1 + k);
      }
      SequentialOfOther(columns[j], qs, ds);
    }
  }

  /** A word that is parameter j and no earlier one becomes its column there. */
  lemma {:induction false} ReachesParam(word: string, params: seq<string>, columns: seq<string>, j: nat)
    requires |params| == |columns| && Distinct(params) && j < |params| && params[j] == word
    ensures Sequential(word, params, columns) == Sequential(columns[j], params[j + 1..], columns[j + 1..])
  {
    if j > 0 {
      assert params[1..][j..] == params[j + 1..] && columns[1..][j..] == columns[j + 1..];
      ReachesParam(word, params[1..], columns[1..], j - 1);
    }
  }

  /** A last capture exists when there is any. */
  lemma SomeLastCapture(params: seq<string>, columns: seq<string>, n: nat) returns (i: nat, j: nat)
    requires |params| == |columns| && n <= |params|
    requires exists x, y :: 0 <= x < y < n && Captures(params, columns, x, y)
    requires forall x, y :: 0 <= x < y && n <= y < |params| ==> !Captures(params, columns, x, y)
    ensures Captures(params, columns, i, j)
    ensures forall x, y :: 0 <= x < y && j < y < |params| ==> !Captures(params, columns, x, y)
  {
    var last := n - 1;
    if x :| 0 <= x < last && Captures(params, columns, x, last) {
      i, j := x, last;
    } else {
      i, j := SomeLastCapture(params, columns, n - 1);
    }
  }

  /**
   For distinct parameters, replacing one at a time equals replacing all at once, word for word, if and
   only if no input column is the name of a later parameter that is mapped elsewhere.
   */
  lemma SequentialIsSimultaneous(params: seq<string>, columns: seq<string>)
    requires |params| == |columns| && Distinct(params)
    ensures (forall word :: Sequential(word, params, columns) == Simultaneous(word, params, columns)) <==>
              CaptureFree(params, columns)
  {
    if CaptureFree(params, columns) {
      forall word
        ensures Sequential(word, params, columns) == Simultaneous(word, params, columns)
      {
        CaptureFreeAgrees(word, params, columns);
      }
    } else {
      var x, y :| 0 <= x < y < |params| && Captures(params, columns, x, y);
      var i, j := SomeLastCapture(params, columns, |params|);
      LastCaptureShows(params, columns, i, j);
    }
  }

  /** The failing case: x mapped to y and then y to z sends x to z. */
  lemma CaptureGoesWrong()
    ensures Sequential("x", ["x", "y"], ["y", "z"]) == "z" != "y" == Simultaneous("x", ["x", "y"], ["y", "z"])
  {
    assert ["x", "y"][1..] == ["y"] && ["y", "z"][1..] == ["z"];
    assert Sequential("y", ["y"], ["z"]) == "z";
  }

  // ---------------------------------------------------------------- the mapping of a text

  predicate Mappable(params: seq<string>, columns: seq<string>) {
    |params| == |columns| && forall i :: 0 <= i < |params| ==> IsIdentifier(params[i]) && IsIdentifier(columns[i])
  }

  lemma ReplaceKeepsForm(ls: seq<L.Lexeme>, word: string, target: string)
    requires L.WellLexed(ls) && IsIdentifier(target)
    ensures L.WellLexed(ReplaceLexeme(ls, word, target))
  {
    var r := ReplaceLexeme(ls, word, target);
    forall i | 0 <= i < |r|
      ensures L.Proper(r[i])
    {
      assert L.Proper(ls[i]);
    }
  }

  /** Replacing one word and then mapping the rest maps every word in two steps. */
  lemma MapAfterReplace(ls: seq<L.Lexeme>, word: string, target: string, f: string -> string, g: string -> string)
    requires forall w :: f(w) == g(if w == word then target else w)
    ensures L.MapWords(if word == target then ls else ReplaceLexeme(ls, word, target), g) == L.MapWords(ls, f)
  {
    var next := if word == target then ls else ReplaceLexeme(ls, word, target);
    forall i | 0 <= i < |ls|
      ensures L.MapWords(next, g)[i] == L.MapWords(ls, f)[i]
    {
      assert ls[i].Word? ==> f(ls[i].text) == g(if ls[i].text == word then target else ls[i].text);
    }
  }

  /** `_map_function_params` maps the words of the text one parameter after the other, and nothing else. */
  lemma {:induction false} MappedIsSequential(ls: seq<L.Lexeme>, params: seq<string>, columns: seq<string>, i: nat)
    requires L.WellLexed(ls) && Mappable(params, columns) && i <= |params|
    ensures MappedFrom(L.Text(ls), params, columns, i) ==
              Ok(L.Text(L.MapWords(ls, w => Sequential(w, params[i..], columns[i..]))))
    decreases |params| - i
  {
    var f := w => Sequential(w, params[i..], columns[i..]);
    if i == |params| {
      assert L.MapWords(ls, f) == ls;
    } else {
      assert params[i..][1..] == params[i + 1..] && columns[i..][1..] == columns[i + 1..];
      var next := if params[i] == columns[i] then ls else ReplaceLexeme(ls, params[i], columns[i]);
      ReplaceKeepsForm(ls, params[i], columns[i]);
      L.LexOfText(ls);
      MappedIsSequential(next, params, columns, i + 1);
      MapAfterReplace(ls, params[i], columns[i], f, w => Sequential(w, params[i + 1..], columns[i + 1..]));
    }
  }

  // ---------------------------------------------------------------- evaluation

  datatype Value = Absent | Numeric(negative: bool, whole: string,
                                    fraction: string) | Chars(text: string) | Flag(holds: bool)

  /** SQL truth values. */
  datatype Truth = True | False | Unknown

  function AndT(a: Truth, b: Truth): Truth {
    if a.False? || b.False? then False else if a.True? && b.True? then True else Unknown
  }

  function NotT(a: Truth): Truth {
    match a
    case True => False
    case False => True
    case Unknown => Unknown
  }

  function OrT(a: Truth, b: Truth): Truth { NotT(AndT(NotT(a), NotT(b))) }

  /** How the database compares two values with an operator. */
  type Comparison = (string, Value, Value) -> Truth

  type Row = string -> Value

  function EvalTerm(t: Term, row: Row): Value {
    match t
    case Col(n) => row(n)
    case Num(negative, whole, fraction) => Numeric(negative, whole, fraction)
    case Str(s) => Chars(s)
    case Null => Absent
    case Bool(holds) => Flag(holds)
  }

  function EvalIn(v: Value, items: seq<Term>, row: Row, cmp: Comparison): Truth {
    if items == [] then False
    else OrT(cmp("=", v, EvalTerm(items[0], row)), EvalIn(v, items[1..], row, cmp))
  }

  function Eval(e: Pred, row: Row, cmp: Comparison): Truth {
    match e
    case Cmp(l, op, r) => cmp(op, EvalTerm(l, row), EvalTerm(r, row))
    case Like(t, pattern) => cmp("like", EvalTerm(t, row), EvalTerm(pattern, row))
    case In(t, items) => EvalIn(EvalTerm(t, row), items, row, cmp)
    case Between(t, low, high) =>
      AndT(cmp(">=", EvalTerm(t, row), EvalTerm(low, row)), cmp("<=", EvalTerm(t, row), EvalTerm(high, row)))
    case IsNull(t) => if EvalTerm(t, row).Absent? then True else False
    case Bare(t) => cmp("=", EvalTerm(t, row), Flag(true))
    case Not(p) => NotT(Eval(p, row, cmp))
    case And(a, b) => AndT(Eval(a, row, cmp), Eval(b, row, cmp))
    case Or(a, b) => OrT(Eval(a, row, cmp), Eval(b, row, cmp))
  }

  lemma {:induction false} EvalInRenamed(v: Value, items: seq<Term>, f: string -> string, row: Row, bound: Row,
                                         cmp: Comparison)
    requires forall c :: c in ItemCols(items) ==> bound(c) == row(f(c))
    ensures EvalIn(v, RenameTerms(items, NamesOnly(f)), row, cmp) == EvalIn(v, items, bound, cmp)
  {
    if items != [] {
      EvalInRenamed(v, items[1..], f, row, bound, cmp);
      assert RenameTerms(items, NamesOnly(f))[1..] == RenameTerms(items[1..], NamesOnly(f));
    }
  }

  /** A renamed predicate on a row is the predicate on any binding of its own columns through the renaming. */
  lemma {:induction false} EvalRenamed(e: Pred, f: string -> string, row: Row, bound: Row, cmp: Comparison)
    requires forall c :: c in Cols(e) ==> bound(c) == row(f(c))
    ensures Eval(Rename(e, NamesOnly(f)), row, cmp) == Eval(e, bound, cmp)
  {
    match e
    case In(t, items) => EvalInRenamed(EvalTerm(t, bound), items, f, row, bound, cmp);
    case Not(p) => EvalRenamed(p, f, row, bound, cmp);
    case And(a, b) =>
      EvalRenamed(a, f, row, bound, cmp);
      EvalRenamed(b, f, row, bound, cmp);
    case Or(a, b) =>
      EvalRenamed(a, f, row, bound, cmp);
      EvalRenamed(b, f, row, bound, cmp);
    case _ =>
  }

  /** The texts of literals are mapped, and names stay. */
  function TextsOnly(g: string -> string): Renaming { Renaming(w => w, g) }

  lemma {:induction false} RenameItemsInTwo(items: seq<Term>, f: string -> string, g: string -> string)
    ensures RenameTerms(RenameTerms(items, TextsOnly(g)), NamesOnly(f)) == RenameTerms(items, Renaming(f, g))
  {
    if items != [] {
      RenameItemsInTwo(items[1..], f, g);
      assert RenameTerms(items, TextsOnly(g))[1..] == RenameTerms(items[1..], TextsOnly(g));
    }
  }

  /** Literals and names are mapped one after the other. */
  lemma {:induction false} RenameInTwo(e: Pred, f: string -> string, g: string -> string)
    ensures Rename(Rename(e, TextsOnly(g)), NamesOnly(f)) == Rename(e, Renaming(f, g))
  {
    match e
    case In(t, items) => RenameItemsInTwo(items, f, g);
    case Not(p) => RenameInTwo(p, f, g);
    case And(a, b) =>
      RenameInTwo(a, f, g);
      RenameInTwo(b, f, g);
    case Or(a, b) =>
      RenameInTwo(a, f, g);
      RenameInTwo(b, f, g);
    case _ =>
  }

  function TermTexts(t: Term): set<string> { if t.Str? then {t.text} else {} }

  function ItemTexts(items: seq<Term>): set<string> {
    if items == [] then {} else TermTexts(items[0]) + ItemTexts(items[1..])
  }

  /** The texts of the string literals of a predicate. */
  function Texts(e: Pred): set<string> {
    match e
    case Cmp(l, _, r) => TermTexts(l) + TermTexts(r)
    case Like(t, pattern) => TermTexts(t) + TermTexts(pattern)
    case In(t, items) => TermTexts(t) + ItemTexts(items)
    case Between(t, low, high) => TermTexts(t) + TermTexts(low) + TermTexts(high)
    case IsNull(t) => TermTexts(t)
    case Bare(t) => TermTexts(t)
    case Not(p) => Texts(p)
    case And(a, b) => Texts(a) + Texts(b)
    case Or(a, b) => Texts(a) + Texts(b)
  }

  predicate Stay(texts: set<string>, g: string -> string) { forall x :: x in texts ==> g(x) == x }

  lemma StayBoth(a: set<string>, b: set<string>, g: string -> string)
    ensures Stay(a + b, g) <==> Stay(a, g) && Stay(b, g)
  {
    if Stay(a + b, g) {
      assert forall x :: x in a || x in b ==> x in a + b;
    }
  }

  lemma TermStays(t: Term, f: string -> string, g: string -> string)
    ensures RenameTerm(t, Renaming(f, g)) == RenameTerm(t, NamesOnly(f)) <==> Stay(TermTexts(t), g)
  {
    if t.Str? {
      assert t.text in TermTexts(t);
    }
  }

  lemma {:induction false} ItemsStay(items: seq<Term>, f: string -> string, g: string -> string)
    ensures RenameTerms(items, Renaming(f, g)) == RenameTerms(items, NamesOnly(f)) <==> Stay(ItemTexts(items), g)
  {
    if items != [] {
      TermStays(items[0], f, g);
      ItemsStay(items[1..], f, g);
      StayBoth(TermTexts(items[0]), ItemTexts(items[1..]), g);
      var one, all := RenameTerms(items, NamesOnly(f)), RenameTerms(items, Renaming(f, g));
      assert one[0] == RenameTerm(items[0], NamesOnly(f)) && one[1..] == RenameTerms(items[1..], NamesOnly(f));
      assert all[0] == RenameTerm(items[0], Renaming(f, g)) && all[1..] == RenameTerms(items[1..], Renaming(f, g));
    }
  }

  lemma TestStays(e: Pred, f: string -> string, g: string -> string)
    requires !e.Not? && !e.And? && !e.Or?
    ensures Rename(e, Renaming(f, g)) == Rename(e, NamesOnly(f)) <==> Stay(Texts(e), g)
  {
    match e
    case Cmp(l, _, r) =>
      TermStays(l, f, g);
      TermStays(r, f, g);
      StayBoth(TermTexts(l), TermTexts(r), g);
    case Like(t, pattern) =>
      TermStays(t, f, g);
      TermStays(pattern, f, g);
      StayBoth(TermTexts(t), TermTexts(pattern), g);
    case In(t, items) =>
      TermStays(t, f, g);
      ItemsStay(items, f, g);
      StayBoth(TermTexts(t), ItemTexts(items), g);
    case Between(t, low, high) =>
      TermStays(t, f, g);
      TermStays(low, f, g);
      TermStays(high, f, g);
      StayBoth(TermTexts(t), TermTexts(low), g);
      StayBoth(TermTexts(t) + TermTexts(low), TermTexts(high), g);
    case IsNull(t) => TermStays(t, f, g);
    case Bare(t) => TermStays(t, f, g);
  }

  /** Only the names change, exactly when every literal stays. */
  lemma {:induction false} OnlyNamesChange(e: Pred, f: string -> string, g: string -> string)
    ensures Rename(e, Renaming(f, g)) == Rename(e, NamesOnly(f)) <==> Stay(Texts(e), g)
  {
    match e
    case Not(p) => OnlyNamesChange(p, f, g);
    case And(a, b) =>
      OnlyNamesChange(a, f, g);
      OnlyNamesChange(b, f, g);
      StayBoth(Texts(a), Texts(b), g);
    case Or(a, b) =>
      OnlyNamesChange(a, f, g);
      OnlyNamesChange(b, f, g);
      StayBoth(Texts(a), Texts(b), g);
    case _ => TestStays(e, f, g);
  }

  lemma {:induction false} EvalInAgrees(v: Value, items: seq<Term>, r1: Row, r2: Row, cmp: Comparison)
    requires forall c :: c in ItemCols(items) ==> r1(c) == r2(c)
    ensures EvalIn(v, items, r1, cmp) == EvalIn(v, items, r2, cmp)
  {
    if items != [] {
      EvalInAgrees(v, items[1..], r1, r2, cmp);
    }
  }

  /** A predicate depends on its own columns only. */
  lemma {:induction false} EvalAgrees(e: Pred, r1: Row, r2: Row, cmp: Comparison)
    requires forall c :: c in Cols(e) ==> r1(c) == r2(c)
    ensures Eval(e, r1, cmp) == Eval(e, r2, cmp)
  {
    match e
    case In(t, items) => EvalInAgrees(EvalTerm(t, r1), items, r1, r2, cmp);
    case Not(p) => EvalAgrees(p, r1, r2, cmp);
    case And(a, b) =>
      EvalAgrees(a, r1, r2, cmp);
      EvalAgrees(b, r1, r2, cmp);
    case Or(a, b) =>
      EvalAgrees(a, r1, r2, cmp);
      EvalAgrees(b, r1, r2, cmp);
    case _ =>
  }

  // ---------------------------------------------------------------- mapping preserves meaning

  /** No parameter is a word of a string literal of the text. */
  predicate LiteralsAvoid(ts: seq<Token>, params: seq<string>) {
    forall t, w :: t in ts && t.Literal? && w in params ==> L.Word(w) !in L.Lex(t.text)
  }

  predicate NoKeywords(names: seq<string>) { forall n :: n in names ==> !IsKeyword(n) }

  lemma {:induction false} OnlyParamsMove(word: string, params: seq<string>, columns: seq<string>)
    requires |params| == |columns| && Simultaneous(word, params, columns) != word
    ensures word in params
  {
    if params[0] != word {
      OnlyParamsMove(word, params[1..], columns[1..]);
    }
  }

  /** The parameters replaced all at once, as a function. */
  function Substitution(params: seq<string>, columns: seq<string>): string -> string
    requires |params| == |columns|
  {
    w => Simultaneous(w, params, columns)
  }

  /** The values a call of the function sees: each parameter is bound to the row's value of its input column. */
  function Binding(params: seq<string>, columns: seq<string>, row: Row): Row
    requires |params| == |columns|
  {
    w => row(Simultaneous(w, params, columns))
  }

  lemma SimultaneousIsOne(word: string, params: seq<string>, columns: seq<string>)
    requires |params| == |columns|
    ensures Simultaneous(word, params, columns) ==
              word || (word in params && Simultaneous(word, params, columns) in columns)
  {
  }

  /** Substituting columns for parameters keeps names names, keywords keywords and numbers numbers. */
  lemma SubstitutionIsProper(params: seq<string>, columns: seq<string>)
    requires Mappable(params, columns) && NoKeywords(params) && NoKeywords(columns)
    ensures KeepsForm(Substitution(params, columns)) && FixesKeywords(Rewriting(Substitution(params, columns)))
  {
    var f := Substitution(params, columns);
    forall w
      ensures if StartsName(w) then StartsName(f(w)) else f(w) == w
      ensures if IsKeyword(w) then f(w) == w else !IsKeyword(f(w))
    {
      SimultaneousIsOne(w, params, columns);
    }
  }

  lemma SubstitutionFixesLiterals(ts: seq<Token>, params: seq<string>, columns: seq<string>)
    requires |params| == |columns| && LiteralsAvoid(ts, params)
    ensures FixesLiterals(ts, Substitution(params, columns))
  {
    forall t | t in ts && t.Literal?
      ensures Reworded(t.text, Substitution(params, columns)) == t.text
    {
      WordsStay(t.text, params, columns);
    }
  }

  lemma WordsStay(text: string, params: seq<string>, columns: seq<string>)
    requires |params| == |columns| && forall w :: w in params ==> L.Word(w) !in L.Lex(text)
    ensures Reworded(text, Substitution(params, columns)) == text
  {
    var f, ls := Substitution(params, columns), L.Lex(text);
    forall i | 0 <= i < |ls| && ls[i].Word?
      ensures f(ls[i].text) == ls[i].text
    {
      SimultaneousIsOne(ls[i].text, params, columns);
      assert ls[i] == L.Word(ls[i].text) && ls[i] in ls;
    }
    assert L.MapWords(ls, f) == ls;
    L.TextOfLex(text);
  }

  lemma MapWordsSame(ls: seq<L.Lexeme>, f: string -> string, g: string -> string)
    requires forall w :: f(w) == g(w)
    ensures L.MapWords(ls, f) == L.MapWords(ls, g)
  {
  }

  /** The mapped text has the mapped words. */
  lemma MappedLexemes(s: string, params: seq<string>, columns: seq<string>)
    requires Mappable(params, columns) && Distinct(params) && CaptureFree(params, columns)
    ensures var ls := L.MapWords(L.Lex(s), Substitution(params, columns));
            MappedParams(s, params, columns) == Ok(L.Text(ls)) && L.Lex(L.Text(ls)) == ls
  {
    var f := Substitution(params, columns);
    var g := w => Sequential(w, params[0..], columns[0..]);
    assert params[0..] == params && columns[0..] == columns;
    L.TextOfLex(s);
    L.LexIsWellLexed(s);
    MappedIsSequential(L.Lex(s), params, columns, 0);
    forall w
      ensures f(w) == g(w)
    {
      CaptureFreeAgrees(w, params, columns);
    }
    MapWordsSame(L.Lex(s), f, g);
    MapKeepsForm(L.Lex(s), params, columns);
    L.LexOfText(L.MapWords(L.Lex(s), f));
  }

  lemma MapKeepsForm(ls: seq<L.Lexeme>, params: seq<string>, columns: seq<string>)
    requires L.WellLexed(ls) && Mappable(params, columns)
    ensures L.WellLexed(L.MapWords(ls, Substitution(params, columns)))
  {
    var r := L.MapWords(ls, Substitution(params, columns));
    forall i | 0 <= i < |r|
      ensures L.Proper(r[i])
    {
      assert L.Proper(ls[i]);
      if ls[i].Word? {
        SimultaneousIsOne(ls[i].text, params, columns);
      }
    }
  }

  /** Names that can be mapped one after the other, and no keyword among them. */
  predicate ProperMapping(params: seq<string>, columns: seq<string>) {
    && Mappable(params, columns) && Distinct(params) && CaptureFree(params, columns)
    && NoKeywords(params) && NoKeywords(columns)
  }

  /** The mapped text is read as the tree of the text with the words of its names and of its literals replaced. */
  lemma MappedTree(s: string, params: seq<string>, columns: seq<string>)
    requires Read(s).Some? && ProperMapping(params, columns)
    ensures MappedParams(s, params, columns).Ok?
    ensures Read(MappedParams(s, params, columns).value) ==
              Some(Rename(Read(s).value, Rewriting(Substitution(params, columns))))
  {
    var f, ts := Substitution(params, columns), TokensOf(s).value;
    SubstitutionIsProper(params, columns);
    MappedLexemes(s, params, columns);
    L.LexIsWellLexed(s);
    TokensMapped(L.Lex(s), f);
    OrMapped(ts, Rewriting(f));
    assert MapTokens([], Rewriting(f)) == [];
  }

  /** The mapped text is the predicate with its parameters renamed, and nothing else, exactly if every literal stays. */
  lemma MappingRenamesExactly(s: string, params: seq<string>, columns: seq<string>)
    requires Read(s).Some? && ProperMapping(params, columns)
    ensures MappedParams(s, params, columns).Ok?
    ensures var f := Substitution(params, columns);
            Read(MappedParams(s, params, columns).value) == Some(Rename(Read(s).value, NamesOnly(f))) <==>
              forall text :: text in Texts(Read(s).value) ==> Reworded(text, f) == text
  {
    var f := Substitution(params, columns);
    MappedTree(s, params, columns);
    OnlyNamesChange(Read(s).value, f, Rewriting(f).texts);
  }

  /** The predicate of a text whose literals hold no parameter, with only its names mapped. */
  lemma AvoidedTree(s: string, params: seq<string>, columns: seq<string>)
    requires Read(s).Some? && ProperMapping(params, columns) && LiteralsAvoid(TokensOf(s).value, params)
    ensures MappedParams(s, params, columns).Ok?
    ensures Read(MappedParams(s, params, columns).value) ==
              Some(Rename(Read(s).value, NamesOnly(Substitution(params, columns))))
  {
    var f, ts := Substitution(params, columns), TokensOf(s).value;
    SubstitutionIsProper(params, columns);
    SubstitutionFixesLiterals(ts, params, columns);
    FixedLiterals(ts, f);
    MappedLexemes(s, params, columns);
    L.LexIsWellLexed(s);
    TokensMapped(L.Lex(s), f);
    OrMapped(ts, NamesOnly(f));
    assert MapTokens([], NamesOnly(f)) == [];
  }

  /**
   What parameter mapping does to the meaning of every text that is read as a predicate, whatever its layout and its
   literals: the mapped text is read too, and on any row, for any comparison of values, it has the value that the text
   with the words of its literals replaced has when each parameter is bound to the row's value of its input column. If
   no literal holds a parameter, that is the value of the text itself.
   */
  lemma MappingPreservesMeaning(s: string, params: seq<string>, columns: seq<string>, row: Row, cmp: Comparison)
    requires Read(s).Some? && ProperMapping(params, columns)
    ensures MappedParams(s, params, columns).Ok?
    ensures var mapped, f := MappedParams(s, params, columns).value, Substitution(params, columns);
            && Read(mapped).Some?
            && Eval(Read(mapped).value, row, cmp) ==
                 Eval(Rename(Read(s).value, TextsOnly(Rewriting(f).texts)), Binding(params, columns, row), cmp)
            && (LiteralsAvoid(TokensOf(s).value, params) ==>
                  Eval(Read(mapped).value, row, cmp) == Eval(Read(s).value, Binding(params, columns, row), cmp))
  {
    var f, e, bound := Substitution(params, columns), Read(s).value, Binding(params, columns, row);
    MappedTree(s, params, columns);
    RenameInTwo(e, f, Rewriting(f).texts);
    EvalRenamed(Rename(e, TextsOnly(Rewriting(f).texts)), f, row, bound, cmp);
    if LiteralsAvoid(TokensOf(s).value, params) {
      AvoidedTree(s, params, columns);
      EvalRenamed(e, f, row, bound, cmp);
    }
  }

  /** A database that compares texts, on two texts. */
  function TextsEqual(op: string, a: Value, b: Value): Truth { if a == b then True else False }

  lemma OneParameter(p: string, c: string)
    requires IsIdentifier(p) && IsIdentifier(c) && !IsKeyword(p) && !IsKeyword(c)
    ensures ProperMapping([p], [c]) && forall w :: Simultaneous(w, [p], [c]) == if w == p then c else w
  {
    assert [p][1..] == [] && [c][1..] == [];
  }

  lemma OneWordText(p: string, c: string)
    requires IsIdentifier(p) && IsIdentifier(c)
    requires forall w :: Simultaneous(w, [p], [c]) == if w == p then c else w
    ensures Reworded(p, Substitution([p], [c])) == c
  {
    L.LexWord(p, "");
    assert p + "" == p;
    var ls := L.MapWords(L.Lex(p), Substitution([p], [c]));
    assert ls == [L.Word(c)] && ls[1..] == [];
    assert L.Text(ls) == c + L.Text([]);
  }

  /**
   The failing case, for any parameter and any other column: the body p = 'p' is mapped to c = 'c', which is false on a
   row whose column holds 'p', although the body is true there.
   */
  lemma LiteralIsRewritten(p: string, c: string, row: Row)
    requires IsIdentifier(p) && IsIdentifier(c) && !IsKeyword(p) && !IsKeyword(c) && p != c && row(c) == Chars(p)
    ensures var e := Cmp(Col(p), "=", Str(p));
            GoodTerm(Col(p)) && Good(e) &&
            var mapped := MappedParams(TextOf(e), [p], [c]);
            && mapped.Ok? && Read(mapped.value) == Some(Cmp(Col(c), "=", Str(c)))
            && Read(TextOf(e)) == Some(e) && Eval(e, Binding([p], [c], row), TextsEqual) == True
            && Eval(Read(mapped.value).value, row, TextsEqual) == False
  {
    var e := Cmp(Col(p), "=", Str(p));
    OneParameter(p, c);
    ReadUndoesPrint(e);
    MappedTree(TextOf(e), [p], [c]);
    OneWordText(p, c);
  }

  // ---------------------------------------------------------------- the referenced columns

  /** The positions of xs inside ys increase. */
  predicate InOrder(xs: seq<string>, ys: seq<string>)
    decreases |ys|
  {
    xs == [] || (ys != [] && (if xs[|xs| - 1] == ys[|ys| - 1] then InOrder(xs[..|xs| - 1], ys[..|ys| - 1])
                              else InOrder(xs, ys[..|ys| - 1])))
  }

  predicate IsTrimmed(c: string) { Strip(c) == c && c != "" }

  predicate Trimmed(columns: seq<string>) { forall c :: c in columns ==> IsTrimmed(c) }

  lemma TrimmedFront(columns: seq<string>)
    requires columns != [] && Trimmed(columns)
    ensures Trimmed(columns[..|columns| - 1])
  {
    forall c | c in columns[..|columns| - 1]
      ensures IsTrimmed(c)
    {
      assert c in columns;
    }
  }

  lemma {:induction false} OccurringExactly(raw: string, columns: seq<string>, c: string)
    requires Trimmed(columns)
    ensures c in Occurring(raw, columns) <==> c in columns && Occurs(raw, c)
  {
    if columns != [] {
      var last := |columns| - 1;
      assert columns == columns[..last] + [columns[last]];
      TrimmedFront(columns);
      assert IsTrimmed(columns[last]);
      OccurringExactly(raw, columns[..last], c);
    }
  }

  /** The input columns are exactly the table columns that occur in the predicate, in table order. */
  lemma {:induction false} ReferencedExactly(raw: string, columns: seq<string>)
    requires Trimmed(columns)
    requires forall i, j :: 0 <= i < j < |columns| ==> columns[i] != columns[j]
    ensures forall c :: c in Occurring(raw, columns) <==> c in columns && Occurs(raw, c)
    ensures InOrder(Occurring(raw, columns), columns)
  {
    forall c
      ensures c in Occurring(raw, columns) <==> c in columns && Occurs(raw, c)
    {
      OccurringExactly(raw, columns, c);
    }
    if columns != [] {
      TrimmedFront(columns);
      ReferencedExactly(raw, columns[..|columns| - 1]);
      OrderedStep(raw, columns);
    }
  }

  lemma OrderedStep(raw: string, columns: seq<string>)
    requires columns != [] && Trimmed(columns)
    requires columns[|columns| - 1] !in columns[..|columns| - 1]
    requires InOrder(Occurring(raw, columns[..|columns| - 1]), columns[..|columns| - 1])
    ensures InOrder(Occurring(raw, columns), columns)
  {
    var last := |columns| - 1;
    var before := Occurring(raw, columns[..last]);
    TrimmedFront(columns);
    assert IsTrimmed(columns[last]);
    if Occurs(raw, columns[last]) {
      assert Occurring(raw, columns)[..|before|] == before;
    } else if before != [] {
      OccurringExactly(raw, columns[..last], before[|before| - 1]);
      assert Occurring(raw, columns) == before;
    }
  }

  lemma {:induction false} OccurringHas(raw: string, columns: seq<string>, c: string)
    requires c in columns && Strip(c) == c && c != "" && Occurs(raw, c)
    ensures c in Occurring(raw, columns)
  {
    var last := |columns| - 1;
    if columns[last] != c {
      assert columns == columns[..last] + [columns[last]];
      OccurringHas(raw, columns[..last], c);
    }
  }

  // ---------------------------------------------------------------- the emitted function, read back

  /** A filter function: a predicate, or CASE WHEN current_user() IN (members) THEN (predicate) ELSE true END. */
  datatype Body = Plain(condition: Pred) | Guarded(members: seq<Term>, condition: Pred)

  const HEAD: seq<Token> := [Name("case"), Name("when"), Name("current_user"), Open, Close, Name("in"), Open]
  const MIDDLE: seq<Token> := [Close, Name("then"), Open]
  const LAST: seq<Token> := [Close, Name("else"), Name("true"), Name("end")]

  predicate SameToken(t: Token, pattern: Token) {
    if t.Name? then pattern == Name(Lower(t.word)) else t == pattern
  }

  /** The rest behind a fixed sequence of tokens, names in any case. */
  function EatTokens(ts: seq<Token>, pattern: seq<Token>): Option<seq<Token>> {
    if pattern == [] then Some(ts)
    else if ts != [] && SameToken(ts[0], pattern[0]) then EatTokens(ts[1..], pattern[1..])
    else None
  }

  function ParseGuarded(ts: seq<Token>): Option<Body> {
    var a := EatTokens(ts, HEAD);
    if a.None? then None else
    var members := ParseItems(a.value);
    if members.Fail? then None else
    var b := EatTokens(members.rest, MIDDLE);
    if b.None? then None else
    var p := ParseOr(b.value);
    if p.Fail? || EatTokens(p.rest, LAST) != Some([]) then None else Some(Guarded(members.tree, p.tree))
  }

  /** What the text of a filter function means, if it is one of the two forms. */
  function ReadBody(s: string): Option<Body> {
    var ts := TokensOf(s);
    if ts.None? then None
    else if IsWord(ts.value, "case") then ParseGuarded(ts.value)
    else
      var p := Parse(ts.value);
      if p.None? then None else Some(Plain(p.value))
  }

  /** CASE takes its first branch only when the condition of the branch is true. */
  function EvalBody(b: Body, user: string, args: Row, cmp: Comparison): Truth {
    match b
    case Plain(p) => Eval(p, args, cmp)
    case Guarded(members, p) => if EvalIn(Chars(user), members, args, cmp) == True then Eval(p, args, cmp) else True
  }

  /** Character strings are equal when they are the same. */
  ghost predicate ComparesStrings(cmp: Comparison) {
    forall a, b :: cmp("=", Chars(a), Chars(b)) == if a == b then True else False
  }

  function Strings(principals: seq<string>): seq<Term> {
    seq(|principals|, i requires 0 <= i < |principals| => Str(principals[i]))
  }

  lemma {:induction false} EvalMembers(principals: seq<string>, user: string, args: Row, cmp: Comparison)
    requires ComparesStrings(cmp)
    ensures EvalIn(Chars(user), Strings(principals), args, cmp) == if user in principals then True else False
  {
    if principals != [] {
      EvalMembers(principals[1..], user, args, cmp);
      assert Strings(principals)[1..] == Strings(principals[1..]);
    }
  }

  /** A member list is read as the principals it was made of. */
  lemma {:induction false} MembersRead(principals: seq<string>, tail: string)
    requires principals != [] && tail != "" && tail[0] == ')'
    ensures TokensOf(MemberList(principals) + tail) == Plus(Some(PrintItems(Strings(principals))), TokensOf(tail))
    decreases |principals|
  {
    if |principals| == 1 {
      assert MemberList(principals) == SqlString(principals[0]);
      assert PrintItems(Strings(principals)) == [Literal(principals[0])];
      LiteralText(principals[0], tail);
    } else {
      MembersRead(principals[1..], tail);
      var more := MemberList(principals[1..]) + tail;
      MemberListMore(principals, tail);
      LiteralText(principals[0], [','] + ([' '] + more));
      MarkText(',', [' '] + more);
      BlankText(' ', more);
      MembersStep(principals, TokensOf(tail));
    }
  }

  lemma MemberListMore(principals: seq<string>, tail: string)
    requires |principals| > 1
    ensures MemberList(principals) + tail == SqlString(principals[0])
              + ([','] + ([' '] + (MemberList(principals[1..]) + tail)))
  {
    var q := Quoted(principals);
    assert q[1..] == Quoted(principals[1..]);
    assert MemberList(principals) == q[0] + ", " + MemberList(principals[1..]);
  }

  lemma MembersStep(principals: seq<string>, rest: Option<seq<Token>>)
    requires |principals| > 1
    ensures Cons(Literal(principals[0]), Cons(Comma, Plus(Some(PrintItems(Strings(principals[1..]))), rest)))
              == Plus(Some(PrintItems(Strings(principals))), rest)
  {
    assert Strings(principals)[1..] == Strings(principals[1..]);
    if rest.Some? {
      var more := PrintItems(Strings(principals[1..]));
      assert [Literal(principals[0])] + ([Comma] + (more + rest.value))
          == ([Literal(principals[0])] + ([Comma] + more)) + rest.value;
    }
  }

  /** A text that is a word, a blank, and more. */
  lemma WordBlank(s: string, w: string, rest: string)
    requires StartsName(w) && L.AllWordChars(w) && s == w + ([' '] + rest)
    ensures TokensOf(s) == Cons(Name(w), TokensOf(rest))
  {
    NameText(w, [' '] + rest);
    BlankText(' ', rest);
  }

  const READ_LAST: seq<Token> := [Close, Name("ELSE"), Name("true"), Name("END")]
  const READ_MIDDLE: seq<Token> := [Close, Name("THEN"), Open]
  const READ_HEAD: seq<Token> := [Name("CASE"), Name("WHEN"), Name("current_user"), Open, Close, Name("IN"), Open]

  lemma EndRead(s: string, w: string, end: string)
    requires s == w + ([' '] + end) && w == "true" && end == "END"
    ensures TokensOf(s) == Some([Name(w), Name(end)])
  {
    NameText(end, "");
    assert end + "" == end;
    assert TokensOf("") == Some([]);
    WordBlank(s, w, end);
    assert [Name(w)] + ([Name(end)] + []) == [Name(w), Name(end)];
  }

  lemma ElseRead(s: string)
    requires s == "ELSE true END"
    ensures TokensOf(s) == Some([Name("ELSE"), Name("true"), Name("END")])
  {
    var w, yes, end := "ELSE", "true", "END";
    var rest := yes + ([' '] + end);
    assert s == w + ([' '] + rest);
    EndRead(rest, yes, end);
    WordBlank(s, w, rest);
    assert [Name(w)] + [Name(yes), Name(end)] == [Name("ELSE"), Name("true"), Name("END")];
  }

  lemma CloseBlank(s: string, rest: string)
    requires s == [')'] + ([' '] + rest)
    ensures TokensOf(s) == Cons(Close, TokensOf(rest))
  {
    MarkText(')', [' '] + rest);
    BlankText(' ', rest);
  }

  lemma LastRead(s: string, rest: string)
    requires s == [')'] + ([' '] + rest) && rest == "ELSE true END"
    ensures TokensOf(s) == Some(READ_LAST)
  {
    ElseRead(rest);
    CloseBlank(s, rest);
    LastTokens();
  }

  lemma LastTokens()
    ensures [Close] + [Name("ELSE"), Name("true"), Name("END")] == READ_LAST
  {
  }

  lemma LastText(s: string, rest: string)
    requires s == ") ELSE true END" && rest == "ELSE true END"
    ensures s == [')'] + ([' '] + rest)
  {
  }

  lemma ThenStep(rest: string)
    ensures TokensOf("THEN (" + rest) == Cons(Name("THEN"), Cons(Open, TokensOf(rest)))
  {
    assert "THEN (" + rest == "THEN" + ([' '] + (['('] + rest));
    WordBlank("THEN (" + rest, "THEN", ['('] + rest);
    MarkText('(', rest);
  }

  /** The text from the parenthesis that closes the member list on. */
  lemma ThenRead(condition: string)
    requires TokensOf(condition).Some?
    ensures TokensOf(") " + ThenText(condition)) == Some(READ_MIDDLE + (TokensOf(condition).value + READ_LAST))
  {
    var last, rest := ") ELSE true END", "ELSE true END";
    LastText(last, rest);
    LastRead(last, rest);
    TextBefore(condition, last);
    ThenStep(condition + last);
    ThenBlank(ThenText(condition));
    MiddleTokens(TokensOf(condition).value + READ_LAST);
  }

  lemma ThenBlank(text: string)
    ensures TokensOf(") " + text) == Cons(Close, TokensOf(text))
  {
    assert ") " + text == [')'] + ([' '] + text);
    CloseBlank(") " + text, text);
  }

  lemma MiddleTokens(more: seq<Token>)
    ensures Cons(Close, Cons(Name("THEN"), Cons(Open, Some(more)))) == Some(READ_MIDDLE + more)
  {
    assert [Close] + ([Name("THEN")] + ([Open] + more)) == READ_MIDDLE + more;
  }

  lemma InStep(rest: string)
    ensures TokensOf("IN (" + rest) == Cons(Name("IN"), Cons(Open, TokensOf(rest)))
  {
    assert "IN (" + rest == "IN" + ([' '] + (['('] + rest));
    WordBlank("IN (" + rest, "IN", ['('] + rest);
    MarkText('(', rest);
  }

  /** What follows the head of a wrapper. */
  function WrapTokens(principals: seq<string>, condition: seq<Token>): seq<Token>
    requires principals != []
  {
    PrintItems(Strings(principals)) + (READ_MIDDLE + (condition + READ_LAST))
  }

  /** The text from IN on. */
  lemma InRead(principals: seq<string>, condition: string)
    requires principals != [] && TokensOf(condition).Some?
    ensures TokensOf(InText(MemberList(principals), condition))
              == Cons(Name("IN"), Cons(Open, Some(WrapTokens(principals, TokensOf(condition).value))))
  {
    var tail := ") " + ThenText(condition);
    ThenRead(condition);
    MembersRead(principals, tail);
    InStep(MemberList(principals) + tail);
  }

  lemma CaseStep(rest: string)
    ensures TokensOf("CASE " + rest) == Cons(Name("CASE"), TokensOf(rest))
  {
    assert "CASE " + rest == "CASE" + ([' '] + rest);
    WordBlank("CASE " + rest, "CASE", rest);
  }

  lemma WhenStep(rest: string)
    ensures TokensOf("WHEN " + rest) == Cons(Name("WHEN"), TokensOf(rest))
  {
    assert "WHEN " + rest == "WHEN" + ([' '] + rest);
    WordBlank("WHEN " + rest, "WHEN", rest);
  }

  lemma UserStep(rest: string)
    ensures TokensOf("current_user() " + rest) == Cons(Name("current_user"), Cons(Open, Cons(Close, TokensOf(rest))))
  {
    var close := [')'] + ([' '] + rest);
    assert "current_user() " + rest == "current_user" + (['('] + close);
    CloseBlank(close, rest);
    MarkText('(', close);
    NameText("current_user", ['('] + close);
  }

  lemma HeadTokens(more: seq<Token>)
    ensures Cons(Name("CASE"), Cons(Name("WHEN"), Cons(Name("current_user"), Cons(Open, Cons(Close,
              Cons(Name("IN"), Cons(Open, Some(more)))))))) == Some(READ_HEAD + more)
  {
    assert [Name("CASE")] + ([Name("WHEN")] + ([Name("current_user")]
                                                 + ([Open] + ([Close] + ([Name("IN")] + ([Open] + more))))))
        == READ_HEAD + more;
  }

  lemma WrapRead(principals: seq<string>, condition: string)
    requires principals != [] && TokensOf(condition).Some?
    ensures TokensOf(WrapText(MemberList(principals), condition))
              == Some(READ_HEAD + WrapTokens(principals, TokensOf(condition).value))
  {
    var rest := InText(MemberList(principals), condition);
    InRead(principals, condition);
    UserStep(rest);
    WhenStep("current_user() " + rest);
    CaseStep("WHEN " + ("current_user() " + rest));
    HeadTokens(WrapTokens(principals, TokensOf(condition).value));
  }

  predicate Matches(ts: seq<Token>, pattern: seq<Token>) {
    |ts| == |pattern| && forall i :: 0 <= i < |ts| ==> SameToken(ts[i], pattern[i])
  }

  lemma {:induction false} EatOwn(ts: seq<Token>, pattern: seq<Token>, rest: seq<Token>)
    requires Matches(ts, pattern)
    ensures EatTokens(ts + rest, pattern) == Some(rest)
    decreases |ts|
  {
    if ts == [] {
      assert ts + rest == rest;
    } else {
      assert (ts + rest)[1..] == ts[1..] + rest;
      EatOwn(ts[1..], pattern[1..], rest);
    }
  }

  lemma FixedWords()
    ensures Matches(READ_HEAD, HEAD) && Matches(READ_MIDDLE, MIDDLE) && Matches(READ_LAST, LAST)
    ensures Lower("CASE") == "case"
  {
    assert Lower("CASE") == "case" && Lower("WHEN") == "when" && Lower("current_user") == "current_user";
    assert Lower("IN") == "in" && Lower("THEN") == "then" && Lower("ELSE") == "else";
    assert Lower("true") == "true" && Lower("END") == "end";
  }

  /** A wrapped predicate is read as its members and the predicate. */
  lemma GuardedRead(principals: seq<string>, condition: string)
    requires principals != [] && Read(condition).Some?
    ensures ReadBody(WrapText(MemberList(principals), condition)) ==
              Some(Guarded(Strings(principals), Read(condition).value))
  {
    var inner := TokensOf(condition).value;
    WrapRead(principals, condition);
    GuardedTokens(principals, inner, Read(condition).value);
    assert (READ_HEAD + WrapTokens(principals, inner))[0] == Name("CASE");
  }

  lemma GuardedTokens(principals: seq<string>, inner: seq<Token>, tree: Pred)
    requires principals != [] && ParseOr(inner) == Got(tree, [])
    ensures ParseGuarded(READ_HEAD + WrapTokens(principals, inner)) == Some(Guarded(Strings(principals), tree))
  {
    var members := PrintItems(Strings(principals));
    var last := inner + READ_LAST;
    FixedWords();
    assert WrapTokens(principals, inner) == members + (READ_MIDDLE + last);
    EatOwn(READ_HEAD, HEAD, members + (READ_MIDDLE + last));
    ItemsOf(Strings(principals), READ_MIDDLE + last);
    EatOwn(READ_MIDDLE, MIDDLE, last);
    ConditionRead(inner, tree);
  }

  lemma ConditionRead(inner: seq<Token>, tree: Pred)
    requires ParseOr(inner) == Got(tree, [])
    ensures ParseOr(inner + READ_LAST) == Got(tree, READ_LAST) && EatTokens(READ_LAST, LAST) == Some([])
  {
    FixedWords();
    OrBefore(inner, READ_LAST);
    assert [] + READ_LAST == READ_LAST && READ_LAST + [] == READ_LAST;
    EatOwn(READ_LAST, LAST, []);
  }

  lemma CaseIsNoTerm(w: string)
    requires Lower(w) == "case"
    ensures TermOfName(w).None?
  {
    assert KEYWORDS[10] == "case";
    assert "case"[0] == 'c' && "null"[0] == 'n' && "true"[0] == 't' && "false"[0] == 'f';
  }

  lemma CaseIsNoPredicate(ts: seq<Token>)
    requires IsWord(ts, "case")
    ensures ParseOr(ts).Fail?
  {
    CaseIsNoTerm(ts[0].word);
    assert "case"[0] == 'c' && "not"[0] == 'n';
    assert ParsePrim(ts).Fail?;
    assert ParseNot(ts).Fail?;
    assert ParseAnd(ts).Fail?;
  }

  /** A text that is read as a predicate does not begin with CASE. */
  lemma PredicateIsNotCase(s: string)
    requires Read(s).Some?
    ensures ReadBody(s) == Some(Plain(Read(s).value))
  {
    if IsWord(TokensOf(s).value, "case") {
      CaseIsNoPredicate(TokensOf(s).value);
    }
  }

  // ---------------------------------------------------------------- the emitted filter means the predicate

  /**
   What a call passes: each parameter has the row's value of the column in its position; other names are not bound by
   it.
   */
  function Passed(params: seq<string>, on: seq<string>, row: Row, other: Row): Row
    requires |params| == |on|
  {
    name => PassedValue(params, on, row, other, name)
  }

  function PassedValue(params: seq<string>, on: seq<string>, row: Row, other: Row, name: string): Value
    requires |params| == |on|
  {
    if params == [] then other(name)
    else if params[0] == name then row(on[0])
    else PassedValue(params[1..], on[1..], row, other, name)
  }

  lemma {:induction false} PassedOwn(params: seq<string>, row: Row, other: Row, name: string)
    requires name in params
    ensures PassedValue(params, params, row, other, name) == row(name)
  {
    if params[0] != name {
      PassedOwn(params[1..], row, other, name);
    }
  }

  /**
   The emitted row filter means the Fabric predicate, whatever the layout of the query: its text is read as a
   filter function that, called with the referenced columns only, has the value the predicate has on the whole
   row for every listed member (for everyone when no member is listed), and is true for everyone else.
   */
  lemma RowFilterMeaning(scope: string, catalog: string, query: string, principals: seq<string>, columns: seq<Column>,
                         user: string, row: Row, other: Row, cmp: Comparison)
    requires Read(NormalizeRowPredicate(query)).Some? && ComparesStrings(cmp)
    requires FabricRowFilter(scope, catalog, query, principals, columns).Ok?
    requires forall c :: c in Cols(Read(NormalizeRowPredicate(query)).value) ==> c in Names(columns)
    ensures var f := FabricRowFilter(scope, catalog, query, principals, columns).value;
            && ReadBody(f.body).Some?
            && |f.on| == |ParamNames(f)|
            && EvalBody(ReadBody(f.body).value, user, Passed(ParamNames(f), f.on, row, other), cmp)
                 == if principals == [] || user in principals
                    then Eval(Read(NormalizeRowPredicate(query)).value, row, cmp)
                    else True
  {
    var f := FabricRowFilter(scope, catalog, query, principals, columns).value;
    var condition := NormalizeRowPredicate(query);
    var e := Read(condition).value;
    FilterPassesReferenced(scope, catalog, query, principals, columns);
    forall c | c in Cols(e)
      ensures row(c) == Passed(f.on, f.on, row, other)(c)
    {
      ReferencedIsPassed(condition, columns, c, row, other);
    }
    EvalAgrees(e, row, Passed(f.on, f.on, row, other), cmp);
    if principals == [] {
      PredicateIsNotCase(condition);
    } else {
      GuardedRead(principals, condition);
      EvalMembers(principals, user, Passed(f.on, f.on, row, other), cmp);
    }
  }

  /** The emitted function takes, and is given, the referenced columns. */
  lemma FilterPassesReferenced(scope: string, catalog: string, query: string, principals: seq<string>,
                               columns: seq<Column>)
    requires FabricRowFilter(scope, catalog, query, principals, columns).Ok? && Read(NormalizeRowPredicate(query)).Some?
    ensures var f := FabricRowFilter(scope, catalog, query, principals, columns).value;
            && f.on == ParamNames(f) == Occurring(NormalizeRowPredicate(query), Names(columns))
            && f.body == MemberScoped(NormalizeRowPredicate(query), principals)
  {
    var f := FabricRowFilter(scope, catalog, query, principals, columns).value;
    var text := NormalizeRowPredicate(query);
    TwiceNormalized(query);
    assert f.on == Occurring(text, Names(columns));
    assert ParamNames(f) == f.on;
  }

  lemma {:induction false} BlanksRead(s: string)
    ensures TokensOf(s) == TokensOf(StripLeft(s))
  {
    if s != "" && IsSpace(s[0]) {
      assert s == [s[0]] + s[1..];
      BlankText(s[0], s[1..]);
      BlanksRead(s[1..]);
    }
  }

  lemma SelectStar(s: string)
    requires EatWord(s, "select").Some? && EatWord(EatWord(s, "select").value, "*").Some?
    ensures TokensOf(s).None?
  {
    var a, w, rest := EatWord(s, "select").value, s[..6], s[6..];
    assert s == w + rest;
    assert Lower("select") == "select" && Lower(w) == "select";
    LowerWord(w, "select");
    NameText(w, rest);
    BlanksRead(rest);
    assert Lower(a[..1])[0] == LowerChar(a[0]);
    assert a == ['*'] + a[1..];
    MarkFirst('*', a[1..]);
  }

  /** A text that starts with `select *` is not read. */
  lemma SelectIsNotRead(s: string)
    requires TokensOf(s).Some?
    ensures SelectWhere(s).None?
  {
    if EatWord(s, "select").Some? && EatWord(EatWord(s, "select").value, "*").Some? {
      SelectStar(s);
    }
  }

  /** A normal text that is read normalises to itself. */
  lemma TwiceNormalized(query: string)
    requires Read(NormalizeRowPredicate(query)).Some?
    ensures NormalizeRowPredicate(NormalizeRowPredicate(query)) == NormalizeRowPredicate(query)
  {
    NormalizedIsNormal(query);
    SelectIsNotRead(NormalizeRowPredicate(query));
  }

  /** A column of the predicate is passed under its own name. */
  lemma ReferencedIsPassed(condition: string, columns: seq<Column>, c: string, row: Row, other: Row)
    requires Read(condition).Some? && c in Cols(Read(condition).value) && c in Names(columns)
    ensures var on := Occurring(condition, Names(columns)); row(c) == Passed(on, on, row, other)(c)
  {
    ColsAreWords(condition, c);
    WordIsStripped(condition, c);
    OccurringHas(condition, Names(columns), c);
    PassedOwn(Occurring(condition, Names(columns)), row, other, c);
  }

  lemma WordIsStripped(s: string, w: string)
    requires L.Word(w) in L.Lex(s)
    ensures Strip(w) == w && w != ""
  {
    L.LexIsWellLexed(s);
    var i :| 0 <= i < |L.Lex(s)| && L.Lex(s)[i] == L.Word(w);
    assert L.Proper(L.Lex(s)[i]);
    assert w[0] in w && w[|w| - 1] in w;
  }
}
