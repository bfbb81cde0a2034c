/**
 The tag conditions of app/services/abac_resolver.py: function calls joined by AND and OR, handed to Python's
 own expression grammar (section 6 of the Python Language Reference).
 */
module TagCondition {
  import opened Optional
  import opened Text

  /** What a function call asks of the tags. */
  datatype TagPredicate = HasTag(key: string) | HasTagValue(key: string, value: string)

  type Tags = map<string, string>

  predicate Holds(p: TagPredicate, tags: Tags) {
    p.key in tags && (p.HasTagValue? ==> tags[p.key] == p.value)
  }

  // ---------------------------------------------------------------- from words to tokens

  /** The text between white space; a function call is one piece. */
  datatype Piece =
    | FunctionCall(name: string, key: string, value: Option<string>)
    | Word(text: string)
    | OpenParen
    | CloseParen

  datatype Token = Atom(p: TagPredicate) | AndToken | OrToken | Open | Close

  function PredicateOf(name: string, key: string, value: Option<string>): TagPredicate {
    var k := Lower(Strip(key));
    if Lower(name) == "has_tag" || Lower(name) == "hastag" then HasTag(k)
    else HasTagValue(k, if value.Some? then value.value else "")
  }

  /** A word other than AND and OR is not part of the language. */
  function TokenOf(piece: Piece): Option<Token> {
    match piece
    case FunctionCall(name, key, value) => Some(Atom(PredicateOf(name, key, value)))
    case OpenParen => Some(Open)
    case CloseParen => Some(Close)
    case Word(text) => if Lower(text) == "and" then Some(AndToken) else if Lower(text) == "or" then Some(OrToken)
         else None
  }

  predicate Known(pieces: seq<Piece>) { forall piece :: piece in pieces ==> TokenOf(piece).Some? }

  function TokensOf(pieces: seq<Piece>): (ts: seq<Token>)
    requires Known(pieces)
    ensures |ts| == |pieces|
  {
    seq(|pieces|, i requires 0 <= i < |pieces| => TokenOf(pieces[i]).value)
  }

  // ---------------------------------------------------------------- the grammar

  datatype Disj = OneConj(c: Conj) | OrElse(c: Conj, d: Disj)

  datatype Conj = OnePrim(p: Prim) | AndAlso(p: Prim, c: Conj)

  /** An operand, and the parenthesised groups behind it, which Python takes for calls. */
  datatype Prim = Prim(b: Base, calls: Calls)

  /** `()` is an empty tuple. */
  datatype Base = Leaf(p: TagPredicate) | Unit | Paren(d: Disj)

  datatype Calls = NoCall | CallEmpty(more: Calls) | CallWith(arg: Disj, more: Calls)

  /** The tokens of a tree. */
  function Flat(d: Disj): seq<Token> {
    match d
    case OneConj(c) => FlatConj(c)
    case OrElse(c, d) => FlatConj(c) + [OrToken] + Flat(d)
  }

  function FlatConj(c: Conj): seq<Token> {
    match c
    case OnePrim(p) => FlatPrim(p)
    case AndAlso(p, c) => FlatPrim(p) + [AndToken] + FlatConj(c)
  }

  function FlatPrim(p: Prim): seq<Token> {
    FlatBase(p.b) + FlatCalls(p.calls)
  }

  function FlatBase(b: Base): seq<Token> {
    match b
    case Leaf(p) => [Atom(p)]
    case Unit => [Open, Close]
    case Paren(d) => [Open] + Flat(d) + [Close]
  }

  function FlatCalls(calls: Calls): seq<Token> {
    match calls
    case NoCall => []
    case CallEmpty(more) => [Open, Close] + FlatCalls(more)
    case CallWith(arg, more) => [Open] + Flat(arg) + [Close] + FlatCalls(more)
  }

  lemma PrimTokens(b: Base, calls: Calls, rest: seq<Token>)
    ensures FlatPrim(Prim(b, calls)) + rest == FlatBase(b) + (FlatCalls(calls) + rest)
  {
  }

  lemma EmptyCallTokens(more: Calls, rest: seq<Token>, ts: seq<Token>)
    requires |ts| >= 2 && ts[0] == Open && ts[1] == Close && FlatCalls(more) + rest == ts[2..]
    ensures FlatCalls(CallEmpty(more)) + rest == ts
  {
    assert [Open, Close] + (FlatCalls(more) + rest) == ts;
  }

  lemma CallTokens(arg: Disj, inner: seq<Token>, more: Calls, rest: seq<Token>, ts: seq<Token>)
    requires ts != [] && ts[0] == Open && Flat(arg) + inner == ts[1..] && inner != [] && inner[0] == Close
    requires FlatCalls(more) + rest == inner[1..]
    ensures FlatCalls(CallWith(arg, more)) + rest == ts
  {
    assert [Close] + (FlatCalls(more) + rest) == inner;
    assert [Open] + (Flat(arg) + inner) == ts;
  }

  // ---------------------------------------------------------------- the parser

  datatype Parsed<T> = Fail | Got(tree: T, rest: seq<Token>)

  predicate StartsWith(ts: seq<Token>, t: Token) { ts != [] && ts[0] == t }

  function ParseDisj(ts: seq<Token>): (r: Parsed<Disj>)
    ensures r.Got? ==> Flat(r.tree) + r.rest == ts && |r.rest| < |ts|
    decreases |ts|, 3
  {
    var c := ParseConj(ts);
    if c.Fail? then Fail
    else if StartsWith(c.rest, OrToken) then
      var d := ParseDisj(c.rest[1..]);
      if d.Fail? then Fail else Got(OrElse(c.tree, d.tree), d.rest)
    else Got(OneConj(c.tree), c.rest)
  }

  function ParseConj(ts: seq<Token>): (r: Parsed<Conj>)
    ensures r.Got? ==> FlatConj(r.tree) + r.rest == ts && |r.rest| < |ts|
    decreases |ts|, 2
  {
    var p := ParsePrim(ts);
    if p.Fail? then Fail
    else if StartsWith(p.rest, AndToken) then
      var c := ParseConj(p.rest[1..]);
      if c.Fail? then Fail else Got(AndAlso(p.tree, c.tree), c.rest)
    else Got(OnePrim(p.tree), p.rest)
  }

  function ParsePrim(ts: seq<Token>): (r: Parsed<Prim>)
    ensures r.Got? ==> FlatPrim(r.tree) + r.rest == ts && |r.rest| < |ts|
    decreases |ts|, 1
  {
    var b := ParseBase(ts);
    if b.Fail? then Fail
    else
      var calls := ParseCalls(b.rest);
      if calls.Fail? then Fail
      else
        PrimTokens(b.tree, calls.tree, calls.rest);
        Got(Prim(b.tree, calls.tree), calls.rest)
  }

  function ParseBase(ts: seq<Token>): (r: Parsed<Base>)
    ensures r.Got? ==> FlatBase(r.tree) + r.rest == ts && |r.rest| < |ts|
    decreases |ts|, 0
  {
    if ts == [] then Fail
    else if ts[0].Atom? then Got(Leaf(ts[0].p), ts[1..])
    else if ts[0] != Open then Fail
    else if StartsWith(ts[1..], Close) then Got(Unit, ts[2..])
    else
      var d := ParseDisj(ts[1..]);
      if d.Got? && StartsWith(d.rest, Close) then Got(Paren(d.tree), d.rest[1..]) else Fail
  }

  function ParseCalls(ts: seq<Token>): (r: Parsed<Calls>)
    ensures r.Got? ==> FlatCalls(r.tree) + r.rest == ts && |r.rest| <= |ts|
    decreases |ts|, 0
  {
    if !StartsWith(ts, Open) then Got(NoCall, ts)
    else if StartsWith(ts[1..], Close) then
      var more := ParseCalls(ts[2..]);
      if more.Fail? then Fail
      else
        EmptyCallTokens(more.tree, more.rest, ts);
        Got(CallEmpty(more.tree), more.rest)
    else
      var d := ParseDisj(ts[1..]);
      if d.Got? && StartsWith(d.rest, Close) then
        var more := ParseCalls(d.rest[1..]);
        if more.Fail? then Fail
        else
          CallTokens(d.tree, d.rest, more.tree, more.rest, ts);
          Got(CallWith(d.tree, more.tree), more.rest)
      else Fail
  }

  /** `compile(..., "eval")`: the whole text must be one expression. */
  function Parse(ts: seq<Token>): Option<Disj> {
    var r := ParseDisj(ts);
    if r.Got? && r.rest == [] then Some(r.tree) else None
  }

  // ---------------------------------------------------------------- every tree is found

  /** Nothing that would continue an operand, a conjunction, a disjunction. */
  predicate EndsPrim(rest: seq<Token>) { !StartsWith(rest, Open) }
  predicate EndsConj(rest: seq<Token>) { EndsPrim(rest) && !StartsWith(rest, AndToken) }
  predicate EndsDisj(rest: seq<Token>) { EndsConj(rest) && !StartsWith(rest, OrToken) }

  lemma {:induction false} ParseOfDisj(d: Disj, rest: seq<Token>)
    requires EndsDisj(rest)
    ensures ParseDisj(Flat(d) + rest) == Got(d, rest)
  {
    match d
    case OneConj(c) => ParseOfConj(c, rest);
    case OrElse(c, e) =>
      var tail := [OrToken] + (Flat(e) + rest);
      assert Flat(d) + rest == FlatConj(c) + tail;
      ParseOfConj(c, tail);
      assert tail[1..] == Flat(e) + rest;
      ParseOfDisj(e, rest);
  }

  lemma {:induction false} ParseOfConj(c: Conj, rest: seq<Token>)
    requires EndsConj(rest)
    ensures ParseConj(FlatConj(c) + rest) == Got(c, rest)
  {
    match c
    case OnePrim(p) => ParseOfPrim(p, rest);
    case AndAlso(p, e) =>
      var tail := [AndToken] + (FlatConj(e) + rest);
      assert FlatConj(c) + rest == FlatPrim(p) + tail;
      ParseOfPrim(p, tail);
      assert tail[1..] == FlatConj(e) + rest;
      ParseOfConj(e, rest);
  }

  lemma {:induction false} ParseOfPrim(p: Prim, rest: seq<Token>)
    requires EndsPrim(rest)
    ensures ParsePrim(FlatPrim(p) + rest) == Got(p, rest)
  {
    assert FlatPrim(p) + rest == FlatBase(p.b) + (FlatCalls(p.calls) + rest);
    ParseOfBase(p.b, FlatCalls(p.calls) + rest);
    ParseOfCalls(p.calls, rest);
  }

  /** A tree starts with an atom or an opening parenthesis. */
  lemma {:induction false} FirstToken(d: Disj)
    ensures Flat(d) != [] && (Flat(d)[0].Atom? || Flat(d)[0] == Open)
  {
    var c := d.c;
    assert FlatBase(c.p.b) != [];
    assert FlatPrim(c.p)[0] == FlatBase(c.p.b)[0];
    assert FlatConj(c)[0] == FlatPrim(c.p)[0];
    assert Flat(d)[0] == FlatConj(c)[0];
  }

  lemma {:induction false} ParseOfBase(b: Base, rest: seq<Token>)
    ensures ParseBase(FlatBase(b) + rest) == Got(b, rest)
  {
    var ts := FlatBase(b) + rest;
    match b
    case Leaf(p) => assert ts[1..] == rest;
    case Unit => assert ts[1..][1..] == rest; assert ts[2..] == rest;
    case Paren(d) =>
      FirstToken(d);
      assert ts[1..] == Flat(d) + ([Close] + rest);
      ParseOfDisj(d, [Close] + rest);
      assert ([Close] + rest)[1..] == rest;
  }

  lemma ParseOneCall(arg: Disj, tail: seq<Token>, more: Calls, rest: seq<Token>)
    requires ParseDisj(Flat(arg) + ([Close] + tail)) == Got(arg, [Close] + tail)
    requires ParseCalls(tail) == Got(more, rest)
    ensures ParseCalls([Open] + (Flat(arg) + ([Close] + tail))) == Got(CallWith(arg, more), rest)
  {
    var ts := [Open] + (Flat(arg) + ([Close] + tail));
    FirstToken(arg);
    assert StartsWith(ts, Open);
    assert ts[1..] == Flat(arg) + ([Close] + tail);
    assert ts[1..][0] == Flat(arg)[0];
    assert !StartsWith(ts[1..], Close);
    assert ([Close] + tail)[1..] == tail;
  }

  lemma ParseEmptyCall(tail: seq<Token>, more: Calls, rest: seq<Token>)
    requires ParseCalls(tail) == Got(more, rest)
    ensures ParseCalls([Open, Close] + tail) == Got(CallEmpty(more), rest)
  {
    var ts := [Open, Close] + tail;
    assert StartsWith(ts, Open);
    assert ts[1..][0] == Close;
    assert StartsWith(ts[1..], Close);
    assert ts[2..] == tail;
  }

  lemma {:induction false} ParseOfCalls(calls: Calls, rest: seq<Token>)
    requires EndsPrim(rest)
    ensures ParseCalls(FlatCalls(calls) + rest) == Got(calls, rest)
  {
    match calls
    case NoCall => assert FlatCalls(calls) + rest == rest;
    case CallEmpty(more) =>
      ParseOfCalls(more, rest);
      ParseEmptyCall(FlatCalls(more) + rest, more, rest);
      assert FlatCalls(calls) + rest == [Open, Close] + (FlatCalls(more) + rest);
    case CallWith(arg, more) =>
      var tail := FlatCalls(more) + rest;
      ParseOfCalls(more, rest);
      ParseOfDisj(arg, [Close] + tail);
      ParseOneCall(arg, tail, more, rest);
      assert FlatCalls(calls) + rest == [Open] + (Flat(arg) + ([Close] + tail));
  }

  /** The parser accepts exactly the token lists of trees, and each of them has one tree. */
  lemma ParseIsExact(ts: seq<Token>, d: Disj)
    ensures Parse(ts) == Some(d) <==> Flat(d) == ts
  {
    if Flat(d) == ts {
      ParseOfDisj(d, []);
      assert Flat(d) + [] == ts;
    }
    if Parse(ts) == Some(d) {
      assert Flat(d) + [] == ts;
    }
  }

  // ---------------------------------------------------------------- what is rejected

  function Depth(ts: seq<Token>): int {
    if ts == [] then 0
    else Depth(ts[..|ts| - 1]) + match ts[|ts| - 1] case Open => 1 case Close => -1 case _ => 0
  }

  lemma {:induction false} DepthConcat(a: seq<Token>, b: seq<Token>)
    ensures Depth(a + b) == Depth(a) + Depth(b)
  {
    if b == [] {
      assert a + b == a;
    } else {
      assert (a + b)[..|a + b| - 1] == a + b[..|b| - 1];
      DepthConcat(a, b[..|b| - 1]);
    }
  }

  /** Closed in the end and nowhere closed too often. */
  predicate Balanced(ts: seq<Token>) {
    Depth(ts) == 0 && forall i :: 0 <= i <= |ts| ==> Depth(ts[..i]) >= 0
  }

  lemma BalancedConcat(a: seq<Token>, b: seq<Token>)
    requires Balanced(a) && Balanced(b)
    ensures Balanced(a + b)
  {
    DepthConcat(a, b);
    forall i | 0 <= i <= |a + b|
      ensures Depth((a + b)[..i]) >= 0
    {
      if i <= |a| {
        assert (a + b)[..i] == a[..i];
      } else {
        assert (a + b)[..i] == a + b[..i - |a|];
        DepthConcat(a, b[..i - |a|]);
      }
    }
  }

  lemma BalancedOne(t: Token)
    requires t != Open && t != Close
    ensures Balanced([t])
  {
    assert [t][..0] == [] && [t][..1] == [t];
  }

  lemma BalancedGroup(ts: seq<Token>)
    requires Balanced(ts)
    ensures Balanced([Open] + ts + [Close])
  {
    var g := [Open] + ts + [Close];
    assert Depth([Open]) == 1 && Depth([Close]) == -1 by {
      assert [Open][..0] == [] && [Close][..0] == [];
    }
    DepthConcat([Open], ts);
    DepthConcat([Open] + ts, [Close]);
    forall i | 0 <= i <= |g|
      ensures Depth(g[..i]) >= 0
    {
      if 0 < i <= |ts| + 1 {
        assert g[..i] == [Open] + ts[..i - 1];
        DepthConcat([Open], ts[..i - 1]);
      } else if i > 0 {
        assert g[..i] == g;
      }
    }
  }

  lemma {:induction false} TreesAreBalanced(d: Disj)
    ensures Balanced(Flat(d))
  {
    ConjIsBalanced(d.c);
    if d.OrElse? {
      TreesAreBalanced(d.d);
      BalancedOne(OrToken);
      BalancedConcat(FlatConj(d.c), [OrToken]);
      BalancedConcat(FlatConj(d.c) + [OrToken], Flat(d.d));
    }
  }

  lemma {:induction false} ConjIsBalanced(c: Conj)
    ensures Balanced(FlatConj(c))
  {
    BaseIsBalanced(c.p.b);
    CallsAreBalanced(c.p.calls);
    BalancedConcat(FlatBase(c.p.b), FlatCalls(c.p.calls));
    if c.AndAlso? {
      ConjIsBalanced(c.c);
      BalancedOne(AndToken);
      BalancedConcat(FlatPrim(c.p), [AndToken]);
      BalancedConcat(FlatPrim(c.p) + [AndToken], FlatConj(c.c));
    }
  }

  lemma {:induction false} BaseIsBalanced(b: Base)
    ensures Balanced(FlatBase(b))
  {
    match b
    case Leaf(p) => BalancedOne(Atom(p));
    case Unit =>
      BalancedGroup([]);
      assert [Open] + [] + [Close] == [Open, Close];
    case Paren(d) =>
      TreesAreBalanced(d);
      BalancedGroup(Flat(d));
  }

  lemma {:induction false} CallsAreBalanced(calls: Calls)
    ensures Balanced(FlatCalls(calls))
  {
    match calls
    case NoCall =>
    case CallEmpty(more) =>
      BalancedGroup([]);
      assert [Open] + [] + [Close] == [Open, Close];
      CallsAreBalanced(more);
      BalancedConcat([Open, Close], FlatCalls(more));
    case CallWith(arg, more) =>
      TreesAreBalanced(arg);
      BalancedGroup(Flat(arg));
      CallsAreBalanced(more);
      BalancedConcat([Open] + Flat(arg) + [Close], FlatCalls(more));
  }

  /** An operator stands between any two operands, and no operator lacks one. */
  predicate Fits(a: Token, b: Token) {
    match b
    case Atom(_) => a == Open || a == AndToken || a == OrToken
    case Open => true
    case Close => a.Atom? || a == Close || a == Open
    case AndToken => a.Atom? || a == Close
    case OrToken => a.Atom? || a == Close
  }

  predicate Fitting(ts: seq<Token>) { forall i :: 0 < i < |ts| ==> Fits(ts[i - 1], ts[i]) }

  /** A fitting list that starts and ends like an operand. */
  predicate Operand(ts: seq<Token>) {
    ts != [] && Fitting(ts) && (ts[0].Atom? || ts[0] == Open) && (ts[|ts| - 1].Atom? || ts[|ts| - 1] == Close)
  }

  lemma FittingConcat(a: seq<Token>, b: seq<Token>)
    requires Fitting(a) && Fitting(b) && (a != [] && b != [] ==> Fits(a[|a| - 1], b[0]))
    ensures Fitting(a + b)
  {
  }

  lemma Joined(a: seq<Token>, op: Token, b: seq<Token>)
    requires Operand(a) && Operand(b) && (op == AndToken || op == OrToken)
    ensures Operand(a + [op] + b)
  {
    FittingConcat(a, [op]);
    FittingConcat(a + [op], b);
  }

  lemma {:induction false} TreesFit(d: Disj)
    ensures Operand(Flat(d))
  {
    ConjFits(d.c);
    if d.OrElse? {
      TreesFit(d.d);
      Joined(FlatConj(d.c), OrToken, Flat(d.d));
    }
  }

  lemma {:induction false} ConjFits(c: Conj)
    ensures Operand(FlatConj(c))
  {
    BaseFits(c.p.b);
    CallsFit(c.p.calls);
    FittingConcat(FlatBase(c.p.b), FlatCalls(c.p.calls));
    if c.AndAlso? {
      ConjFits(c.c);
      Joined(FlatPrim(c.p), AndToken, FlatConj(c.c));
    }
  }

  lemma Grouped(ts: seq<Token>)
    requires Operand(ts)
    ensures Operand([Open] + ts + [Close])
  {
    FittingConcat([Open], ts);
    FittingConcat([Open] + ts, [Close]);
  }

  lemma {:induction false} BaseFits(b: Base)
    ensures Operand(FlatBase(b))
  {
    if b.Paren? {
      TreesFit(b.d);
      Grouped(Flat(b.d));
    }
  }

  lemma {:induction false} CallsFit(calls: Calls)
    ensures calls == NoCall || (Operand(FlatCalls(calls)) && FlatCalls(calls)[0] == Open)
  {
    match calls
    case NoCall =>
    case CallEmpty(more) =>
      CallsFit(more);
      FittingConcat([Open, Close], FlatCalls(more));
    case CallWith(arg, more) =>
      TreesFit(arg);
      Grouped(Flat(arg));
      CallsFit(more);
      FittingConcat([Open] + Flat(arg) + [Close], FlatCalls(more));
  }

  /** Unbalanced parentheses, operands side by side and operators without an operand are all rejected. */
  lemma MalformedIsRejected(ts: seq<Token>)
    requires !Balanced(ts) || !Operand(ts)
    ensures Parse(ts) == None
  {
    var r := Parse(ts);
    if r.Some? {
      ParseIsExact(ts, r.value);
      TreesAreBalanced(r.value);
      TreesFit(r.value);
    }
  }

  // ---------------------------------------------------------------- evaluation

  /** A group behind an operand is a call, and neither a bool nor a tuple can be called. */
  datatype Outcome = Value(holds: bool) | TypeError

  function Eval(d: Disj, tags: Tags): Outcome {
    match d
    case OneConj(c) => EvalConj(c, tags)
    case OrElse(c, d) => var left := EvalConj(c, tags); if left == Value(false) then Eval(d, tags) else left
  }

  function EvalConj(c: Conj, tags: Tags): Outcome {
    match c
    case OnePrim(p) => EvalPrim(p, tags)
    case AndAlso(p, c) => var left := EvalPrim(p, tags); if left == Value(true) then EvalConj(c, tags) else left
  }

  function EvalPrim(p: Prim, tags: Tags): Outcome {
    if p.calls != NoCall then TypeError
    else
      match p.b
      case Leaf(q) => Value(Holds(q, tags))
      case Unit => Value(false)
      case Paren(d) => Eval(d, tags)
  }

  /** A parsed condition; an empty one is always true. */
  datatype Condition = Always | When(tree: Disj)

  function Evaluate(c: Condition, tags: Tags): Outcome {
    match c case Always => Value(true) case When(tree) => Eval(tree, tags)
  }

  /** An unknown word, or a text the grammar does not accept, has no condition. */
  function ConditionOf(pieces: seq<Piece>): Option<Condition> {
    if pieces == [] then Some(Always)
    else if !Known(pieces) then None
    else match Parse(TokensOf(pieces)) case None => None case Some(tree) => Some(When(tree))
  }

  /** `parse_tag_condition`; `None` is the ValueError. */
  method ParseTagCondition(pieces: seq<Piece>) returns (c: Option<Condition>)
    ensures c == ConditionOf(pieces)
  {
    if pieces == [] {
      return Some(Always);
    }
    var tokens: seq<Token> := [];
    var i := 0;
    while i < |pieces|
      invariant 0 <= i <= |pieces| && |tokens| == i
      invariant forall k :: 0 <= k < i ==> TokenOf(pieces[k]) == Some(tokens[k])
    {
      var t := TokenOf(pieces[i]);
      if t.None? {
        return None;
      }
      tokens := tokens + [t.value];
      i := i + 1;
    }
    assert tokens == TokensOf(pieces);
    var tree := Parse(tokens);
    c := if tree.None? then None else Some(When(tree.value));
  }

  // ---------------------------------------------------------------- meaning

  /** A condition as its author means it. */
  datatype Meaning = Is(p: TagPredicate) | Both(l: Meaning, r: Meaning) | Either(l: Meaning, r: Meaning)

  predicate True(m: Meaning, tags: Tags) {
    match m
    case Is(p) => Holds(p, tags)
    case Both(l, r) => True(l, tags) && True(r, tags)
    case Either(l, r) => True(l, tags) || True(r, tags)
  }

  /** Printed with the fewest parentheses: only around OR below AND. */
  function Print(m: Meaning): seq<Token>
    decreases m, 0
  {
    match m
    case Is(p) => [Atom(p)]
    case Both(l, r) => PrintOperand(l) + [AndToken] + PrintOperand(r)
    case Either(l, r) => Print(l) + [OrToken] + Print(r)
  }

  function PrintOperand(m: Meaning): seq<Token>
    decreases m, 1
  {
    if m.Either? then [Open] + Print(m) + [Close] else Print(m)
  }

  /** The tree of a printed condition. */
  function DisjOf(m: Meaning): Disj
    decreases m, 1
  {
    if m.Either? then AppendDisj(DisjOf(m.l), DisjOf(m.r)) else OneConj(ConjOf(m))
  }

  function ConjOf(m: Meaning): Conj
    decreases m, 0
  {
    match m
    case Is(p) => OnePrim(Prim(Leaf(p), NoCall))
    case Both(l, r) => AppendConj(ConjOf(l), ConjOf(r))
    case Either(l, r) => OnePrim(Prim(Paren(AppendDisj(DisjOf(l), DisjOf(r))), NoCall))
  }

  function AppendDisj(a: Disj, b: Disj): Disj {
    match a case OneConj(c) => OrElse(c, b) case OrElse(c, d) => OrElse(c, AppendDisj(d, b))
  }

  function AppendConj(a: Conj, b: Conj): Conj {
    match a case OnePrim(p) => AndAlso(p, b) case AndAlso(p, c) => AndAlso(p, AppendConj(c, b))
  }

  lemma {:induction false} AppendDisjLaws(a: Disj, b: Disj, tags: Tags)
    ensures Flat(AppendDisj(a, b)) == Flat(a) + [OrToken] + Flat(b)
    ensures Eval(AppendDisj(a, b), tags) == if Eval(a, tags) == Value(false) then Eval(b, tags) else Eval(a, tags)
  {
    if a.OrElse? {
      AppendDisjLaws(a.d, b, tags);
      assert FlatConj(a.c) + [OrToken] + (Flat(a.d) + [OrToken] + Flat(b)) == Flat(a) + [OrToken] + Flat(b);
    }
  }

  lemma {:induction false} AppendConjLaws(a: Conj, b: Conj, tags: Tags)
    ensures FlatConj(AppendConj(a, b)) == FlatConj(a) + [AndToken] + FlatConj(b)
    ensures EvalConj(AppendConj(a, b), tags) == if EvalConj(a, tags) == Value(true) then EvalConj(b, tags)
            else EvalConj(a, tags)
  {
    if a.AndAlso? {
      AppendConjLaws(a.c, b, tags);
      assert FlatPrim(a.p) + [AndToken] + (FlatConj(a.c) + [AndToken] + FlatConj(b)) ==
               FlatConj(a) + [AndToken] + FlatConj(b);
    }
  }

  /** A single operand. */
  lemma OneOperand(b: Base, tags: Tags)
    ensures var c := OnePrim(Prim(b, NoCall));
            && FlatConj(c) == FlatBase(b) && Flat(OneConj(c)) == FlatBase(b)
            && EvalConj(c, tags) == EvalPrim(Prim(b, NoCall), tags)
  {
    assert FlatCalls(NoCall) == [];
    assert FlatPrim(Prim(b, NoCall)) == FlatBase(b);
  }

  lemma {:induction false} ConjOfPrinted(m: Meaning, tags: Tags)
    ensures FlatConj(ConjOf(m)) == PrintOperand(m) && EvalConj(ConjOf(m), tags) == Value(True(m, tags))
    decreases m, 0
  {
    match m
    case Is(p) => OneOperand(Leaf(p), tags);
    case Both(l, r) =>
      ConjOfPrinted(l, tags);
      ConjOfPrinted(r, tags);
      AppendConjLaws(ConjOf(l), ConjOf(r), tags);
    case Either(l, r) =>
      EitherOfPrinted(l, r, tags);
      OneOperand(Paren(AppendDisj(DisjOf(l), DisjOf(r))), tags);
  }

  lemma {:induction false} EitherOfPrinted(l: Meaning, r: Meaning, tags: Tags)
    ensures var d := AppendDisj(DisjOf(l), DisjOf(r));
            Flat(d) == Print(Either(l, r)) && Eval(d, tags) == Value(True(l, tags) || True(r, tags))
    decreases Either(l, r), -1
  {
    TreeOfPrinted(l, tags);
    TreeOfPrinted(r, tags);
    AppendDisjLaws(DisjOf(l), DisjOf(r), tags);
  }

  lemma {:induction false} TreeOfPrinted(m: Meaning, tags: Tags)
    ensures Flat(DisjOf(m)) == Print(m) && Eval(DisjOf(m), tags) == Value(True(m, tags))
    decreases m, 1
  {
    if m.Either? {
      EitherOfPrinted(m.l, m.r, tags);
    } else {
      ConjOfPrinted(m, tags);
    }
  }

  /**
   AND binds tighter than OR: a condition printed with the fewest parentheses is parsed, and means what it did, on all
   tags.
   */
  lemma PrintThenParse(m: Meaning, tags: Tags)
    ensures Parse(Print(m)).Some?
    ensures Eval(Parse(Print(m)).value, tags) == Value(True(m, tags))
  {
    TreeOfPrinted(m, tags);
    ParseIsExact(Print(m), DisjOf(m));
  }

  // ---------------------------------------------------------------- monotone conditions

  /** No group stands directly behind an operand. */
  predicate CallFree(d: Disj) {
    CallFreeConj(d.c) && (d.OrElse? ==> CallFree(d.d))
  }

  predicate CallFreeConj(c: Conj) {
    c.p.calls == NoCall && (c.p.b.Paren? ==> CallFree(c.p.b.d)) && (c.AndAlso? ==> CallFreeConj(c.c))
  }

  lemma {:induction false} CallFreeHasValue(d: Disj, tags: Tags)
    requires CallFree(d)
    ensures Eval(d, tags).Value?
  {
    CallFreeConjHasValue(d.c, tags);
    if d.OrElse? {
      CallFreeHasValue(d.d, tags);
    }
  }

  lemma {:induction false} CallFreeConjHasValue(c: Conj, tags: Tags)
    requires CallFreeConj(c)
    ensures EvalConj(c, tags).Value?
  {
    if c.p.b.Paren? {
      CallFreeHasValue(c.p.b.d, tags);
    }
    if c.AndAlso? {
      CallFreeConjHasValue(c.c, tags);
    }
  }

  /** More tags, and none changed. */
  predicate Extends(tags: Tags, more: Tags) {
    forall k :: k in tags ==> k in more && more[k] == tags[k]
  }

  /** There is no negation: what held keeps holding when tags are added, unless evaluation now reaches a call. */
  lemma {:induction false} EvalIsMonotone(d: Disj, tags: Tags, more: Tags)
    requires Extends(tags, more) && Eval(d, tags) == Value(true)
    ensures Eval(d, more) != Value(false)
  {
    if EvalConj(d.c, tags) == Value(true) {
      ConjIsMonotone(d.c, tags, more);
    } else {
      EvalIsMonotone(d.d, tags, more);
    }
  }

  lemma {:induction false} ConjIsMonotone(c: Conj, tags: Tags, more: Tags)
    requires Extends(tags, more) && EvalConj(c, tags) == Value(true)
    ensures EvalConj(c, more) != Value(false)
  {
    if c.p.b.Paren? && c.p.calls == NoCall {
      EvalIsMonotone(c.p.b.d, tags, more);
    }
    if c.AndAlso? {
      ConjIsMonotone(c.c, tags, more);
    }
  }

  lemma ConditionIsMonotone(c: Condition, tags: Tags, more: Tags)
    requires Extends(tags, more) && Evaluate(c, tags) == Value(true)
    ensures Evaluate(c, more) != Value(false)
    ensures (c.When? ==> CallFree(c.tree)) ==> Evaluate(c, more) == Value(true)
  {
    if c.When? {
      EvalIsMonotone(c.tree, tags, more);
      if CallFree(c.tree) {
        CallFreeHasValue(c.tree, more);
      }
    }
  }
}
