/**
 app/services/fine_grained_policy.py: normalising, validating and translating row predicates. The
 regular expressions are modelled as the deterministic scans they amount to, over ASCII text.
 */
module RowPolicy {
  import opened Optional
  import opened Text
  import L = Lexemes

  datatype Result<T> = Ok(value: T) | ValueError

  // ---------------------------------------------------------------- scanning

  /** The rest of the text after this word (any case), if it starts with it. */
  function Eat(s: string, word: string): Option<string> {
    if |word| <= |s| && Lower(s[..|word|]) == word then Some(s[|word|..]) else None
  }

  /** The rest after at least one white space character. */
  function EatSpace(s: string): Option<string> {
    if s != "" && IsSpace(s[0]) then Some(StripLeft(s)) else None
  }

  /** The rest after a word and at least one white space character. */
  function EatWord(s: string, word: string): Option<string> {
    var r := Eat(s, word);
    if r.None? then None else EatSpace(r.value)
  }

  /** The rest after a word, optional white space and an opening parenthesis. */
  function EatCall(s: string, word: string): Option<string> {
    var r := Eat(s, word);
    if r.None? then None else Eat(StripLeft(r.value), "(")
  }

  /** Everything after the first occurrence of c. */
  function After(s: string, c: char): Option<string> {
    if s == "" then None
    else if s[0] == c then Some(s[1..])
    else After(s[1..], c)
  }

  /** The text before this word (any case), if it ends with it. */
  function EatBack(s: string, word: string): Option<string> {
    if |word| <= |s| && Lower(s[|s| - |word|..]) == word then Some(s[..|s| - |word|]) else None
  }

  function EatSpaceBack(s: string): Option<string> {
    if s != "" && IsSpace(s[|s| - 1]) then Some(StripRight(s)) else None
  }

  function EatWordBack(s: string, word: string): Option<string> {
    var r := EatBack(s, word);
    if r.None? then None else EatSpaceBack(r.value)
  }

  // ---------------------------------------------------------------- the current_user wrapper

  /** What follows `CASE WHEN current_user() IN (...) THEN (`. */
  function WrapperBody(s: string): Option<string> {
    var a := EatWord(StripLeft(s), "case");
    if a.None? then None else
    var b := EatWord(a.value, "when");
    if b.None? then None else
    var c := EatCall(b.value, "current_user");
    if c.None? then None else
    var d := Eat(StripLeft(c.value), ")");
    if d.None? then None else
    var e := EatSpace(d.value);
    if e.None? then None else
    var f := EatCall(e.value, "in");
    if f.None? then None else
    var g := After(f.value, ')');
    if g.None? then None else
    var h := EatSpace(g.value);
    if h.None? then None else EatCall(h.value, "then")
  }

  /** What precedes `) ELSE true END` at the end of the text. */
  function WrapperInner(s: string): Option<string> {
    var a := EatWordBack(StripRight(s), "end");
    if a.None? then None else
    var b := EatWordBack(a.value, "true");
    if b.None? then None else
    var c := EatWordBack(b.value, "else");
    if c.None? then None else
    var d := EatBack(c.value, ")");
    if d.None? || d.value == "" then None else d
  }

  /** `_CURRENT_USER_WRAPPER`: the wrapped predicate, if the text is a wrapper. */
  function Unwrap(s: string): Option<string> {
    var body := WrapperBody(s);
    if body.None? then None else WrapperInner(body.value)
  }

  /** `_remove_databricks_current_user_wrapper` (the note is left out). */
  function RemoveCurrentUserWrapper(s: string): string {
    var inner := Unwrap(s);
    if inner.Some? then Strip(inner.value) else s
  }

  // ---------------------------------------------------------------- the group predicate

  /** `_GROUP_MEMBER_PREFIX`: whether the text starts with a group membership test and AND. */
  predicate HasGroupPrefix(s: string) {
    var t := StripLeft(s);
    var a := EatCall(t, "is_account_group_member");
    var b := if a.Some? then a else EatCall(t, "is_group_member");
    b.Some? && (
      var c := Eat(StripLeft(b.value), "'");
      c.Some? && c.value != "" && c.value[0] != '\'' && (
        var d := After(c.value, '\'');
        d.Some? && (
          var e := Eat(StripLeft(d.value), ")");
          e.Some? && (
            var f := EatSpace(e.value);
            f.Some? && (
              var g := EatWord(f.value, "and");
              g.Some? && g.value != "")))))
  }

  // ---------------------------------------------------------------- normalising

  /** `s.split()` */
  function Fields(s: string): seq<string>
    decreases |s|
  {
    var t := StripLeft(s);
    if t == "" then []
    else
      var n := FieldLength(t);
      StripLeftShortens(s);
      [t[..n]] + Fields(t[n..])
  }

  function FieldLength(s: string): (n: nat)
    ensures n <= |s|
    ensures s != "" && !IsSpace(s[0]) ==> n > 0
    ensures forall i :: 0 <= i < n ==> !IsSpace(s[i])
    ensures n < |s| ==> IsSpace(s[n])
  {
    if s == "" || IsSpace(s[0]) then 0 else 1 + FieldLength(s[1..])
  }

  lemma {:induction false} StripLeftShortens(s: string)
    ensures |StripLeft(s)| <= |s|
    ensures StripLeft(s) != "" ==> !IsSpace(StripLeft(s)[0])
  {
    if s != "" && IsSpace(s[0]) {
      StripLeftShortens(s[1..]);
    }
  }

  /** `" ".join(s.split())` */
  function Collapse(s: string): string {
    Join(Fields(s), " ")
  }

  /**
   What follows the `where` of `_SELECT_WHERE` in the text after `from` and its white space: the first
   `where` between white space, with at least one character before that white space.
   */
  function AfterWhere(s: string, seen: nat): Option<string> {
    if s == "" then None
    else if seen > 0 && IsSpace(s[0]) then
      var r := EatWord(StripLeft(s), "where");
      if r.Some? && r.value != "" then r else AfterWhere(s[1..], seen + 1)
    else AfterWhere(s[1..], seen + 1)
  }

  /** `_SELECT_WHERE` on stripped text. */
  function SelectWhere(s: string): Option<string> {
    var a := EatWord(s, "select");
    if a.None? then None else
    var b := EatWord(a.value, "*");
    if b.None? then None else
    var c := Eat(b.value, "from");
    if c.None? then None else
    var d := EatSpace(c.value);
    if d.None? then None else
    var r := AfterWhere(d.value, 0);
    if r.Some? then r
    else if |c.value| - |d.value| >= 3 then EatWord(d.value, "where")
    else None
  }

  function NormalizeRowPredicate(query: string): string {
    var raw := Strip(query);
    var m := SelectWhere(raw);
    Collapse(if m.Some? then m.value else raw)
  }

  // ---------------------------------------------------------------- validating

  const BLOCKED_KEYWORDS: seq<string> :=
    ["select", "insert", "update", "delete", "merge", "drop", "alter", "create", "exec", "execute", "grant", "revoke"]

  predicate IsIdentifier(s: string) {
    s != "" && L.AllWordChars(s) && !('0' <= s[0] <= '9')
  }

  predicate NoKeyword(ls: seq<L.Lexeme>) {
    forall x :: x in ls && x.Word? ==> Lower(x.text) !in BLOCKED_KEYWORDS
  }

  /** The lexemes go on, after white space, with an opening parenthesis. */
  predicate OpensCall(ls: seq<L.Lexeme>) {
    ls != [] && ls[0].Mark? && (ls[0].c == '(' || (IsSpace(ls[0].c) && OpensCall(ls[1..])))
  }

  /** No identifier other than `in` is followed by an opening parenthesis. */
  predicate NoCall(ls: seq<L.Lexeme>) {
    ls == [] || (NoCall(ls[1..]) &&
                 !(ls[0].Word? && IsIdentifier(ls[0].text) && Lower(ls[0].text) != "in" && OpensCall(ls[1..])))
  }

  predicate AllowedChar(c: char) {
    L.IsWordChar(c) || IsSpace(c) || c in "'\"=<>!,().-"
  }

  predicate BlockedPair(a: char, b: char) {
    (a == '-' && b == '-') || (a == '/' && b == '*') || (a == '*' && b == '/')
  }

  /** `_validate_safe_row_predicate` does not raise. */
  predicate Valid(expression: string) {
    var raw := Strip(expression);
    && raw != ""
    && ';' !in raw
    && (forall i :: 0 < i < |raw| ==> !BlockedPair(raw[i - 1], raw[i]))
    && NoKeyword(L.Lex(raw))
    && NoCall(L.Lex(raw))
    && (forall c :: c in raw ==> AllowedChar(c))
  }

  // ---------------------------------------------------------------- parameters and columns

  /** `re.sub(rf"\b{word}\b", by, s)` for an identifier. */
  function ReplaceWord(s: string, word: string, target: string): string {
    L.Text(ReplaceLexeme(L.Lex(s), word, target))
  }

  function ReplaceLexeme(ls: seq<L.Lexeme>, word: string, target: string): (r: seq<L.Lexeme>)
    ensures |r| == |ls|
  {
    seq(|ls|, i requires 0 <= i < |ls| => if ls[i] == L.Word(word) then L.Word(target) else ls[i])
  }

  /** `re.search(rf"\b{word}\b", s)` for an identifier. */
  predicate Occurs(s: string, word: string) {
    L.Word(word) in L.Lex(s)
  }

  /** `_map_function_params`: one parameter after the other, on the text mapped so far. */
  method MapFunctionParams(expression: string, params: seq<string>, columns: seq<string>) returns (r: Result<string>)
    ensures r == MappedParams(expression, params, columns)
  {
    if |params| != |columns| {
      return Ok(expression);
    }
    var mapped := expression;
    var i := 0;
    while i < |params|
      invariant 0 <= i <= |params|
      invariant MappedFrom(expression, params, columns, 0) == MappedFrom(mapped, params, columns, i)
    {
      var param, column := params[i], columns[i];
      i := i + 1;
      if param == "" || column == "" || param == column {
        continue;
      }
      if !IsIdentifier(param) || !IsIdentifier(column) {
        return ValueError;
      }
      mapped := ReplaceWord(mapped, param, column);
    }
    r := Ok(mapped);
  }

  function MappedParams(expression: string, params: seq<string>, columns: seq<string>): Result<string> {
    if |params| != |columns| then Ok(expression) else MappedFrom(expression, params, columns, 0)
  }

  /** The mapping from parameter i on. */
  function MappedFrom(mapped: string, params: seq<string>, columns: seq<string>, i: nat): Result<string>
    requires |params| == |columns| && i <= |params|
    decreases |params| - i
  {
    if i == |params| then Ok(mapped)
    else if params[i] == "" || columns[i] == "" || params[i] ==
      columns[i] then MappedFrom(mapped, params, columns, i + 1)
    else if !IsIdentifier(params[i]) || !IsIdentifier(columns[i]) then ValueError
    else MappedFrom(ReplaceWord(mapped, params[i], columns[i]), params, columns, i + 1)
  }

  /** `referenced_columns`: the table columns that occur in the predicate, in table order. */
  method ReferencedColumns(expression: string, tableColumns: seq<string>) returns (r: Result<seq<string>>)
    ensures r == Referenced(expression, tableColumns)
  {
    var raw := NormalizeRowPredicate(expression);
    if !Valid(raw) {
      return ValueError;
    }
    var referenced: seq<string> := [];
    var i := 0;
    while i < |tableColumns|
      invariant 0 <= i <= |tableColumns|
      invariant referenced == Occurring(raw, tableColumns[..i])
      invariant BadColumn(tableColumns) <==> BadColumn(tableColumns[i..])
    {
      assert tableColumns[..i + 1][..i] == tableColumns[..i];
      assert tableColumns[i..][0] == tableColumns[i] && tableColumns[i..][1..] == tableColumns[i + 1..];
      var name := Strip(tableColumns[i]);
      if name != "" {
        if !IsIdentifier(name) {
          return ValueError;
        }
        if Occurs(raw, name) {
          referenced := referenced + [name];
        }
      }
      i := i + 1;
    }
    assert tableColumns[..i] == tableColumns;
    r := Ok(referenced);
  }

  /** Some column name is not an identifier. */
  predicate BadColumn(columns: seq<string>) {
    columns != [] && ((Strip(columns[0]) != "" && !IsIdentifier(Strip(columns[0]))) || BadColumn(columns[1..]))
  }

  function Occurring(raw: string, columns: seq<string>): seq<string> {
    if columns == [] then []
    else
      var name := Strip(columns[|columns| - 1]);
      Occurring(raw, columns[..|columns| - 1]) + if name != "" && Occurs(raw, name) then [name] else []
  }

  function Referenced(expression: string, tableColumns: seq<string>): Result<seq<string>> {
    var raw := NormalizeRowPredicate(expression);
    if !Valid(raw) || BadColumn(tableColumns) then ValueError else Ok(Occurring(raw, tableColumns))
  }

  // ---------------------------------------------------------------- translation and keys

  /** A three-part table name, or a two-part one in the default catalog. */
  function TableParts(scope: string, defaultCatalog: string): Option<(string, string, string)> {
    if "table:" <= scope then
      var parts := NonEmpty(Split(scope[6..], '.'));
      if |parts| >= 3 then Some((parts[0], parts[1], parts[2]))
      else if |parts| == 2 && defaultCatalog != "" then Some((defaultCatalog, parts[0], parts[1]))
      else None
    else None
  }

  datatype FunctionInfo = FunctionInfo(isBoolean: bool, definition: string, params: seq<string>)

  datatype Translation = Translation(tablePath: string, query: string)

  function SelectText(schema: string, table: string, expression: string): string {
    "select " + ("* " + ("from " + (schema + "." + table + (" where " + expression))))
  }

  /** `build_fabric_row_constraint` with the production setting: a group test has no translation. */
  function BuildFabricRowConstraint(scope: string, defaultCatalog: string, f: FunctionInfo,
                                    inputColumns: seq<string>): Result<Translation> {
    var t := TableParts(scope, defaultCatalog);
    if t.None? || !IsIdentifier(t.value.1) || !IsIdentifier(t.value.2) then ValueError
    else if !f.isBoolean || Strip(f.definition) == "" then ValueError
    else
      var mapped := MappedParams(Strip(f.definition), f.params, inputColumns);
      if mapped.ValueError? then ValueError
      else
        var expression := RemoveCurrentUserWrapper(mapped.value);
        if HasGroupPrefix(expression) || !Valid(expression) then ValueError
        else Ok(Translation("/Tables/" + t.value.1 + "/" + t.value.2, SelectText(t.value.1, t.value.2, expression)))
  }

  /** What the canonical hash of a row filter is taken of. */
  datatype RowFilterKey = RowFilterKey(scope: string, condition: string)

  function CanonicalRowFilterKey(scope: string, query: string): RowFilterKey {
    RowFilterKey(scope, NormalizeRowPredicate(query))
  }
}
