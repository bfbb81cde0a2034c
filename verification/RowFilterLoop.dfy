/**
 The loop a Fabric row predicate makes: emitted as a Unity Catalog row filter (pair_apply.py), read
 back and translated to Fabric again (fine_grained_policy.py), it must get the key it started with.
 */
module RowFilterLoop {
  import opened Optional
  import opened Text
  import L = Lexemes
  import opened RowPolicy

  // ---------------------------------------------------------------- emission

  /** `value.replace("'", "''")` */
  function Doubled(v: string): string {
    if v == "" then "" else (if v[0] == '\'' then "''" else [v[0]]) + Doubled(v[1..])
  }

  function SqlString(v: string): string { "'" + Doubled(v) + "'" }

  function Quoted(principals: seq<string>): seq<string> {
    seq(|principals|, i requires 0 <= i < |principals| => SqlString(principals[i]))
  }

  function MemberList(principals: seq<string>): string {
    Join(Quoted(principals), ", ")
  }

  /** The text from THEN on. */
  function ThenText(condition: string): string {
    "THEN (" + (condition + ") ELSE true END")
  }

  /** The text from IN on. */
  function InText(members: string, condition: string): string {
    "IN (" + (members + (") " + ThenText(condition)))
  }

  function WrapText(members: string, condition: string): string {
    "CASE " + ("WHEN " + ("current_user() " + InText(members, condition)))
  }

  /** `_member_scoped_row_expression`, for the principals the members resolve to. */
  function MemberScoped(condition: string, principals: seq<string>): string {
    if principals == [] then condition else WrapText(MemberList(principals), condition)
  }

  datatype Column = Column(name: string, ucType: string)

  /** A row filter on the Unity Catalog side: a Boolean function and the columns the table passes to it. */
  datatype UcRowFilter = UcRowFilter(table: string, params: seq<Column>, body: string, on: seq<string>)

  function TypeOf(columns: seq<Column>, name: string): Option<string> {
    if columns == [] then None
    else if columns[|columns| - 1].name == name then Some(columns[|columns| - 1].ucType)
    else TypeOf(columns[..|columns| - 1], name)
  }

  /** Column names in table order, each once. */
  function Names(columns: seq<Column>): seq<string> {
    if columns == [] then []
    else
      var rest, name := Names(columns[..|columns| - 1]), columns[|columns| - 1].name;
      if name in rest then rest else rest + [name]
  }

  predicate SafeType(t: string) {
    Strip(t) != "" && forall c :: c in t ==> L.IsWordChar(c) || IsSpace(c) || c in "(),"
  }

  /** `_fabric_row_filter_uc_sql` */
  function FabricRowFilter(scope: string, catalog: string, query: string, principals: seq<string>,
                           columns: seq<Column>): Result<UcRowFilter> {
    var t := TableParts(scope, catalog);
    if t.None? || !IsIdentifier(t.value.0) || !IsIdentifier(t.value.1) || !IsIdentifier(t.value.2) then ValueError
    else
      var condition := NormalizeRowPredicate(query);
      var input := Referenced(condition, Names(columns));
      if condition == "" || input.ValueError? || input.value == [] then ValueError
      else if exists c :: c in input.value && (var ty := TypeOf(columns,
                                                                c); ty.None? || !SafeType(ty.value)) then ValueError
      else
        var params := seq(|input.value|, i requires 0 <= i < |input.value| =>
                            Column(input.value[i], TypeOf(columns, input.value[i]).OrElse("")));
        Ok(UcRowFilter(t.value.0 + "." + t.value.1 + "."
                         + t.value.2, params, MemberScoped(condition, principals), input.value))
  }

  /** Reading the filter back through Unity Catalog's description of its function. */
  function ReadBack(f: UcRowFilter, scope: string, catalog: string): Result<Translation> {
    BuildFabricRowConstraint(scope, catalog, FunctionInfo(true, f.body, ParamNames(f)), f.on)
  }

  function ParamNames(f: UcRowFilter): seq<string> {
    seq(|f.params|, i requires 0 <= i < |f.params| => f.params[i].name)
  }

  // ---------------------------------------------------------------- calls in lexed text

  lemma LexWholeWord(a: string, b: string)
    requires a != "" && L.WordLength(a) == |a| && (b == "" || !(L.IsWordChar(a[|a| - 1]) && L.IsWordChar(b[0])))
    requires L.IsWordChar(a[0])
    ensures L.Lex(a + b) == L.Lex(a) + L.Lex(b)
  {
    assert a[..|a|] == a;
    L.LexWord(a, b);
    L.LexWord(a, "");
    assert a + "" == a;
    assert L.Lex(a) == [L.Word(a)];
  }

  lemma LexFirstWord(a: string, b: string, n: nat)
    requires a != "" && n == L.WordLength(a) && 0 < n < |a|
    requires L.Lex(a[n..] + b) == L.Lex(a[n..]) + L.Lex(b)
    ensures L.Lex(a + b) == L.Lex(a) + L.Lex(b)
  {
    var w, rest := a[..n], a[n..];
    assert a + b == w + (rest + b) && a == w + rest;
    WordBefore(w, rest, b);
  }

  lemma WordBefore(w: string, rest: string, b: string)
    requires w != "" && L.AllWordChars(w) && rest != "" && !L.IsWordChar(rest[0])
    requires L.Lex(rest + b) == L.Lex(rest) + L.Lex(b)
    ensures L.Lex(w + (rest + b)) == L.Lex(w + rest) + L.Lex(b)
  {
    assert (rest + b)[0] == rest[0];
    L.LexWord(w, rest + b);
    L.LexWord(w, rest);
    Regroup([L.Word(w)], L.Lex(rest), L.Lex(b));
  }

  lemma Regroup(x: seq<L.Lexeme>, y: seq<L.Lexeme>, z: seq<L.Lexeme>)
    ensures x + (y + z) == (x + y) + z
  {
  }

  lemma {:induction false} LexConcat(a: string, b: string)
    requires a == "" || b == "" || !(L.IsWordChar(a[|a| - 1]) && L.IsWordChar(b[0]))
    ensures L.Lex(a + b) == L.Lex(a) + L.Lex(b)
    decreases |a|
  {
    if a == "" {
      assert a + b == b;
    } else if !L.IsWordChar(a[0]) {
      assert (a + b)[1..] == a[1..] + b;
      LexConcat(a[1..], b);
    } else {
      var n := L.WordLength(a);
      if n < |a| {
        LexConcat(a[n..], b);
        LexFirstWord(a, b, n);
      } else {
        LexWholeWord(a, b);
      }
    }
  }

  lemma {:induction false} NoCallSuffix(x: seq<L.Lexeme>, y: seq<L.Lexeme>)
    requires NoCall(x + y)
    ensures NoCall(y)
  {
    if x == [] {
      assert x + y == y;
    } else {
      assert (x + y)[1..] == x[1..] + y;
      NoCallSuffix(x[1..], y);
    }
  }

  /** White space and an opening parenthesis open a call. */
  lemma {:induction false} OpensAfterSpace(s: string)
    requires Eat(StripLeft(s), "(").Some?
    ensures OpensCall(L.Lex(s))
  {
    if IsSpace(s[0]) {
      OpensAfterSpace(s[1..]);
      L.LexMark(s[0], s[1..]);
    } else {
      assert s[..1] == [s[0]];
      L.LexMark(s[0], s[1..]);
    }
    assert s == [s[0]] + s[1..];
  }

  /** A text that starts with an identifier and an opening parenthesis holds a call, unless the identifier is `in`. */
  lemma StartsWithCall(s: string, word: string)
    requires EatCall(s, word).Some? && IsIdentifier(word) && Lower(word) == word && word != "in"
    ensures !NoCall(L.Lex(s))
  {
    var w, rest := s[..|word|], s[|word|..];
    assert s == w + rest;
    OpensAfterSpace(rest);
    assert rest != "" && !L.IsWordChar(rest[0]);
    LowerWord(w, word);
    L.LexWord(w, rest);
  }

  lemma LowerWord(w: string, word: string)
    requires Lower(w) == word && IsIdentifier(word)
    ensures IsIdentifier(w)
  {
    forall i | 0 <= i < |w|
      ensures L.IsWordChar(w[i])
    {
      assert LowerChar(w[i]) == word[i];
      assert word[i] in word;
    }
    assert LowerChar(w[0]) == word[0];
  }

  /** What is left of a text after a word and white space starts at a word boundary. */
  lemma EatWordSplits(s: string, word: string) returns (front: string)
    requires EatWord(s, word).Some?
    ensures s == front + EatWord(s, word).value
    ensures front != "" && IsSpace(front[|front| - 1])
  {
    var rest := s[|word|..];
    var ws := StripLeftSplits(rest);
    front := s[..|word|] + ws;
  }

  lemma {:induction false} StripLeftSplits(s: string) returns (ws: string)
    ensures s == ws + StripLeft(s)
    ensures forall c :: c in ws ==> IsSpace(c)
    ensures s != "" && IsSpace(s[0]) ==> ws != ""
  {
    if s != "" && IsSpace(s[0]) {
      var rest := StripLeftSplits(s[1..]);
      ws := [s[0]] + rest;
      assert s == [s[0]] + s[1..];
    } else {
      ws := "";
    }
  }

  lemma CallAtBoundary(front: string, s: string, word: string)
    requires front == "" || !L.IsWordChar(front[|front| - 1])
    requires EatCall(s, word).Some? && IsIdentifier(word) && Lower(word) == word && word != "in"
    ensures !NoCall(L.Lex(front + s))
  {
    StartsWithCall(s, word);
    LexConcat(front, s);
    if NoCall(L.Lex(front + s)) {
      NoCallSuffix(L.Lex(front), L.Lex(s));
    }
  }

  /** A text without calls is not a current_user wrapper. */
  lemma CallFreeIsNotWrapped(p: string)
    requires NoCall(L.Lex(p))
    ensures Unwrap(p).None?
  {
    var ws := StripLeftSplits(p);
    var a := EatWord(StripLeft(p), "case");
    if a.Some? {
      var f1 := EatWordSplits(StripLeft(p), "case");
      var b := EatWord(a.value, "when");
      if b.Some? {
        var f2 := EatWordSplits(a.value, "when");
        NoCurrentUser(p, ws + (f1 + f2), b.value);
      }
    }
  }

  lemma NoCurrentUser(p: string, front: string, rest: string)
    requires NoCall(L.Lex(p)) && p == front + rest && (front == "" || !L.IsWordChar(front[|front| - 1]))
    ensures EatCall(rest, "current_user").None?
  {
    if EatCall(rest, "current_user").Some? {
      assert Lower("current_user") == "current_user";
      CallAtBoundary(front, rest, "current_user");
    }
  }

  /** Nor does it start with a group test. */
  lemma CallFreeHasNoGroupPrefix(p: string)
    requires NoCall(L.Lex(p))
    ensures !HasGroupPrefix(p)
  {
    NoCallAtStart(p, "is_account_group_member");
    NoCallAtStart(p, "is_group_member");
  }

  lemma NoCallAtStart(p: string, word: string)
    requires NoCall(L.Lex(p)) && IsIdentifier(word) && word != "in"
    ensures Lower(word) == word ==> EatCall(StripLeft(p), word).None?
  {
    var ws := StripLeftSplits(p);
    assert ws == "" || IsSpace(ws[|ws| - 1]);
    if Lower(word) == word && EatCall(StripLeft(p), word).Some? {
      CallAtBoundary(ws, StripLeft(p), word);
    }
  }

  /** Text of the form `... THEN (...` is never valid. */
  lemma ThenIsACall(front: string, rest: string)
    ensures !NoCall(L.Lex(front + (") THEN (" + rest)))
  {
    ThenOpens(rest);
    assert Lower("then") == "then";
    CallAtBoundary(front + ") ", "THEN (" + rest, "then");
    assert (front + ") ") + ("THEN (" + rest) == front + (") THEN (" + rest);
  }

  /** One space, and text that does not start with white space. */
  lemma SpaceThen(rest: string)
    requires rest != "" && !IsSpace(rest[0])
    ensures StripLeft(rest) == rest && StripLeft(" " + rest) == rest && EatSpace(" " + rest) == Some(rest)
  {
    assert (" " + rest)[1..] == rest;
  }

  /** A word, white space and a parenthesis. */
  lemma EatCallText(w: string, word: string, rest: string)
    requires Lower(w) == word
    ensures EatCall(w + (" (" + rest), word) == Some(rest)
    ensures EatCall(w + ("(" + rest), word) == Some(rest)
  {
    EatText(w, word, " (" + rest);
    EatText(w, word, "(" + rest);
    SpaceThen("(" + rest);
    assert " " + ("(" + rest) == " (" + rest;
    EatText("(", "(", rest);
  }

  lemma ThenOpens(rest: string)
    ensures EatCall("THEN (" + rest, "then") == Some(rest)
  {
    EatCallText("THEN", "then", rest);
    assert "THEN" + (" (" + rest) == "THEN (" + rest;
  }

  // ---------------------------------------------------------------- unwrap undoes wrap

  lemma EatText(w: string, word: string, rest: string)
    requires Lower(w) == word
    ensures Eat(w + rest, word) == Some(rest)
  {
    assert (w + rest)[..|word|] == w && (w + rest)[|word|..] == rest;
  }

  lemma EatWordText(w: string, word: string, rest: string)
    requires Lower(w) == word && rest != "" && !IsSpace(rest[0])
    ensures EatWord(w + " " + rest, word) == Some(rest)
  {
    EatText(w, word, " " + rest);
    assert w + " " + rest == w + (" " + rest);
    SpaceThen(rest);
  }

  lemma {:induction false} AfterFree(a: string, c: char, rest: string)
    requires c !in a
    ensures After(a + ([c] + rest), c) == Some(rest)
  {
    if a == "" {
      assert a + ([c] + rest) == [c] + rest;
    } else {
      AfterFree(a[1..], c, rest);
      assert (a + ([c] + rest))[1..] == a[1..] + ([c] + rest);
    }
  }

  /** The scan of a wrapper up to its member list. */
  lemma WrapperHead(members: string, condition: string)
    ensures WrapperBody(WrapText(members, condition)) ==
              var g := After(members + (") " + ThenText(condition)), ')');
              if g.None? then None else
              var h := EatSpace(g.value);
              if h.None? then None else EatCall(h.value, "then")
  {
    var tail := members + (") " + ThenText(condition));
    var i := InText(members, condition);
    var c := "current_user() " + i;
    var b := "WHEN " + c;
    EatWordText("CASE", "case", b);
    assert "CASE" + " " + b == WrapText(members, condition);
    EatWordText("WHEN", "when", c);
    assert "WHEN" + " " + c == b;
    CurrentUserHead(i);
    ClosedHead(i);
    InHead(tail);
  }

  lemma CurrentUserHead(rest: string)
    ensures EatCall("current_user() " + rest, "current_user") == Some(") " + rest)
  {
    EatCallText("current_user", "current_user", ") " + rest);
    assert "current_user" + ("(" + (") " + rest)) == "current_user() " + rest;
  }

  lemma ClosedHead(rest: string)
    requires rest != "" && !IsSpace(rest[0])
    ensures Eat(StripLeft(") " + rest), ")") == Some(" " + rest)
    ensures EatSpace(" " + rest) == Some(rest)
  {
    EatText(")", ")", " " + rest);
    assert ")" + (" " + rest) == ") " + rest;
    assert StripLeft(") " + rest) == ") " + rest;
    SpaceThen(rest);
  }

  lemma InHead(tail: string)
    ensures EatCall("IN (" + tail, "in") == Some(tail)
  {
    EatCallText("IN", "in", tail);
    assert "IN" + (" (" + tail) == "IN (" + tail;
  }

  lemma EatBackText(rest: string, w: string, word: string)
    requires Lower(w) == word
    ensures EatBack(rest + w, word) == Some(rest)
  {
    assert (rest + w)[|rest|..] == w && (rest + w)[..|rest|] == rest;
  }

  lemma EatWordBackText(rest: string, w: string, word: string)
    requires Lower(w) == word && rest != "" && !IsSpace(rest[|rest| - 1])
    ensures EatWordBack(rest + " " + w, word) == Some(rest)
  {
    EatBackText(rest + " ", w, word);
    assert (rest + " ")[..|rest|] == rest;
    assert StripRight(rest + " ") == StripRight(rest);
  }

  lemma WrapperTail(condition: string)
    ensures WrapperInner(condition + ") ELSE true END") == if condition == "" then None else Some(condition)
  {
    var c := condition + ")";
    var b := c + " " + "ELSE";
    var a := b + " " + "true";
    var s := a + " " + "END";
    assert s == condition + ") ELSE true END";
    assert StripRight(s) == s;
    EatWordBackText(a, "END", "end");
    EatWordBackText(b, "true", "true");
    EatWordBackText(c, "ELSE", "else");
    EatBackText(condition, ")", ")");
  }

  lemma MembersEnd(members: string, rest: string)
    requires ')' !in members
    ensures After(members + (") " + rest), ')') == Some(" " + rest)
  {
    AfterFree(members, ')', " " + rest);
    assert ") " + rest == [')'] + (" " + rest);
  }

  /** Unwrapping undoes wrapping when no parenthesis closes inside the member list. */
  lemma UnwrapWrap(members: string, condition: string)
    requires ')' !in members && condition != ""
    ensures Unwrap(WrapText(members, condition)) == Some(condition)
  {
    WrapperHead(members, condition);
    MembersEnd(members, ThenText(condition));
    SpaceThen(ThenText(condition));
    ThenOpens(condition + ") ELSE true END");
    WrapperTail(condition);
  }

  // ---------------------------------------------------------------- normal form

  predicate IsField(f: string) {
    f != "" && forall c :: c in f ==> !IsSpace(c)
  }

  lemma {:induction false} FieldsAreFields(s: string)
    ensures forall f :: f in Fields(s) ==> IsField(f)
    decreases |s|
  {
    var t := StripLeft(s);
    StripLeftShortens(s);
    if t != "" {
      FieldsAreFields(t[FieldLength(t)..]);
    }
  }

  lemma {:induction false} FieldLengthOf(f: string, rest: string)
    requires IsField(f) && (rest != "" ==> IsSpace(rest[0]))
    ensures FieldLength(f + rest) == |f|
  {
    assert (f + rest)[0] == f[0] && f[0] in f;
    assert (f + rest)[1..] == f[1..] + rest;
    if |f| > 1 {
      FieldLengthOf(f[1..], rest);
    } else {
      assert f[1..] + rest == rest;
    }
  }

  lemma FieldFirst(f: string, tail: string)
    requires IsField(f) && (tail != "" ==> IsSpace(tail[0]))
    ensures Fields(f + tail) == [f] + Fields(tail)
    ensures StripLeft(f + tail) == f + tail && (tail == "" ==> StripRight(f + tail) == f)
  {
    var text := f + tail;
    assert f[0] in f && f[|f| - 1] in f && text[0] == f[0];
    assert StripLeft(text) == text;
    FieldLengthOf(f, tail);
    assert text[..|f|] == f && text[|f|..] == tail;
  }

  lemma BlankFirst(text: string)
    ensures Fields([' '] + text) == Fields(text)
  {
    assert ([' '] + text)[1..] == text;
  }

  /** The text of these fields: they are read back and nothing is stripped. */
  predicate SpellsFields(text: string, fs: seq<string>) {
    Fields(text) == fs && StripLeft(text) == text && StripRight(text) == text && text != ""
  }

  lemma OneMoreField(f: string, text: string, fs: seq<string>)
    requires IsField(f) && SpellsFields(text, fs)
    ensures SpellsFields(f + ([' '] + text), [f] + fs)
  {
    BlankFirst(text);
    FieldFirst(f, [' '] + text);
    assert f + ([' '] + text) == (f + [' ']) + text;
    StripRightConcat(f + [' '], text);
  }

  lemma OneField(f: string)
    requires IsField(f)
    ensures SpellsFields(f, [f])
  {
    assert f + "" == f;
    FieldFirst(f, "");
  }

  lemma JoinFirst(fs: seq<string>)
    requires |fs| > 1
    ensures Join(fs, " ") == fs[0] + ([' '] + Join(fs[1..], " ")) && fs == [fs[0]] + fs[1..]
  {
    JoinStep(fs, " ");
  }

  lemma JoinStep(fs: seq<string>, sep: string)
    requires |fs| > 1
    ensures Join(fs, sep) == fs[0] + (sep + Join(fs[1..], sep))
  {
    var rest := Join(fs[1..], sep);
    assert (fs[0] + sep) + rest == fs[0] + (sep + rest);
  }

  lemma {:induction false} JoinSpells(fs: seq<string>)
    requires fs != [] && forall f :: f in fs ==> IsField(f)
    ensures SpellsFields(Join(fs, " "), fs)
  {
    if |fs| == 1 {
      OneField(fs[0]);
      assert fs == [fs[0]];
    } else {
      JoinSpells(fs[1..]);
      OneMoreField(fs[0], Join(fs[1..], " "), fs[1..]);
      JoinFirst(fs);
    }
  }

  lemma FieldsOfJoin(fs: seq<string>)
    requires forall f :: f in fs ==> IsField(f)
    ensures Fields(Join(fs, " ")) == fs
    ensures StripLeft(Join(fs, " ")) == Join(fs, " ") && StripRight(Join(fs, " ")) == Join(fs, " ")
    ensures fs != [] ==> Join(fs, " ") != ""
  {
    if fs != [] {
      JoinSpells(fs);
    }
  }

  /** A predicate as normalisation leaves it: no white space at its ends, single spaces inside. */
  predicate Normal(p: string) {
    Collapse(p) == p && Strip(p) == p
  }

  lemma CollapsedIsNormal(s: string)
    ensures Normal(Collapse(s))
  {
    FieldsAreFields(s);
    FieldsOfJoin(Fields(s));
  }

  lemma {:induction false} AfterWhereName(name: string, p: string, seen: nat)
    requires (forall c :: c in name ==> !IsSpace(c)) && seen + |name| > 0
    requires p != "" && !IsSpace(p[0])
    ensures AfterWhere(name + (" where " + p), seen) == Some(p)
  {
    var s := name + (" where " + p);
    if name == "" {
      assert s == " where " + p;
      assert s[1..] == "where " + p;
      EatWordText("where", "where", p);
      assert "where" + " " + p == "where " + p;
      assert StripLeft(s) == "where " + p;
    } else {
      assert s[0] == name[0] && name[0] in name;
      assert s[1..] == name[1..] + (" where " + p);
      AfterWhereName(name[1..], p, seen + 1);
    }
  }

  lemma SelectHead(rest: string)
    requires rest != "" && !IsSpace(rest[0])
    ensures EatWord("select " + ("* " + rest), "select") == Some("* " + rest)
    ensures EatWord("* " + rest, "*") == Some(rest)
  {
    EatWordText("select", "select", "* " + rest);
    assert "select" + " " + ("* " + rest) == "select " + ("* " + rest);
    EatWordText("*", "*", rest);
    assert "*" + " " + rest == "* " + rest;
  }

  lemma FromHead(rest: string)
    requires rest != "" && !IsSpace(rest[0])
    ensures Eat("from " + rest, "from") == Some(" " + rest)
    ensures EatSpace(" " + rest) == Some(rest)
  {
    EatText("from", "from", " " + rest);
    assert "from" + (" " + rest) == "from " + rest;
    SpaceThen(rest);
  }

  lemma TableName(schema: string, table: string)
    requires IsIdentifier(schema) && IsIdentifier(table)
    ensures forall c :: c in schema + "." + table ==> !IsSpace(c)
  {
  }

  /** The query a translation builds normalises to its predicate. */
  lemma NormalizeSelect(schema: string, table: string, p: string)
    requires IsIdentifier(schema) && IsIdentifier(table) && Normal(p) && p != ""
    ensures NormalizeRowPredicate(SelectText(schema, table, p)) == p
  {
    var name := schema + "." + table;
    var rest := name + (" where " + p);
    NormalEnds(p);
    TableName(schema, table);
    assert name[0] in name && rest[0] == name[0];
    SelectHead("from " + rest);
    FromHead(rest);
    AfterWhereName(name, p, 0);
    SelectStripped(name, p);
    assert SelectWhere(SelectText(schema, table, p)) == Some(p);
  }

  lemma NormalEnds(p: string)
    requires Strip(p) == p && p != ""
    ensures !IsSpace(p[0]) && !IsSpace(p[|p| - 1])
    ensures StripLeft(p) == p
  {
    var ws := StripLeftSplits(p);
    StripLeftShortens(p);
    StripRightIsPrefix(StripLeft(p));
    assert |p| <= |StripLeft(p)|;
    assert ws == "";
  }

  lemma SelectStripped(name: string, p: string)
    requires p != "" && !IsSpace(p[|p| - 1])
    ensures var s := "select " + ("* " + ("from " + (name + (" where " + p)))); Strip(s) == s
  {
    var s := "select " + ("* " + ("from " + (name + (" where " + p))));
    assert s[0] == 's' && s[|s| - 1] == p[|p| - 1];
  }

  // ---------------------------------------------------------------- a parenthesis in a principal

  /** The scan only skips; what it leaves is a suffix, and nothing it skipped was a closing parenthesis. */
  predicate Skips(s: string, r: string) {
    |r| <= |s| && s[|s| - |r|..] == r && ')' !in s[..|s| - |r|]
  }

  lemma NoParenInWord(w: string, word: string)
    requires Lower(w) == word && ')' !in word
    ensures ')' !in w
  {
    forall i | 0 <= i < |w|
      ensures w[i] != ')'
    {
      assert word[i] in word && LowerChar(w[i]) == word[i];
    }
  }

  /** What a keyword with its opening parenthesis takes from a text. */
  lemma CallSkips(t: string, word: string)
    requires EatCall(t, word).Some? && ')' !in word
    ensures Skips(t, EatCall(t, word).value)
  {
    var w, rest := t[..|word|], t[|word|..];
    var ws := StripLeftSplits(rest);
    var r := EatCall(t, word).value;
    NoParenInWord(w, word);
    assert StripLeft(rest) == "(" + r;
    assert t == (w + ws + "(") + r;
    assert t[..|t| - |r|] == w + ws + "(";
  }

  lemma ThenSkips(s: string)
    requires EatSpace(s).Some? && EatCall(EatSpace(s).value, "then").Some?
    ensures Skips(s, EatCall(EatSpace(s).value, "then").value)
  {
    var ws := StripLeftSplits(s);
    var t := StripLeft(s);
    CallSkips(t, "then");
    var r := EatCall(t, "then").value;
    var head := t[..|t| - |r|];
    assert t == head + r;
    assert s == (ws + head) + r;
    assert s[..|s| - |r|] == ws + head;
  }

  /** After a member list with a parenthesis in it, what unwrapping leaves still holds the text THEN ( and so a call. */
  lemma BadListHoldsCall(members: string, condition: string)
    requires ')' in members && Strip(condition) == condition && condition != ""
    ensures !NoCall(L.Lex(RemoveCurrentUserWrapper(WrapText(members, condition))))
  {
    var text := WrapText(members, condition);
    var tail := ") " + ThenText(condition);
    if Unwrap(text).None? {
      var front := "CASE " + ("WHEN " + ("current_user() " + ("IN (" + members)));
      var rest := condition + ") ELSE true END";
      assert text == front + tail;
      assert tail == ") THEN (" + rest;
      ThenIsACall(front, rest);
    } else {
      WrapperHead(members, condition);
      var rest := AfterInside(members, tail);
      assert ThenText(condition) == "THEN (" + (condition + ") ELSE true END");
      ThenSkips(rest + tail);
      var body := WrapperBody(text).value;
      assert Skips(rest + tail, body);
      var z := SuffixKeeps(rest, tail, body);
      InnerOfBadList(z, condition);
    }
  }

  /** A first closing parenthesis inside the list leaves the rest of the list. */
  lemma {:induction false} AfterInside(members: string, tail: string) returns (rest: string)
    requires ')' in members
    ensures After(members + tail, ')') == Some(rest + tail)
  {
    assert (members + tail)[1..] == members[1..] + tail;
    if members[0] == ')' {
      rest := members[1..];
    } else {
      rest := AfterInside(members[1..], tail);
    }
  }

  /** A skip over text without closing parentheses does not reach past the first one. */
  lemma SuffixKeeps(rest: string, tail: string, body: string) returns (z: string)
    requires tail != "" && tail[0] == ')' && Skips(rest + tail, body)
    ensures body == z + tail
  {
    var s := rest + tail;
    var n := |s| - |body|;
    assert s[|rest|] == ')';
    assert forall i :: 0 <= i < n ==> s[i] in s[..n];
    z := rest[n..];
    assert s[n..] == z + tail;
  }

  lemma InnerOfBadList(z: string, condition: string)
    requires Strip(condition) == condition && condition != ""
    ensures var body := z + (") " + ThenText(condition));
            WrapperInner(body).Some? && !NoCall(L.Lex(Strip(WrapperInner(body).value)))
  {
    var keep := ") THEN (" + condition;
    assert z + (") " + ThenText(condition)) == (z + keep) + ") ELSE true END";
    WrapperTail(z + keep);
    var front := StripOfBadList(z, condition);
    ThenIsACall(front, condition);
  }

  /** Stripping takes away no more than a front piece of what precedes the parenthesis. */
  lemma StripOfBadList(z: string, condition: string) returns (front: string)
    requires Strip(condition) == condition && condition != ""
    ensures Strip(z + (") THEN (" + condition)) == front + (") THEN (" + condition)
  {
    var keep := ") THEN (" + condition;
    var inner := z + keep;
    NormalEnds(condition);
    StripRightIsPrefix(keep);
    var ws := StripLeftSplits(inner);
    assert inner[|z|] == ')';
    assert forall i :: 0 <= i < |ws| ==> inner[i] == ws[i] && ws[i] in ws;
    front := z[|ws|..];
    assert StripLeft(inner) == inner[|ws|..] == front + keep;
    StripRightConcat(front, keep);
  }

  // ---------------------------------------------------------------- the loop closes

  lemma {:induction false} DoubledParens(v: string)
    ensures ')' in Doubled(v) <==> ')' in v
  {
    if v != "" {
      DoubledParens(v[1..]);
    }
  }

  lemma {:induction false} JoinParens(parts: seq<string>, sep: string)
    requires ')' !in sep
    ensures ')' in Join(parts, sep) <==> exists p :: p in parts && ')' in p
  {
    if |parts| > 1 {
      JoinParens(parts[1..], sep);
      assert parts == [parts[0]] + parts[1..];
    }
  }

  lemma MemberListParens(principals: seq<string>)
    ensures ')' in MemberList(principals) <==> exists p :: p in principals && ')' in p
  {
    JoinParens(Quoted(principals), ", ");
    forall i | 0 <= i < |principals|
      ensures ')' in Quoted(principals)[i] <==> ')' in principals[i]
    {
      DoubledParens(principals[i]);
    }
    if p :| p in principals && ')' in p {
      var i :| 0 <= i < |principals| && principals[i] == p;
      assert Quoted(principals)[i] in Quoted(principals);
    }
    if q :| q in Quoted(principals) && ')' in q {
      var i :| 0 <= i < |principals| && Quoted(principals)[i] == q;
      assert principals[i] in principals;
    }
  }

  /** The mapping of a parameter list onto itself is the identity. */
  lemma {:induction false} MapOntoItself(text: string, params: seq<string>, i: nat)
    requires i <= |params|
    ensures MappedFrom(text, params, params, i) == Ok(text)
    decreases |params| - i
  {
    if i < |params| {
      MapOntoItself(text, params, i + 1);
    }
  }

  lemma NormalizedIsNormal(query: string)
    ensures Normal(NormalizeRowPredicate(query))
  {
    var raw := Strip(query);
    var m := SelectWhere(raw);
    CollapsedIsNormal(if m.Some? then m.value else raw);
  }

  /** What a filter body reduces to before validation: the predicate itself exactly when the list has no parenthesis. */
  lemma BodyReadBack(condition: string, principals: seq<string>)
    requires Normal(condition) && condition != "" && (principals == [] ==> Unwrap(condition).None?)
    ensures var e := RemoveCurrentUserWrapper(Strip(MemberScoped(condition, principals)));
            && Strip(MemberScoped(condition, principals)) != ""
            && ((forall p :: p in principals ==> ')' !in p) ==> e == condition)
            && ((exists p :: p in principals && ')' in p) ==> !NoCall(L.Lex(Strip(e))))
  {
    MemberListParens(principals);
    if principals != [] {
      var members := MemberList(principals);
      var text := WrapText(members, condition);
      WrapStripped(members, condition);
      if ')' in members {
        BadListHoldsCall(members, condition);
        RemovedIsStripped(text, members, condition);
      } else {
        UnwrapWrap(members, condition);
      }
    }
  }

  lemma WrapStripped(members: string, condition: string)
    ensures Strip(WrapText(members, condition)) == WrapText(members, condition) != ""
  {
    var text := WrapText(members, condition);
    assert text[0] == 'C';
    var tail := condition + ") ELSE true END";
    assert tail[|tail| - 1] == 'D';
    assert text[|text| - 1] == 'D';
  }

  lemma StripTwice(s: string)
    ensures Strip(Strip(s)) == Strip(s)
  {
    var t := StripLeft(s);
    StripLeftShortens(s);
    StripRightIsPrefix(t);
    StripRightIsPrefix(StripRight(t));
    if StripRight(t) != "" {
      assert StripRight(t)[0] == t[0];
    }
  }

  lemma RemovedIsStripped(text: string, members: string, condition: string)
    requires text == WrapText(members, condition)
    ensures Strip(RemoveCurrentUserWrapper(text)) == RemoveCurrentUserWrapper(text)
  {
    WrapStripped(members, condition);
    if Unwrap(text).Some? {
      StripTwice(Unwrap(text).value);
    }
  }

  /** A predicate that would be unwrapped is not valid after normalising either. */
  lemma ValidIsPlain(condition: string)
    requires Normal(condition) && Valid(condition)
    ensures Unwrap(condition).None? && !HasGroupPrefix(condition)
  {
    CallFreeIsNotWrapped(condition);
    CallFreeHasNoGroupPrefix(condition);
  }

  lemma NotCase(s: string)
    requires s != "" && LowerChar(s[0]) != 'c' && StripLeft(s) == s
    ensures Unwrap(s).None?
  {
    assert |s| >= 4 ==> Lower(s[..4])[0] == LowerChar(s[0]) && "case"[0] == 'c';
  }

  /** A predicate accepted only after a second normalising starts with select, so it is not a wrapper. */
  lemma TwiceNormalizedIsPlain(condition: string)
    requires Normal(condition) && condition != "" && Valid(NormalizeRowPredicate(condition))
    ensures Unwrap(condition).None?
  {
    if SelectWhere(condition).Some? {
      NormalEnds(condition);
      assert Lower(condition[..6])[0] == 's';
      NotCase(condition);
    } else {
      assert NormalizeRowPredicate(condition) == condition;
      ValidIsPlain(condition);
    }
  }

  /**
   The loop closes, exactly: for every Fabric predicate that is emitted as a Unity Catalog row filter,
   reading the filter back gives a translation with the key of the Fabric row if and only if the
   normalised predicate is valid as it stands and no member principal contains a closing parenthesis.
   */
  lemma RowFilterLoopCloses(scope: string, catalog: string, query: string, principals: seq<string>,
                            columns: seq<Column>)
    requires FabricRowFilter(scope, catalog, query, principals, columns).Ok?
    ensures var back := ReadBack(FabricRowFilter(scope, catalog, query, principals, columns).value, scope, catalog);
            back.Ok? && CanonicalRowFilterKey(scope, back.value.query) == CanonicalRowFilterKey(scope, query)
            <==> Valid(NormalizeRowPredicate(query)) && forall p :: p in principals ==> ')' !in p
  {
    var f := FabricRowFilter(scope, catalog, query, principals, columns).value;
    var condition := NormalizeRowPredicate(query);
    var t := TableParts(scope, catalog).value;
    NormalizedIsNormal(query);
    TwiceNormalizedIsPlain(condition);
    BodyReadBack(condition, principals);
    assert ParamNames(f) == f.on;
    MapOntoItself(Strip(f.body), f.on, 0);
    if Valid(condition) {
      ValidIsPlain(condition);
      NormalizeSelect(t.1, t.2, condition);
    }
  }

  // ---------------------------------------------------------------- where it does not close

  lemma ShortLexemes(q: string)
    requires q == "a=1"
    ensures L.Lex(q) == [L.Word("a"), L.Mark('='), L.Word("1")]
  {
    var one := "1";
    assert q == "a" + (['='] + one);
    L.LexWord(one, "");
    assert one + "" == one;
    L.LexMark('=', one);
    L.LexWord("a", ['='] + one);
    assert [L.Word("a")] + ([L.Mark('=')] + [L.Word(one)]) == [L.Word("a"), L.Mark('='), L.Word("1")];
  }

  lemma ShortWords(w: string)
    requires |w| == 1
    ensures Lower(w) !in BLOCKED_KEYWORDS
  {
  }

  lemma ShortIsValid(q: string)
    requires q == "a=1"
    ensures Valid(q) && Normal(q) && NormalizeRowPredicate(q) == q
  {
    ShortLexemes(q);
    ShortWords("a");
    ShortWords("1");
    var ls := L.Lex(q);
    assert ls[1..] == [L.Mark('='), L.Word("1")] && ls[1..][1..] == [L.Word("1")] && ls[1..][1..][1..] == [];
    assert NoCall([L.Word("1")]) && NoCall(ls[1..][1..]) && NoCall(ls[1..]);
    assert NoCall(ls);
    FieldsOfJoin([q]);
    assert Join([q], " ") == q;
  }

  lemma ShortParts(scope: string)
    requires scope == "table:c.s.t"
    ensures TableParts(scope, "c") == Some(("c", "s", "t"))
  {
    var parts := ["c", "s", "t"];
    var text := scope[6..];
    assert parts[1..] == ["s", "t"] && ["s", "t"][1..] == ["t"];
    assert Join(["t"], ".") == "t";
    assert Join(["s", "t"], ".") == "s.t";
    assert Join(parts, ".") == text;
    SplitOfJoin(parts, '.');
    NonEmptyThree("c", "s", "t");
  }

  /** One column, in a text that holds it. */
  lemma OneColumn(q: string, c: Column)
    requires IsIdentifier(c.name) && Strip(c.name) == c.name && L.Word(c.name) in L.Lex(q)
    ensures Names([c]) == [c.name] && TypeOf([c], c.name) == Some(c.ucType)
    ensures Occurring(q, [c.name]) == [c.name]
  {
    assert [c][..0] == [] && [c.name][..0] == [] && [c.name][1..] == [];
    assert Names([]) == [] && Occurring(q, []) == [];
  }

  lemma ShortColumns(q: string)
    requires q == "a=1"
    ensures Names([Column("a", "int")]) == ["a"] && TypeOf([Column("a", "int")], "a") == Some("int")
    ensures Occurring(q, ["a"]) == ["a"]
  {
    ShortLexemes(q);
    assert L.Lex(q)[0] == L.Word("a");
    OneColumn(q, Column("a", "int"));
  }

  lemma ShortFilter(scope: string, q: string, principals: seq<string>)
    requires scope == "table:c.s.t" && q == "a=1"
    ensures FabricRowFilter(scope, "c", q, principals, [Column("a", "int")]).Ok?
  {
    ShortParts(scope);
    ShortIsValid(q);
    ShortColumns(q);
    assert ["a"][1..] == [];
  }

  /**
   The failing case: a group whose name holds a parenthesis. The emitted filter is not read back with the key of its
   row.
   */
  lemma ParenthesisBreaksTheLoop(scope: string, q: string, group: string)
    requires scope == "table:c.s.t" && q == "a=1" && group == "Sales (EMEA)"
    ensures var f := FabricRowFilter(scope, "c", q, [group], [Column("a", "int")]);
            && f.Ok?
            && var back := ReadBack(f.value, scope, "c");
               !(back.Ok? && CanonicalRowFilterKey(scope, back.value.query) == CanonicalRowFilterKey(scope, q))
  {
    ShortFilter(scope, q, [group]);
    assert group[11] == ')' && group in [group];
    RowFilterLoopCloses(scope, "c", q, [group], [Column("a", "int")]);
  }
}
