/** The string operations of the Python sources, over ASCII text. */
module Text {

  function LowerChar(c: char): char {
    if 'A' <= c <= 'Z' then c + ' ' else c
  }

  /** `s.lower()` */
  function Lower(s: string): (r: string)
    ensures |r| == |s|
    ensures forall i :: 0 <= i < |s| ==> r[i] == LowerChar(s[i])
  {
    seq(|s|, i requires 0 <= i < |s| => LowerChar(s[i]))
  }

  function UpperChar(c: char): char {
    if 'a' <= c <= 'z' then c - ' ' else c
  }

  /** `s.upper()` */
  function Upper(s: string): (r: string)
    ensures |r| == |s|
    ensures forall i :: 0 <= i < |s| ==> r[i] == UpperChar(s[i])
  {
    seq(|s|, i requires 0 <= i < |s| => UpperChar(s[i]))
  }

  /** White space as `str.strip`, `str.split` and the regular expression class `\s` see it. */
  predicate IsSpace(c: char) {
    c == ' ' || '\t' <= c <= '\r' || '\U{1c}' <= c <= '\U{1f}'
  }

  /** `s.lstrip()` */
  function StripLeft(s: string): string {
    if s != "" && IsSpace(s[0]) then StripLeft(s[1..]) else s
  }

  /** `s.rstrip()` */
  function StripRight(s: string): string {
    if s != "" && IsSpace(s[|s| - 1]) then StripRight(s[..|s| - 1]) else s
  }

  /** `s.strip()` */
  function Strip(s: string): string {
    StripRight(StripLeft(s))
  }

  /** `s.strip(c)` for one character. */
  function StripChar(s: string, c: char): string {
    if s != "" && s[0] == c then StripChar(s[1..], c)
    else if s != "" && s[|s| - 1] == c then StripChar(s[..|s| - 1], c)
    else s
  }

  /** `s.split(c)` */
  function Split(s: string, c: char): (parts: seq<string>)
    ensures parts != []
  {
    if s == "" then [""]
    else if s[0] == c then [""] + Split(s[1..], c)
    else
      var rest := Split(s[1..], c);
      [[s[0]] + rest[0]] + rest[1..]
  }

  /** `sep.join(parts)` */
  function Join(parts: seq<string>, sep: string): string {
    if parts == [] then ""
    else if |parts| == 1 then parts[0]
    else parts[0] + sep + Join(parts[1..], sep)
  }

  /** `[part for part in parts if part]` */
  function NonEmpty(parts: seq<string>): (out: seq<string>)
    ensures forall x :: x in out <==> x in parts && x != ""
  {
    if parts == [] then []
    else (if parts[0] == "" then [] else [parts[0]]) + NonEmpty(parts[1..])
  }

  lemma {:induction false} SplitWhole(s: string, c: char)
    requires c !in s
    ensures Split(s, c) == [s]
  {
    if s != "" {
      SplitWhole(s[1..], c);
      assert [s[0]] + s[1..] == s;
    }
  }

  lemma {:induction false} SplitFirst(a: string, c: char, rest: string)
    requires c !in a
    ensures Split(a + [c] + rest, c) == [a] + Split(rest, c)
  {
    var s := a + [c] + rest;
    if a == "" {
      assert s[1..] == rest;
    } else {
      SplitFirst(a[1..], c, rest);
      assert s[1..] == a[1..] + [c] + rest;
      assert [a[0]] + a[1..] == a;
    }
  }

  /** Splitting undoes joining, for parts free of the separator. */
  lemma {:induction false} SplitOfJoin(parts: seq<string>, c: char)
    requires parts != [] && forall p :: p in parts ==> c !in p
    ensures Split(Join(parts, [c]), c) == parts
  {
    if |parts| == 1 {
      SplitWhole(parts[0], c);
    } else {
      SplitOfJoin(parts[1..], c);
      SplitFirst(parts[0], c, Join(parts[1..], [c]));
      assert parts == [parts[0]] + parts[1..];
    }
  }

  /** The parts of a split are free of the separator, and made of characters of the text. */
  lemma {:induction false} SplitParts(s: string, c: char)
    ensures forall p :: p in Split(s, c) ==> c !in p && forall x :: x in p ==> x in s
  {
    if s != "" {
      SplitParts(s[1..], c);
      forall p | p in Split(s, c)
        ensures c !in p && forall x :: x in p ==> x in s
      {
        var rest := Split(s[1..], c);
        if s[0] != c && p !in rest {
          assert p == [s[0]] + rest[0];
          assert rest[0] in rest;
        }
      }
    }
  }

  /** Joining undoes splitting. */
  lemma {:induction false} JoinOfSplit(s: string, c: char)
    ensures Join(Split(s, c), [c]) == s
  {
    if s != "" {
      JoinOfSplit(s[1..], c);
      var rest := Split(s[1..], c);
      if s[0] == c {
        assert ([""] + rest)[1..] == rest;
        assert [c] + s[1..] == s;
      } else {
        var parts := [[s[0]] + rest[0]] + rest[1..];
        if |rest| > 1 {
          assert parts[1..] == rest[1..];
          assert Join(parts, [c]) == [s[0]] + Join(rest, [c]);
        } else {
          assert parts == [[s[0]] + rest[0]];
        }
        assert [s[0]] + s[1..] == s;
      }
    }
  }

  lemma NonEmptyThree(a: string, b: string, c: string)
    requires a != "" && b != ""
    ensures NonEmpty([a, b, c]) == [a, b] + if c == "" then [] else [c]
  {
    assert [a, b, c][1..] == [b, c];
    assert [b, c][1..] == [c];
    assert [c][1..] == [];
    assert NonEmpty([c]) == (if c == "" then [] else [c]) + NonEmpty([]);
    assert NonEmpty([b, c]) == [b] + NonEmpty([c]);
    assert NonEmpty([a, b, c]) == [a] + NonEmpty([b, c]);
  }

  /** Stripping the right end only touches trailing white space. */
  lemma {:induction false} StripRightConcat(a: string, b: string)
    ensures StripRight(a + b) == if StripRight(b) == "" then StripRight(a) else a + StripRight(b)
  {
    if b == "" {
      assert a + b == a;
    } else {
      assert (a + b)[..|a + b| - 1] == a + b[..|b| - 1];
      if IsSpace(b[|b| - 1]) {
        StripRightConcat(a, b[..|b| - 1]);
      }
    }
  }

  lemma {:induction false} StripRightIsPrefix(s: string)
    ensures StripRight(s) <= s
    ensures StripRight(s) == s <==> s == "" || !IsSpace(s[|s| - 1])
    ensures StripRight(s) != "" ==> !IsSpace(StripRight(s)[|StripRight(s)| - 1])
  {
    if s != "" && IsSpace(s[|s| - 1]) {
      StripRightIsPrefix(s[..|s| - 1]);
    }
  }

  lemma {:induction false} StripLeftChars(s: string, x: char)
    ensures x in StripLeft(s) ==> x in s
  {
    if s != "" && IsSpace(s[0]) {
      StripLeftChars(s[1..], x);
    }
  }

  lemma {:induction false} StripCharChars(s: string, c: char, x: char)
    ensures x in StripChar(s, c) ==> x in s
  {
    if s != "" && s[0] == c {
      StripCharChars(s[1..], c, x);
    } else if s != "" && s[|s| - 1] == c {
      StripCharChars(s[..|s| - 1], c, x);
    }
  }
}
