/** The JavaScript string operations the core uses, on `string` (= seq<char>):
    String.prototype.trim, toLowerCase (ASCII letters only), includes,
    split and replace with a string pattern, replace with a global pattern,
    decimal rendering of a non-negative integer, and the code-point order
    that stands in for localeCompare. */
module Text {

  /** The characters String.prototype.trim removes: ECMAScript WhiteSpace
      and LineTerminator. */
  predicate IsJsSpace(c: char) {
    || c == ' ' || c == '\t' || c == '\n' || c == '\r'
    || c == '\U{000B}' || c == '\U{000C}' || c == '\U{00A0}' || c == '\U{1680}'
    || ('\U{2000}' <= c <= '\U{200A}')
    || c == '\U{2028}' || c == '\U{2029}' || c == '\U{202F}' || c == '\U{205F}'
    || c == '\U{3000}' || c == '\U{FEFF}'
  }

  function TrimStart(s: string): string {
    if s != [] && IsJsSpace(s[0]) then TrimStart(s[1..]) else s
  }

  function TrimEnd(s: string): string {
    if s != [] && IsJsSpace(s[|s| - 1]) then TrimEnd(s[..|s| - 1]) else s
  }

  /** TrimStart cuts white space off the front and stops at the first other
      character. */
  lemma {:induction false} TrimStartShape(s: string)
    ensures var r := TrimStart(s);
      && |r| <= |s| && r == s[|s| - |r|..]
      && (r == [] || !IsJsSpace(r[0]))
      && forall j :: 0 <= j < |s| - |r| ==> IsJsSpace(s[j])
  {
    if s != [] && IsJsSpace(s[0]) {
      var t := s[1..];
      TrimStartShape(t);
      var r := TrimStart(t);
      assert TrimStart(s) == r;
      assert t[|t| - |r|..] == s[|s| - |r|..];
      forall j | 0 <= j < |s| - |r| ensures IsJsSpace(s[j]) {
        if j > 0 { assert s[j] == t[j - 1]; }
      }
    }
  }

  /** TrimEnd cuts white space off the back and stops at the last other
      character. */
  lemma {:induction false} TrimEndShape(s: string)
    ensures var r := TrimEnd(s);
      && |r| <= |s| && r == s[..|r|]
      && (r == [] || !IsJsSpace(r[|r| - 1]))
      && forall j :: |r| <= j < |s| ==> IsJsSpace(s[j])
  {
    if s != [] && IsJsSpace(s[|s| - 1]) {
      TrimEndShape(s[..|s| - 1]);
    }
  }

  /** String.prototype.trim. */
  function Trim(s: string): string {
    TrimEnd(TrimStart(s))
  }

  /** A trimmed string neither starts nor ends with white space, and is a
      slice of the input with only white space cut off either side. */
  lemma TrimShape(s: string)
    ensures var r, k := Trim(s), |s| - |TrimStart(s)|;
      && (r == [] || (!IsJsSpace(r[0]) && !IsJsSpace(r[|r| - 1])))
      && 0 <= k <= |s| - |r| && r == s[k..k + |r|]
      && (forall j :: 0 <= j < k ==> IsJsSpace(s[j]))
      && (forall j :: k + |r| <= j < |s| ==> IsJsSpace(s[j]))
  {
    var t := TrimStart(s);
    var r := TrimEnd(t);
    var k := |s| - |t|;
    TrimStartShape(s);
    TrimEndShape(t);
    assert t == s[k..];
    assert r == t[..|r|];
    assert r == s[k..k + |r|];
    if r != [] {
      assert r[0] == t[0];
    }
    forall j | k + |r| <= j < |s| ensures IsJsSpace(s[j]) {
      assert s[j] == t[j - k];
    }
  }

  /** Trimming twice is trimming once: every field the CSV parser emits is
      its own trim. */
  lemma TrimIdempotent(s: string)
    ensures Trim(Trim(s)) == Trim(s)
  {
    TrimShape(s);
  }

  /** A string trims to "" exactly when it is all white space. */
  lemma TrimEmpty(s: string)
    ensures Trim(s) == [] <==> forall j :: 0 <= j < |s| ==> IsJsSpace(s[j])
  {
    TrimShape(s);
    var r := Trim(s);
    if r != [] {
      var k := |s| - |TrimStart(s)|;
      assert r[0] == s[k];
    }
  }

  /** String.prototype.toLowerCase restricted to ASCII letters. */
  function LowerChar(c: char): char {
    if 'A' <= c <= 'Z' then (c as int + 32) as char else c
  }

  function Lower(s: string): (r: string)
    ensures |r| == |s| && forall i :: 0 <= i < |s| ==> r[i] == LowerChar(s[i])
  {
    seq(|s|, i requires 0 <= i < |s| => LowerChar(s[i]))
  }

  lemma LowerIdempotent(s: string)
    ensures Lower(Lower(s)) == Lower(s)
  {
  }

  /** `sub` occurs in `s` starting at index `i`. */
  predicate OccursAt(s: string, sub: string, i: int) {
    0 <= i && i + |sub| <= |s| && s[i..i + |sub|] == sub
  }

  /** String.prototype.includes. */
  predicate Contains(s: string, sub: string) {
    exists i :: 0 <= i <= |s| - |sub| && OccursAt(s, sub, i)
  }

  /** Every string includes the empty string. */
  lemma ContainsEmpty(s: string)
    ensures Contains(s, "")
  {
    assert OccursAt(s, "", 0);
  }

  lemma OccursAtStart(s: string, sub: string)
    ensures OccursAt(s, sub, 0) <==> |sub| <= |s| && s[..|sub|] == sub
  {
  }

  lemma ContainsTail(s: string, sub: string)
    requires s != [] && Contains(s[1..], sub)
    ensures Contains(s, sub)
  {
    var i :| 0 <= i <= |s[1..]| - |sub| && OccursAt(s[1..], sub, i);
    assert s[1..][i..i + |sub|] == s[i + 1..i + 1 + |sub|];
    assert OccursAt(s, sub, i + 1);
  }

  lemma CharNotContained(s: string, c: char)
    requires c !in s
    ensures !Contains(s, [c])
  {
    forall i | 0 <= i <= |s| - 1 ensures !OccursAt(s, [c], i) {
      assert s[i..i + 1][0] == s[i];
    }
  }

  /** String.prototype.split with a non-empty string separator: the leftmost
      non-overlapping occurrences cut the string into pieces. */
  function Split(s: string, sep: string): (r: seq<string>)
    requires |sep| > 0
    ensures |r| >= 1
    decreases |s|
  {
    if |sep| <= |s| && s[..|sep|] == sep then [""] + Split(s[|sep|..], sep)
    else if s == [] then [""]
    else
      var p := Split(s[1..], sep);
      [[s[0]] + p[0]] + p[1..]
  }

  /** Array.prototype.join. */
  function Join(parts: seq<string>, sep: string): string {
    if parts == [] then ""
    else if |parts| == 1 then parts[0]
    else parts[0] + sep + Join(parts[1..], sep)
  }

  lemma JoinCons(x: string, rest: seq<string>, sep: string)
    requires |rest| >= 1
    ensures Join([x] + rest, sep) == x + sep + Join(rest, sep)
  {
    assert ([x] + rest)[1..] == rest;
  }

  /** Splitting then joining with the same separator gives the string back. */
  lemma {:induction false} SplitJoin(s: string, sep: string)
    requires |sep| > 0
    ensures Join(Split(s, sep), sep) == s
    decreases |s|
  {
    if |sep| <= |s| && s[..|sep|] == sep {
      var rest := s[|sep|..];
      SplitJoin(rest, sep);
      assert Split(s, sep) == [""] + Split(rest, sep);
      JoinCons("", Split(rest, sep), sep);
      assert s == sep + rest;
    } else if s != [] {
      var p := Split(s[1..], sep);
      SplitJoin(s[1..], sep);
      assert Split(s, sep) == [[s[0]] + p[0]] + p[1..];
      JoinHeadChar(s[0], p, sep);
      assert s == [s[0]] + s[1..];
    }
  }

  /** Prefixing a character to the first part prefixes it to the joined string. */
  lemma JoinHeadChar(c: char, p: seq<string>, sep: string)
    requires |p| >= 1
    ensures Join([[c] + p[0]] + p[1..], sep) == [c] + Join(p, sep)
  {
    if |p| > 1 {
      assert p == [p[0]] + p[1..];
      JoinCons(p[0], p[1..], sep);
      JoinCons([c] + p[0], p[1..], sep);
    }
  }

  /** A string without the separator splits into itself alone. */
  lemma {:induction false} SplitAbsent(s: string, sep: string)
    requires |sep| > 0 && !Contains(s, sep)
    ensures Split(s, sep) == [s]
    decreases |s|
  {
    OccursAtStart(s, sep);
    assert !OccursAt(s, sep, 0);
    if s != [] {
      if Contains(s[1..], sep) { ContainsTail(s, sep); }
      SplitAbsent(s[1..], sep);
      assert s == [s[0]] + s[1..];
    }
  }

  /** With a one-character separator, splitting at an occurrence of it
      splits the two sides independently. */
  lemma {:induction false} SplitCharConcat(a: string, c: char, b: string)
    ensures Split(a + [c] + b, [c]) == Split(a, [c]) + Split(b, [c])
    decreases |a|
  {
    if a == [] {
      SplitAtSep(c, b);
      assert a + [c] + b == [c] + b;
    } else {
      var t := a[1..];
      assert a == [a[0]] + t;
      assert a + [c] + b == [a[0]] + (t + [c] + b);
      SplitCharConcat(t, c, b);
      var q, sb, p := Split(t, [c]), Split(b, [c]), Split(t + [c] + b, [c]);
      assert p == q + sb;
      if a[0] == c {
        SplitAtSep(c, t + [c] + b);
        SplitAtSep(c, t);
        assert [""] + p == ([""] + q) + sb;
      } else {
        SplitOther(a[0], t + [c] + b, c);
        SplitOther(a[0], t, c);
        ConsFirst([a[0]] + q[0], q, sb);
      }
    }
  }

  /** Replacing the first piece commutes with appending more pieces. */
  lemma ConsFirst(x: string, q: seq<string>, sb: seq<string>)
    requires |q| >= 1
    ensures [x] + (q + sb)[1..] == ([x] + q[1..]) + sb
  {
    assert (q + sb)[1..] == q[1..] + sb;
  }

  /** A string starting with the one-character separator splits into "" and the rest's pieces. */
  lemma SplitAtSep(c: char, t: string)
    ensures Split([c] + t, [c]) == [""] + Split(t, [c])
  {
    assert ([c] + t)[..1] == [c];
    assert ([c] + t)[1..] == t;
  }

  /** Any other first character joins the first piece of the rest. */
  lemma SplitOther(x: char, t: string, c: char)
    requires x != c
    ensures var p := Split(t, [c]);
      Split([x] + t, [c]) == [[x] + p[0]] + p[1..]
  {
    var s := [x] + t;
    assert s[..1][0] == x;
    assert s[0] == x && s[1..] == t;
  }

  /** A character absent from a string is absent from each of its pieces. */
  lemma {:induction false} SplitPiecesLack(s: string, sep: string, c: char)
    requires |sep| > 0 && c !in s
    ensures forall i :: 0 <= i < |Split(s, sep)| ==> c !in Split(s, sep)[i]
    decreases |s|
  {
    if |sep| <= |s| && s[..|sep|] == sep {
      assert c !in s[|sep|..];
      SplitPiecesLack(s[|sep|..], sep, c);
    } else if s != [] {
      assert c !in s[1..];
      SplitPiecesLack(s[1..], sep, c);
    }
  }

  /** Joining pieces that do not contain a one-character separator and
      splitting on it again gives the pieces back. */
  lemma {:induction false} SplitJoinParts(parts: seq<string>, c: char)
    requires |parts| >= 1
    requires forall i :: 0 <= i < |parts| ==> c !in parts[i]
    ensures Split(Join(parts, [c]), [c]) == parts
  {
    CharNotContained(parts[0], c);
    SplitAbsent(parts[0], [c]);
    if |parts| > 1 {
      SplitJoinParts(parts[1..], c);
      SplitCharConcat(parts[0], c, Join(parts[1..], [c]));
      assert parts == [parts[0]] + parts[1..];
    }
  }

  /** String.prototype.replace with a string pattern: only the first
      occurrence is replaced. */
  function ReplaceFirst(s: string, pat: string, rep: string): string
    decreases |s|
  {
    if |pat| <= |s| && s[..|pat|] == pat then rep + s[|pat|..]
    else if s == [] then []
    else [s[0]] + ReplaceFirst(s[1..], pat, rep)
  }

  /** Removing a prefix that is present gives back the rest. */
  lemma ReplaceFirstPrefix(pat: string, rest: string)
    ensures ReplaceFirst(pat + rest, pat, "") == rest
  {
    assert (pat + rest)[..|pat|] == pat;
    assert (pat + rest)[|pat|..] == rest;
  }

  /** String.prototype.replace with a global pattern. */
  function ReplaceAll(s: string, pat: string, rep: string): string
    requires |pat| > 0
    decreases |s|
  {
    if |pat| <= |s| && s[..|pat|] == pat then rep + ReplaceAll(s[|pat|..], pat, rep)
    else if s == [] then []
    else [s[0]] + ReplaceAll(s[1..], pat, rep)
  }

  /** A global replace is a split on the pattern joined with the
      replacement. */
  lemma {:induction false} ReplaceAllIsSplitJoin(s: string, pat: string, rep: string)
    requires |pat| > 0
    ensures ReplaceAll(s, pat, rep) == Join(Split(s, pat), rep)
    decreases |s|
  {
    if |pat| <= |s| && s[..|pat|] == pat {
      var rest := s[|pat|..];
      ReplaceAllIsSplitJoin(rest, pat, rep);
      assert Split(s, pat) == [""] + Split(rest, pat);
      JoinCons("", Split(rest, pat), rep);
    } else if s != [] {
      ReplaceAllIsSplitJoin(s[1..], pat, rep);
      var p := Split(s[1..], pat);
      assert Split(s, pat) == [[s[0]] + p[0]] + p[1..];
      JoinHeadChar(s[0], p, rep);
    }
  }

  /** Decimal rendering of a natural number (String(n) in JavaScript). */
  function NatToString(n: nat): (r: string)
    ensures |r| >= 1
    ensures n >= 10 ==> |r| >= 2
    decreases n
  {
    if n < 10 then [Digit(n)] else NatToString(n / 10) + [Digit(n % 10)]
  }

  function Digit(d: nat): char
    requires d < 10
  {
    ('0' as int + d) as char
  }

  /** Distinct numbers render differently. */
  lemma {:induction false} NatToStringInjective(a: nat, b: nat)
    requires NatToString(a) == NatToString(b)
    ensures a == b
    decreases a
  {
    var ra, rb := NatToString(a), NatToString(b);
    if a >= 10 && b >= 10 {
      assert ra[..|ra| - 1] == NatToString(a / 10);
      assert rb[..|rb| - 1] == NatToString(b / 10);
      NatToStringInjective(a / 10, b / 10);
      assert Digit(a % 10) == ra[|ra| - 1] == rb[|rb| - 1] == Digit(b % 10);
    }
  }

  /** Lexicographic order on code points: the comparison the model uses in
      place of localeCompare. */
  predicate LexLe(a: string, b: string) {
    a == [] || (b != [] && (a[0] < b[0] || (a[0] == b[0] && LexLe(a[1..], b[1..]))))
  }

  lemma {:induction false} LexLeTotal(a: string, b: string)
    ensures LexLe(a, b) || LexLe(b, a)
  {
    if a != [] && b != [] && a[0] == b[0] {
      LexLeTotal(a[1..], b[1..]);
    }
  }

  lemma {:induction false} LexLeTransitive(a: string, b: string, c: string)
    requires LexLe(a, b) && LexLe(b, c)
    ensures LexLe(a, c)
  {
    if a != [] && a[0] == b[0] && b[0] == c[0] {
      LexLeTransitive(a[1..], b[1..], c[1..]);
    }
  }

  lemma {:induction false} LexLeAntisymmetric(a: string, b: string)
    requires LexLe(a, b) && LexLe(b, a)
    ensures a == b
  {
    if a != [] {
      LexLeAntisymmetric(a[1..], b[1..]);
      assert a == [a[0]] + a[1..];
      assert b == [b[0]] + b[1..];
    }
  }
}
