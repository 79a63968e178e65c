/** The string operations the storefront relies on, with JavaScript's meaning:
    ASCII case mapping, the ECMAScript white-space set used by `trim()` and
    `\s`, `includes`, the `\b` word boundary, `split(/\s+/)`, and the first
    `\d+` run with `parseInt`. */
module Text {
  import opened Common

  function LowerChar(c: char): char
  {
    if 'A' <= c <= 'Z' then (c as int + 32) as char else c
  }

  function UpperChar(c: char): char
  {
    if 'a' <= c <= 'z' then (c as int - 32) as char else c
  }

  /** `toLowerCase()` restricted to the ASCII letters. */
  function ToLower(s: string): (r: string)
    ensures |r| == |s|
    ensures forall i :: 0 <= i < |s| ==> r[i] == LowerChar(s[i])
  {
    seq(|s|, i requires 0 <= i < |s| => LowerChar(s[i]))
  }

  /** `toUpperCase()` restricted to the ASCII letters. */
  function ToUpper(s: string): (r: string)
    ensures |r| == |s|
    ensures forall i :: 0 <= i < |s| ==> r[i] == UpperChar(s[i])
  {
    seq(|s|, i requires 0 <= i < |s| => UpperChar(s[i]))
  }

  /** Lower-casing twice changes nothing more. */
  lemma ToLowerIdempotent(s: string)
    ensures ToLower(ToLower(s)) == ToLower(s)
  {
  }

  /** ECMAScript WhiteSpace and LineTerminator code points: what `trim()`
      removes and what `\s` matches. */
  predicate IsSpace(c: char)
  {
    c == '\t' || c == '\n' || c == '\U{000B}' || c == '\U{000C}' || c == '\r' || c == ' '
    || c == '\U{00A0}' || c == '\U{1680}' || ('\U{2000}' <= c <= '\U{200A}')
    || c == '\U{2028}' || c == '\U{2029}' || c == '\U{202F}' || c == '\U{205F}'
    || c == '\U{3000}' || c == '\U{FEFF}'
  }

  predicate NoSpace(s: string)
  {
    forall i :: 0 <= i < |s| ==> !IsSpace(s[i])
  }

  predicate AllSpace(s: string)
  {
    forall i :: 0 <= i < |s| ==> IsSpace(s[i])
  }

  /** Lower-casing moves no character into or out of the white-space set. */
  lemma LowerKeepsSpaces(c: char)
    ensures IsSpace(LowerChar(c)) <==> IsSpace(c)
  {
  }

  /** The number of leading white-space characters. */
  function LeadingSpaces(s: string): (k: nat)
    ensures k <= |s|
    ensures forall i :: 0 <= i < k ==> IsSpace(s[i])
    ensures k < |s| ==> !IsSpace(s[k])
  {
    if s != [] && IsSpace(s[0]) then 1 + LeadingSpaces(s[1..]) else 0
  }

  /** The index where the trailing white space begins. */
  function TrailingStart(s: string): (k: nat)
    ensures k <= |s|
    ensures forall i :: k <= i < |s| ==> IsSpace(s[i])
    ensures k > 0 ==> !IsSpace(s[k - 1])
  {
    if s != [] && IsSpace(s[|s| - 1]) then TrailingStart(s[..|s| - 1]) else |s|
  }

  /** `trim()`: the string without leading and trailing white space. */
  function Trim(s: string): (r: string)
    ensures |r| <= |s|
    ensures r == [] || (!IsSpace(r[0]) && !IsSpace(r[|r| - 1]))
    ensures r == [] <==> AllSpace(s)
    ensures LeadingSpaces(s) + |r| <= |s|
    ensures forall i :: 0 <= i < |r| ==> r[i] == s[LeadingSpaces(s) + i]
  {
    var a := LeadingSpaces(s);
    var t := s[a..];
    var b := TrailingStart(t);
    assert s[a..a + b] == t[..b];
    t[..b]
  }

  /** A string without surrounding white space is its own trim. */
  lemma TrimNoop(s: string)
    requires s == [] || (!IsSpace(s[0]) && !IsSpace(s[|s| - 1]))
    ensures Trim(s) == s
  {
  }

  /** The first white-space position at or after `from`, or `|s|`. */
  function NextSpace(s: string, from: nat): (k: nat)
    requires from <= |s|
    ensures from <= k <= |s|
    ensures forall i :: from <= i < k ==> !IsSpace(s[i])
    ensures k < |s| ==> IsSpace(s[k])
    decreases |s| - from
  {
    if from == |s| || IsSpace(s[from]) then from else NextSpace(s, from + 1)
  }

  /** The end of the white-space run that starts at `from`. */
  function RunEnd(s: string, from: nat): (k: nat)
    requires from <= |s|
    ensures from <= k <= |s|
    ensures forall i :: from <= i < k ==> IsSpace(s[i])
    ensures k < |s| ==> !IsSpace(s[k])
    decreases |s| - from
  {
    if from < |s| && IsSpace(s[from]) then RunEnd(s, from + 1) else from
  }

  /** `s.split(/\s+/)`: the pieces between maximal white-space runs; a
      leading or trailing run yields an empty piece, and the empty string
      yields a single empty piece. */
  function Split(s: string): (r: seq<string>)
    ensures |r| >= 1
    ensures forall i :: 0 <= i < |r| ==> NoSpace(r[i])
    ensures NoSpace(s) ==> r == [s]
    decreases |s|
  {
    var i := NextSpace(s, 0);
    if i == |s| then [s]
    else
      var j := RunEnd(s, i);
      [s[..i]] + Split(s[j..])
  }

  /** Words joined by single spaces. */
  function JoinWords(ws: seq<string>): string
  {
    if ws == [] then "" else if |ws| == 1 then ws[0] else ws[0] + " " + JoinWords(ws[1..])
  }

  /** Splitting undoes joining: non-empty space-free words joined by single
      spaces split back into the same words. */
  lemma {:induction false} SplitJoin(ws: seq<string>)
    requires |ws| >= 1
    requires forall i :: 0 <= i < |ws| ==> ws[i] != [] && NoSpace(ws[i])
    ensures Split(JoinWords(ws)) == ws
  {
    if |ws| > 1 {
      var rest := JoinWords(ws[1..]);
      var s := ws[0] + " " + rest;
      assert s == JoinWords(ws);
      SplitJoin(ws[1..]);
      assert rest != [] && !IsSpace(rest[0]) by { JoinStart(ws[1..]); }
      var i := NextSpace(s, 0);
      assert s[|ws[0]|] == ' ';
      assert i == |ws[0]|;
      assert s[i + 1] == rest[0];
      assert RunEnd(s, i) == i + 1 by {
        assert RunEnd(s, i + 1) == i + 1;
      }
      assert s[..i] == ws[0];
      assert s[i + 1..] == rest;
    }
  }

  lemma {:induction false} JoinStart(ws: seq<string>)
    requires |ws| >= 1 && ws[0] != [] && NoSpace(ws[0])
    ensures JoinWords(ws) != [] && JoinWords(ws)[0] == ws[0][0]
  {
  }

  /** Splitting a string with no surrounding white space (the trimmed query)
      yields only non-empty pieces, unless the string is empty. */
  lemma {:induction false} SplitTrimmedNonEmpty(s: string)
    requires s != [] && !IsSpace(s[0]) && !IsSpace(s[|s| - 1])
    ensures forall i :: 0 <= i < |Split(s)| ==> Split(s)[i] != []
    decreases |s|
  {
    var i := NextSpace(s, 0);
    if i < |s| {
      var j := RunEnd(s, i);
      assert j < |s|;
      assert i > 0;
      var t := s[j..];
      assert t[0] == s[j] && t[|t| - 1] == s[|s| - 1];
      SplitTrimmedNonEmpty(t);
      assert Split(s) == [s[..i]] + Split(t);
    }
  }

  /** `s.includes(t)` holds with `t` found at position `i`. */
  predicate OccursAt(s: string, t: string, i: nat)
  {
    i + |t| <= |s| && s[i..i + |t|] == t
  }

  /** `s.includes(t)`. */
  predicate Contains(s: string, t: string)
  {
    exists i :: 0 <= i <= |s| - |t| && OccursAt(s, t, i)
  }

  /** A blank text contains only blank texts. */
  lemma BlankContainsBlank(s: string, t: string)
    requires AllSpace(s) && Contains(s, t)
    ensures AllSpace(t)
  {
    var i :| 0 <= i <= |s| - |t| && OccursAt(s, t, i);
    forall j | 0 <= j < |t| ensures IsSpace(t[j]) {
      assert t[j] == s[i..i + |t|][j] == s[i + j];
    }
  }

  /** A character of `t` that `s` lacks rules out `s.includes(t)`. */
  lemma MissingCharNotContained(s: string, t: string, c: char)
    requires c in t && c !in s
    ensures !Contains(s, t)
  {
    var k :| 0 <= k < |t| && t[k] == c;
    forall i | 0 <= i <= |s| - |t| ensures !OccursAt(s, t, i) {
      assert s[i..i + |t|][k] == s[i + k];
      assert s[i + k] in s;
    }
  }

  /** Every string includes itself. */
  lemma ContainsSelf(s: string)
    ensures Contains(s, s)
  {
    assert OccursAt(s, s, 0);
  }

  /** The characters `\w` matches. */
  predicate IsWordChar(c: char)
  {
    ('a' <= c <= 'z') || ('A' <= c <= 'Z') || ('0' <= c <= '9') || c == '_'
  }

  predicate WordAt(s: string, k: int)
  {
    0 <= k < |s| && IsWordChar(s[k])
  }

  /** `\b` holds between positions `k - 1` and `k`. */
  predicate Boundary(s: string, k: int)
  {
    WordAt(s, k - 1) != WordAt(s, k)
  }

  /** `new RegExp("\\b" + t + "\\b").test(s)` for a pattern `t` free of
      regular-expression syntax characters. */
  predicate ContainsWord(s: string, t: string)
  {
    exists i :: 0 <= i <= |s| - |t| && OccursAt(s, t, i) && Boundary(s, i) && Boundary(s, i + |t|)
  }

  /** A whole-word match is in particular a substring match. */
  lemma WordImpliesContains(s: string, t: string)
    ensures ContainsWord(s, t) ==> Contains(s, t)
  {
  }

  /** A non-empty word-character string matches itself as a whole word. */
  lemma ContainsWordSelf(s: string)
    requires s != [] && IsWordChar(s[0]) && IsWordChar(s[|s| - 1])
    ensures ContainsWord(s, s)
  {
    assert OccursAt(s, s, 0) && Boundary(s, 0) && Boundary(s, |s|);
  }

  /** The characters that carry meaning inside a JavaScript regular
      expression. */
  predicate IsRegexSyntax(c: char)
  {
    c == '\\' || c == '^' || c == '$' || c == '.' || c == '|' || c == '?' || c == '*'
    || c == '+' || c == '(' || c == ')' || c == '[' || c == ']' || c == '{' || c == '}'
  }

  predicate NoRegexSyntax(s: string)
  {
    forall i :: 0 <= i < |s| ==> !IsRegexSyntax(s[i])
  }

  predicate IsDigit(c: char)
  {
    '0' <= c <= '9'
  }

  predicate AllDigits(s: string)
  {
    forall i :: 0 <= i < |s| ==> IsDigit(s[i])
  }

  /** The position of the first ASCII digit at or after `from`, or `|s|`. */
  function NextDigit(s: string, from: nat): (k: nat)
    requires from <= |s|
    ensures from <= k <= |s|
    ensures forall i :: from <= i < k ==> !IsDigit(s[i])
    ensures k < |s| ==> IsDigit(s[k])
    decreases |s| - from
  {
    if from == |s| || IsDigit(s[from]) then from else NextDigit(s, from + 1)
  }

  /** The end of the digit run that starts at `from`. */
  function DigitRunEnd(s: string, from: nat): (k: nat)
    requires from <= |s|
    ensures from <= k <= |s|
    ensures forall i :: from <= i < k ==> IsDigit(s[i])
    ensures k < |s| ==> !IsDigit(s[k])
    decreases |s| - from
  {
    if from < |s| && IsDigit(s[from]) then DigitRunEnd(s, from + 1) else from
  }

  /** `s.match(/\d+/)`: the first maximal run of ASCII digits. */
  function FirstDigitRun(s: string): (r: Option<string>)
    ensures r.None? <==> forall i :: 0 <= i < |s| ==> !IsDigit(s[i])
    ensures r.Some? ==> r.value != [] && AllDigits(r.value) && Contains(s, r.value)
  {
    var i := NextDigit(s, 0);
    if i == |s| then None
    else
      var j := DigitRunEnd(s, i);
      assert OccursAt(s, s[i..j], i);
      Some(s[i..j])
  }

  function DigitValue(c: char): nat
    requires IsDigit(c)
  {
    c as int - '0' as int
  }

  /** `parseInt` of a string of decimal digits. */
  function ParseDigits(s: string): (n: nat)
    requires AllDigits(s)
    decreases |s|
  {
    if s == [] then 0 else 10 * ParseDigits(s[..|s| - 1]) + DigitValue(s[|s| - 1])
  }

  /** Decimal digits of a natural number, most significant first. */
  function ShowNat(n: nat): (s: string)
    ensures s != [] && AllDigits(s)
  {
    if n < 10 then [('0' as int + n) as char]
    else ShowNat(n / 10) + [('0' as int + n % 10) as char]
  }

  /** Parsing the decimal writing of a number gives the number back. */
  lemma {:induction false} ParseShow(n: nat)
    ensures ParseDigits(ShowNat(n)) == n
  {
    if n >= 10 {
      var s := ShowNat(n);
      assert s[..|s| - 1] == ShowNat(n / 10);
      ParseShow(n / 10);
    }
  }

  /** `s.split(c)[0]`: the text before the first `c`, or all of it. */
  function Before(s: string, c: char): (r: string)
    ensures |r| <= |s| && r == s[..|r|]
    ensures c !in r
    ensures |r| < |s| ==> s[|r|] == c
  {
    if s == [] || s[0] == c then []
    else [s[0]] + Before(s[1..], c)
  }

  /** `s.indexOf(t, from)`: the first position at or after `from` where `t`
      occurs. */
  function IndexOf(s: string, t: string, from: nat): (r: Option<nat>)
    ensures r.Some? ==> from <= r.value && OccursAt(s, t, r.value)
    ensures r.Some? ==> forall i :: from <= i < r.value ==> !OccursAt(s, t, i)
    ensures r.None? ==> forall i :: from <= i ==> !OccursAt(s, t, i)
    decreases |s| - from
  {
    if from + |t| > |s| then None
    else if OccursAt(s, t, from) then Some(from)
    else IndexOf(s, t, from + 1)
  }

  /** `s.replace(t, '')` with a string pattern: only the first occurrence
      goes. */
  function DeleteFirst(s: string, t: string): (r: string)
    ensures IndexOf(s, t, 0).None? ==> r == s
    ensures IndexOf(s, t, 0).Some? ==>
      var k := IndexOf(s, t, 0).value;
      r == s[..k] + s[k + |t|..]
  {
    match IndexOf(s, t, 0)
    case None => s
    case Some(k) => s[..k] + s[k + |t|..]
  }

  /** A string without `c` is all before `c`. */
  lemma BeforeAbsent(s: string, c: char)
    requires c !in s
    ensures Before(s, c) == s
  {
  }

  /** The text before the first `c` of `a + [c] + b`, when `a` has none. */
  lemma BeforeFirst(a: string, c: char, b: string)
    requires c !in a
    ensures Before(a + [c] + b, c) == a
  {
    var s := a + [c] + b;
    var r := Before(s, c);
    assert forall i :: 0 <= i < |a| ==> s[i] == a[i] && s[i] != c;
    assert s[|a|] == c;
    assert forall i :: 0 <= i < |r| ==> r[i] == s[i];
  }

  /** Deleting a string's own beginning leaves the rest. */
  lemma DeleteFirstAtStart(t: string, rest: string)
    requires t != []
    ensures DeleteFirst(t + rest, t) == rest
  {
    assert OccursAt(t + rest, t, 0);
  }

  /** Deleting the first comma of digits, a comma and more. */
  lemma DeleteCommaAfterDigits(a: string, b: string)
    requires AllDigits(a)
    ensures DeleteFirst(a + "," + b, ",") == a + b
  {
    var s := a + "," + b;
    assert OccursAt(s, ",", |a|);
    forall i | 0 <= i < |a| ensures !OccursAt(s, ",", i) {
      assert s[i..i + 1][0] == a[i];
    }
    assert s[..|a|] == a && s[|a| + 1..] == b;
  }
}

