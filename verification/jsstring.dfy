/** The JavaScript string operations the storefront relies on, over `seq<char>`:
    `trim`, `replace(/\D/g, '')`, `slice(0, n)`, `startsWith`, `includes`,
    ASCII `toLowerCase`, `split`/`join`, `String(n)` for naturals and `parseInt`.
 */
module JsString {
  import opened Values

  // ---------------------------------------------------------------------------
  // Character classes
  // ---------------------------------------------------------------------------

  /** The characters `String.prototype.trim` removes: ECMAScript WhiteSpace
      (TAB, VT, FF, SP, NBSP, ZWNBSP and the Unicode Zs category) and
      LineTerminator (LF, CR, LS, PS). */
  predicate IsWhitespace(c: char) {
    || c == '\t' || c == '\n' || c == '\U{000B}' || c == '\U{000C}' || c == '\r'
    || c == ' ' || c == '\U{00A0}' || c == '\U{1680}'
    || ('\U{2000}' <= c <= '\U{200A}')
    || c == '\U{2028}' || c == '\U{2029}' || c == '\U{202F}' || c == '\U{205F}'
    || c == '\U{3000}' || c == '\U{FEFF}'
  }

  /** `\d` of a non-Unicode regular expression: ASCII digits only. */
  predicate IsDigit(c: char) {
    '0' <= c <= '9'
  }

  predicate AllDigits(s: string) {
    forall i :: 0 <= i < |s| ==> IsDigit(s[i])
  }

  predicate AllWhitespace(s: string) {
    forall i :: 0 <= i < |s| ==> IsWhitespace(s[i])
  }

  // ---------------------------------------------------------------------------
  // trim
  // ---------------------------------------------------------------------------

  /** `trimStart`: the longest suffix of `s` that does not begin with whitespace. */
  function TrimStart(s: string): (r: string)
    ensures |r| <= |s| && r == s[|s| - |r|..]
    ensures r == [] || !IsWhitespace(r[0])
    ensures forall k :: 0 <= k < |s| - |r| ==> IsWhitespace(s[k])
  {
    if |s| > 0 && IsWhitespace(s[0]) then TrimStart(s[1..]) else s
  }

  /** `trimEnd`: the longest prefix of `s` that does not end with whitespace. */
  function TrimEnd(s: string): (r: string)
    ensures |r| <= |s| && r == s[..|r|]
    ensures r == [] || !IsWhitespace(r[|r| - 1])
    ensures forall k :: |r| <= k < |s| ==> IsWhitespace(s[k])
  {
    if |s| > 0 && IsWhitespace(s[|s| - 1]) then TrimEnd(s[..|s| - 1]) else s
  }

  /** `trim`: both ends stripped of whitespace. */
  function Trim(s: string): (r: string)
    ensures |r| <= |s|
    ensures r == [] || (!IsWhitespace(r[0]) && !IsWhitespace(r[|r| - 1]))
    ensures r == [] <==> AllWhitespace(s)
  {
    var t := TrimStart(s);
    var r := TrimEnd(t);
    assert r == [] ==> t == [];
    r
  }

  /** Trimming is idempotent. */
  lemma TrimIdempotent(s: string)
    ensures Trim(Trim(s)) == Trim(s)
  {
    var r := Trim(s);
    assert TrimStart(r) == r;
  }

  /** Trimming a string that has no whitespace at either end returns it unchanged. */
  lemma TrimOfTrimmed(s: string)
    requires s == [] || (!IsWhitespace(s[0]) && !IsWhitespace(s[|s| - 1]))
    ensures Trim(s) == s
  {
  }

  /** Whitespace padding added on either side of an already trimmed string is
      removed again by `trim`. */
  lemma {:induction false} TrimPadded(pre: string, s: string, post: string)
    requires AllWhitespace(pre) && AllWhitespace(post)
    requires s != [] && !IsWhitespace(s[0]) && !IsWhitespace(s[|s| - 1])
    ensures Trim(pre + s + post) == s
  {
    TrimStartPadded(pre, s + post);
    assert pre + s + post == pre + (s + post);
    TrimEndPadded(s, post);
  }

  lemma {:induction false} TrimStartPadded(pre: string, s: string)
    requires AllWhitespace(pre)
    requires s != [] && !IsWhitespace(s[0])
    ensures TrimStart(pre + s) == s
  {
    if pre != [] {
      assert (pre + s)[1..] == pre[1..] + s;
      TrimStartPadded(pre[1..], s);
    }
  }

  lemma {:induction false} TrimEndPadded(s: string, post: string)
    requires AllWhitespace(post)
    requires s != [] && !IsWhitespace(s[|s| - 1])
    ensures TrimEnd(s + post) == s
  {
    if post != [] {
      assert (s + post)[..|s + post| - 1] == s + post[..|post| - 1];
      TrimEndPadded(s, post[..|post| - 1]);
    }
  }

  // ---------------------------------------------------------------------------
  // replace(/\D/g, ''), slice(0, n), startsWith, includes
  // ---------------------------------------------------------------------------

  /** `s.replace(/\D/g, '')`: keeps exactly the ASCII digits of `s`, in order. */
  function StripNonDigits(s: string): (r: string)
    ensures AllDigits(r) && |r| <= |s|
    ensures AllDigits(s) ==> r == s
  {
    if s == [] then []
    else (if IsDigit(s[0]) then [s[0]] else []) + StripNonDigits(s[1..])
  }

  /** Removing non-digits distributes over concatenation (typing more text
      only ever appends digits). */
  lemma {:induction false} StripNonDigitsAppend(a: string, b: string)
    ensures StripNonDigits(a + b) == StripNonDigits(a) + StripNonDigits(b)
  {
    if a != [] {
      assert (a + b)[1..] == a[1..] + b;
      StripNonDigitsAppend(a[1..], b);
    } else {
      assert a + b == b;
    }
  }

  /** `s.slice(0, n)` for a non-negative `n`. */
  function Take(s: string, n: nat): (r: string)
    ensures |r| == if n <= |s| then n else |s|
    ensures r == s[..|r|]
  {
    if n <= |s| then s[..n] else s
  }

  /** `s.startsWith(p)`. */
  predicate StartsWith(s: string, p: string) {
    |p| <= |s| && s[..|p|] == p
  }

  /** A string starts with each of its prefixes, and what follows is the rest. */
  lemma PrefixThenRest(p: string, s: string)
    ensures StartsWith(p + s, p) && (p + s)[|p|..] == s
  {
    assert (p + s)[..|p|] == p;
  }

  /** The character placed after `a` sits at index `|a|`, followed by `b`. */
  lemma CharAfter(a: string, c: char, b: string)
    ensures (a + ([c] + b))[|a|] == c && (a + ([c] + b))[|a| + 1..] == b
  {
  }

  /** `t` occurs in `s` at position `i`. */
  predicate OccursAt(s: string, t: string, i: int) {
    0 <= i && i + |t| <= |s| && s[i..i + |t|] == t
  }

  /** `s.indexOf(t)`, with `Null` for -1. */
  function IndexOf(s: string, t: string): (r: Maybe<nat>)
    ensures r.Some? ==> OccursAt(s, t, r.value)
    ensures r.Some? ==> forall j :: 0 <= j < r.value ==> !OccursAt(s, t, j)
    ensures r.Null? ==> forall j :: 0 <= j ==> !OccursAt(s, t, j)
  {
    if |t| > |s| then Null
    else if s[..|t|] == t then Some(0)
    else
      match IndexOf(s[1..], t)
      case Null =>
        assert forall j :: 1 <= j ==> OccursAt(s, t, j) == OccursAt(s[1..], t, j - 1);
        Null
      case Some(i) =>
        assert forall j :: 1 <= j ==> OccursAt(s, t, j) == OccursAt(s[1..], t, j - 1);
        Some(i + 1)
  }

  /** `s.includes(t)`. */
  predicate Contains(s: string, t: string) {
    IndexOf(s, t).Some?
  }

  /** `s.includes(t)` holds exactly when `t` occurs somewhere in `s`. */
  lemma ContainsIff(s: string, t: string)
    ensures Contains(s, t) <==> exists i :: OccursAt(s, t, i)
  {
  }

  /** A one-character string occurs in `s` exactly when the character does. */
  lemma ContainsChar(s: string, c: char)
    ensures Contains(s, [c]) <==> c in s
  {
    ContainsIff(s, [c]);
    forall i | 0 <= i < |s|
      ensures OccursAt(s, [c], i) <==> s[i] == c
    {
      assert s[i..i + 1] == [s[i]];
    }
  }

  /** The first `c` of a string whose part before it holds no `c`. */
  lemma IndexOfCharAfter(a: string, c: char, b: string)
    requires c !in a
    ensures IndexOf(a + ([c] + b), [c]) == Some(|a|)
  {
    var s := a + ([c] + b);
    assert s[|a|..|a| + 1] == [c];
    assert OccursAt(s, [c], |a|);
    forall j | 0 <= j < |a|
      ensures !OccursAt(s, [c], j)
    {
      assert s[j..j + 1] == [a[j]];
    }
  }

  /** An occurrence inside a prefix of `s` is an occurrence in `s`. */
  lemma OccursInPrefix(s: string, t: string, n: nat, j: int)
    requires n <= |s|
    requires OccursAt(s[..n], t, j)
    ensures OccursAt(s, t, j)
  {
    assert s[..n][j..j + |t|] == s[j..j + |t|];
  }

  // ---------------------------------------------------------------------------
  // toLowerCase (ASCII)
  // ---------------------------------------------------------------------------

  function LowerChar(c: char): char {
    if 'A' <= c <= 'Z' then (c as int + 32) as char else c
  }

  /** `toLowerCase` restricted to the ASCII letters. */
  function LowerAscii(s: string): (r: string)
    ensures |r| == |s|
    ensures forall i :: 0 <= i < |s| ==> r[i] == LowerChar(s[i])
  {
    seq(|s|, i requires 0 <= i < |s| => LowerChar(s[i]))
  }

  /** Lower-casing twice is lower-casing once, and it leaves digits alone. */
  lemma LowerAsciiIdempotent(s: string)
    ensures LowerAscii(LowerAscii(s)) == LowerAscii(s)
    ensures AllDigits(s) ==> LowerAscii(s) == s
  {
  }

  // ---------------------------------------------------------------------------
  // split / join
  // ---------------------------------------------------------------------------

  /** `s.split(sep)` for a non-empty separator: the pieces between the
      non-overlapping occurrences of `sep`, found left to right. */
  function Split(s: string, sep: string): (parts: seq<string>)
    requires |sep| > 0
    ensures |parts| >= 1
    ensures forall k :: 0 <= k < |parts| ==> !Contains(parts[k], sep)
    decreases |s|
  {
    match IndexOf(s, sep)
    case Null => [s]
    case Some(i) =>
      var head := s[..i];
      assert !Contains(head, sep) by {
        if Contains(head, sep) {
          var j := IndexOf(head, sep).value;
          OccursInPrefix(s, sep, i, j);
        }
      }
      [head] + Split(s[i + |sep|..], sep)
  }

  /** `parts.join(sep)`. */
  function Join(parts: seq<string>, sep: string): string
    requires |parts| >= 1
  {
    if |parts| == 1 then parts[0] else parts[0] + sep + Join(parts[1..], sep)
  }

  /** Splitting and joining again on the same separator gives back the string. */
  lemma {:induction false} SplitJoin(s: string, sep: string)
    requires |sep| > 0
    ensures Join(Split(s, sep), sep) == s
    decreases |s|
  {
    match IndexOf(s, sep)
    case Null =>
    case Some(i) =>
      var rest := s[i + |sep|..];
      var parts := Split(s, sep);
      assert parts == [s[..i]] + Split(rest, sep);
      assert parts[1..] == Split(rest, sep);
      SplitJoin(rest, sep);
      calc {
        Join(parts, sep);
        parts[0] + sep + Join(parts[1..], sep);
        s[..i] + sep + rest;
        { assert s[i..i + |sep|] == sep; }
        s;
      }
  }

  /** A string that begins with the separator and holds no other occurrence
      of it splits into an empty head and the rest. */
  lemma SplitAtStart(sep: string, rest: string)
    requires |sep| > 0 && !Contains(rest, sep)
    ensures Split(sep + rest, sep) == ["", rest]
  {
    var s := sep + rest;
    assert s[..|sep|] == sep;
    assert IndexOf(s, sep) == Some(0);
    assert s[|sep|..] == rest;
    SplitHead(rest, sep);
  }

  /** A string that contains `t` contains the first character of `t`. */
  lemma ContainsFirstChar(s: string, t: string)
    requires |t| > 0 && Contains(s, t)
    ensures Contains(s, [t[0]])
  {
    var j := IndexOf(s, t).value;
    assert s[j..j + 1] == [t[0]];
    assert OccursAt(s, [t[0]], j);
    ContainsIff(s, [t[0]]);
  }

  /** The first piece of `s.split(sep)` is the text before the first occurrence
      of `sep` (all of `s` when there is none). */
  lemma SplitHead(s: string, sep: string)
    requires |sep| > 0
    ensures IndexOf(s, sep).Null? ==> Split(s, sep) == [s]
    ensures IndexOf(s, sep).Some? ==> Split(s, sep)[0] == s[..IndexOf(s, sep).value]
  {
  }

  // ---------------------------------------------------------------------------
  // String(n) and parseInt
  // ---------------------------------------------------------------------------

  function DigitChar(d: nat): char
    requires d < 10
  {
    ('0' as int + d) as char
  }

  function DigitValue(c: char): nat
    requires IsDigit(c)
  {
    c as int - '0' as int
  }

  /** `String(n)` for a natural number: its canonical decimal numeral. */
  function NatToDecimal(n: nat): (r: string)
    ensures |r| >= 1 && AllDigits(r)
    ensures r[0] == '0' ==> n == 0 && r == "0"
  {
    if n < 10 then [DigitChar(n)] else NatToDecimal(n / 10) + [DigitChar(n % 10)]
  }

  /** The number a string of decimal digits denotes. */
  function DecimalValue(s: string): nat
    requires AllDigits(s)
  {
    if s == [] then 0 else DecimalValue(s[..|s| - 1]) * 10 + DigitValue(s[|s| - 1])
  }

  /** Printing a natural and reading it back gives the same number. */
  lemma {:induction false} DecimalRoundTrip(n: nat)
    ensures DecimalValue(NatToDecimal(n)) == n
  {
    if n >= 10 {
      var r := NatToDecimal(n);
      DecimalRoundTrip(n / 10);
      assert r[..|r| - 1] == NatToDecimal(n / 10);
    }
  }

  /** Distinct naturals print differently. */
  lemma NatToDecimalInjective(m: nat, n: nat)
    requires NatToDecimal(m) == NatToDecimal(n)
    ensures m == n
  {
    DecimalRoundTrip(m);
    DecimalRoundTrip(n);
  }

  /** The longest prefix of `s` made of ASCII digits. */
  function LeadingDigits(s: string): (r: string)
    ensures |r| <= |s| && r == s[..|r|] && AllDigits(r)
    ensures |r| == |s| || !IsDigit(s[|r|])
  {
    if s != [] && IsDigit(s[0]) then [s[0]] + LeadingDigits(s[1..]) else []
  }

  /** `parseInt(s)` with radix 10: leading whitespace skipped, an optional sign,
      then the longest run of digits; `Null` stands for `NaN` (no digit). */
  function ParseInt(s: string): (r: Maybe<int>)
    ensures r.Null? <==> LeadingDigits(Unsigned(TrimStart(s))) == []
  {
    var t := TrimStart(s);
    var d := LeadingDigits(Unsigned(t));
    if d == [] then Null
    else if |t| > 0 && t[0] == '-' then Some(-(DecimalValue(d) as int))
    else Some(DecimalValue(d))
  }

  /** The text after an optional leading `+` or `-`. */
  function Unsigned(t: string): (r: string)
    ensures |t| > 0 && (t[0] == '-' || t[0] == '+') ==> r == t[1..]
    ensures !(|t| > 0 && (t[0] == '-' || t[0] == '+')) ==> r == t
  {
    if |t| > 0 && (t[0] == '-' || t[0] == '+') then t[1..] else t
  }

  /** `LeadingDigits` of a digit string followed by text that does not start
      with a digit is that digit string. */
  lemma {:induction false} LeadingDigitsOf(d: string, rest: string)
    requires AllDigits(d)
    requires rest == [] || !IsDigit(rest[0])
    ensures LeadingDigits(d + rest) == d
  {
    if d != [] {
      assert (d + rest)[1..] == d[1..] + rest;
      LeadingDigitsOf(d[1..], rest);
    }
  }

  /** `parseInt(String(n)) === n`. */
  lemma ParseIntOfDecimal(n: nat)
    ensures ParseInt(NatToDecimal(n)) == Some(n)
  {
    var d := NatToDecimal(n);
    assert !IsWhitespace(d[0]) && d[0] != '-' && d[0] != '+';
    assert TrimStart(d) == d;
    assert Unsigned(d) == d;
    LeadingDigitsOf(d, []);
    assert d + [] == d;
    DecimalRoundTrip(n);
  }

  /** `parseInt('-' + String(n)) === -n`. */
  lemma ParseIntOfNegativeDecimal(n: nat)
    ensures ParseInt("-" + NatToDecimal(n)) == Maybe<int>.Some(-(n as int))
  {
    var d := NatToDecimal(n);
    var t := "-" + d;
    assert t[0] == '-' && !IsWhitespace(t[0]);
    assert TrimStart(t) == t;
    assert t[1..] == d;
    assert Unsigned(t) == d;
    LeadingDigitsOf(d, []);
    assert d + [] == d;
    assert LeadingDigits(Unsigned(TrimStart(t))) == d;
    DecimalRoundTrip(n);
    assert DecimalValue(d) == n;
  }
}
