/**
  The JavaScript string operations the catalogue controller relies on, with their
  ECMAScript meaning: `String.prototype.trim`, `split` on a one-character separator,
  `Array.prototype.join`, `filter(Boolean)` on an array of strings and the decimal
  rendering of a non-negative integer inside a template literal.
*/
module JsString {

  /** WhiteSpace and LineTerminator code points, the characters `trim` removes. */
  predicate IsWhite(ch: char) {
    || ch == ' ' || ch == '\t' || ch == '\n' || ch == '\r'
    || ch == '\U{000B}' || ch == '\U{000C}' || ch == '\U{00A0}' || ch == '\U{1680}'
    || ('\U{2000}' <= ch <= '\U{200A}')
    || ch == '\U{2028}' || ch == '\U{2029}' || ch == '\U{202F}' || ch == '\U{205F}'
    || ch == '\U{3000}' || ch == '\U{FEFF}'
  }

  predicate AllWhite(s: string) {
    forall k :: 0 <= k < |s| ==> IsWhite(s[k])
  }

  /** Neither starts nor ends with white space. */
  predicate IsTrimmed(s: string) {
    s == [] || (!IsWhite(s[0]) && !IsWhite(s[|s| - 1]))
  }

  /** How many white space characters `s` starts with. */
  function LeadingWhite(s: string): (n: nat)
    ensures n <= |s|
    ensures forall k :: 0 <= k < n ==> IsWhite(s[k])
    ensures n == |s| || !IsWhite(s[n])
    decreases |s|
  {
    if |s| > 0 && IsWhite(s[0]) then
      var t := s[1..];
      var m := LeadingWhite(t);
      assert forall k :: 1 <= k <= m ==> s[k] == t[k - 1];
      1 + m
    else 0
  }

  /** The length `s` keeps once its trailing white space is dropped. */
  function KeptLength(s: string): (n: nat)
    ensures n <= |s|
    ensures forall k :: n <= k < |s| ==> IsWhite(s[k])
    ensures n == 0 || !IsWhite(s[n - 1])
    decreases |s|
  {
    if |s| > 0 && IsWhite(s[|s| - 1]) then
      var p := s[..|s| - 1];
      var m := KeptLength(p);
      assert forall k :: 0 <= k < |p| ==> s[k] == p[k];
      m
    else |s|
  }

  /** Drops the leading white space: what remains is a suffix of `s`. */
  function TrimStart(s: string): (r: string)
    ensures r == [] || !IsWhite(r[0])
  {
    s[LeadingWhite(s)..]
  }

  /** Drops the trailing white space: what remains is a prefix of `s`. */
  function TrimEnd(s: string): (r: string)
    ensures r == [] || !IsWhite(r[|r| - 1])
  {
    s[..KeptLength(s)]
  }

  /** `s.trim()` */
  function Trim(s: string): (r: string)
    ensures IsTrimmed(r) && |r| <= |s|
  {
    TrimEnd(TrimStart(s))
  }

  lemma TrimDecomposes(s: string) returns (lead: string, trail: string)
    ensures s == lead + Trim(s) + trail
    ensures AllWhite(lead) && AllWhite(trail)
  {
    lead := StartDecomposes(s);
    var t := TrimStart(s);
    trail := EndDecomposes(t);
    var r := TrimEnd(t);
    assert Trim(s) == r;
    assert s == lead + (r + trail);
    AppendAssoc(lead, r, trail);
  }

  lemma AppendAssoc<T>(a: seq<T>, b: seq<T>, c: seq<T>)
    ensures a + (b + c) == a + b + c
  {
  }

  lemma StartDecomposes(s: string) returns (lead: string)
    ensures s == lead + TrimStart(s) && AllWhite(lead)
  {
    var i := LeadingWhite(s);
    lead := s[..i];
    assert s == s[..i] + s[i..];
  }

  lemma EndDecomposes(t: string) returns (trail: string)
    ensures t == TrimEnd(t) + trail && AllWhite(trail)
  {
    var j := KeptLength(t);
    trail := t[j..];
    assert t == t[..j] + t[j..];
  }

  lemma {:induction false} TrimStartPadded(w: string, t: string)
    requires AllWhite(w)
    requires t == [] || !IsWhite(t[0])
    ensures LeadingWhite(w + t) == |w| && TrimStart(w + t) == t
    decreases |w|
  {
    if |w| == 0 {
      assert w + t == t;
    } else {
      assert (w + t)[0] == w[0];
      assert (w + t)[1..] == w[1..] + t;
      TrimStartPadded(w[1..], t);
    }
    assert (w + t)[|w|..] == t;
  }

  lemma {:induction false} TrimEndPadded(t: string, w: string)
    requires AllWhite(w)
    requires t == [] || !IsWhite(t[|t| - 1])
    ensures KeptLength(t + w) == |t| && TrimEnd(t + w) == t
    decreases |w|
  {
    if |w| == 0 {
      assert t + w == t;
    } else {
      assert (t + w)[|t + w| - 1] == w[|w| - 1];
      assert (t + w)[..|t + w| - 1] == t + w[..|w| - 1];
      TrimEndPadded(t, w[..|w| - 1]);
    }
    assert (t + w)[..|t|] == t;
  }

  /** `trim` is determined by its result: padding a trimmed string with white space
      on either side and trimming gives that string back. */
  lemma TrimOfPadded(lead: string, x: string, trail: string)
    requires AllWhite(lead) && AllWhite(trail) && IsTrimmed(x)
    ensures Trim(lead + x + trail) == x
  {
    if x == [] {
      assert lead + x + trail == (lead + trail) + [];
      TrimStartPadded(lead + trail, []);
    } else {
      assert lead + x + trail == lead + (x + trail);
      TrimStartPadded(lead, x + trail);
      TrimEndPadded(x, trail);
    }
  }

  lemma TrimIdempotent(s: string)
    ensures Trim(Trim(s)) == Trim(s)
  {
    var x := Trim(s);
    assert [] + x + [] == x;
    TrimOfPadded([], x, []);
  }

  /** `trim` yields "" exactly on strings made only of white space. */
  lemma TrimEmptyIff(s: string)
    ensures Trim(s) == "" <==> AllWhite(s)
  {
    var lead, trail := TrimDecomposes(s);
    if AllWhite(s) {
      assert s == s + [] + [];
      TrimOfPadded(s, [], []);
    }
  }

  /** The index of the first `sep` in `s`, or |s| when there is none. */
  function IndexOf(s: string, sep: char): (i: nat)
    ensures i <= |s|
    ensures forall k :: 0 <= k < i ==> s[k] != sep
    ensures i < |s| ==> s[i] == sep
    decreases |s|
  {
    if |s| == 0 || s[0] == sep then 0
    else
      var t := s[1..];
      var m := IndexOf(t, sep);
      assert forall k :: 1 <= k <= m ==> s[k] == t[k - 1];
      1 + m
  }

  /** The first separator is determined by the two properties that define it. */
  lemma IndexOfIs(s: string, sep: char, i: nat)
    requires i <= |s| && (forall k :: 0 <= k < i ==> s[k] != sep) && (i < |s| ==> s[i] == sep)
    ensures IndexOf(s, sep) == i
  {
  }

  /** `s.split(sep)` for a one-character separator: the text up to the first separator,
      then the pieces of what follows it. As in JavaScript, "" splits into [""] and
      adjacent separators produce empty pieces. */
  function Split(s: string, sep: char): (r: seq<string>)
    ensures |r| >= 1
    ensures forall k :: 0 <= k < |r| ==> sep !in r[k]
    decreases |s|
  {
    var i := IndexOf(s, sep);
    if i == |s| then [s] else [s[..i]] + Split(s[i + 1..], sep)
  }

  /** `parts.join(sep)` with a one-character separator. */
  function Join(parts: seq<string>, sep: char): string
    decreases |parts|
  {
    if |parts| == 0 then ""
    else if |parts| == 1 then parts[0]
    else parts[0] + [sep] + Join(parts[1..], sep)
  }

  predicate NoSep(parts: seq<string>, sep: char) {
    forall k :: 0 <= k < |parts| ==> sep !in parts[k]
  }

  /** Joining the pieces of a split rebuilds the string. */
  lemma {:induction false} JoinSplit(s: string, sep: char)
    ensures Join(Split(s, sep), sep) == s
    decreases |s|
  {
    var i := IndexOf(s, sep);
    if i < |s| {
      var t := s[i + 1..];
      var rest := Split(t, sep);
      JoinSplit(t, sep);
      assert ([s[..i]] + rest)[1..] == rest;
      assert s == s[..i] + [sep] + t;
    }
  }

  /** A string without the separator splits into itself. */
  lemma SplitNoSep(x: string, sep: char)
    requires sep !in x
    ensures Split(x, sep) == [x]
  {
  }

  /** Splitting at a separator splits the two sides independently. */
  lemma {:induction false} SplitAround(a: string, b: string, sep: char)
    ensures Split(a + [sep] + b, sep) == Split(a, sep) + Split(b, sep)
    decreases |a|
  {
    var s := a + [sep] + b;
    var i := IndexOf(a, sep);
    assert forall k :: 0 <= k < |a| ==> s[k] == a[k];
    IndexOfIs(s, sep, i);
    assert s[..i] == a[..i];
    if i == |a| {
      assert a[..i] == a;
      assert s[i + 1..] == b;
    } else {
      var t := a[i + 1..];
      assert s[i + 1..] == t + [sep] + b;
      SplitAround(t, b, sep);
      AppendAssoc([a[..i]], Split(t, sep), Split(b, sep));
    }
  }

  /** Splitting a joined list gives the list back, when no part holds the separator. */
  lemma {:induction false} SplitJoin(parts: seq<string>, sep: char)
    requires |parts| >= 1 && NoSep(parts, sep)
    ensures Split(Join(parts, sep), sep) == parts
    decreases |parts|
  {
    if |parts| == 1 {
      SplitNoSep(parts[0], sep);
    } else {
      var rest := parts[1..];
      assert NoSep(rest, sep) by {
        assert forall k :: 0 <= k < |rest| ==> rest[k] == parts[k + 1];
      }
      SplitFirst(parts[0], Join(rest, sep), sep);
      SplitJoin(rest, sep);
      assert parts == [parts[0]] + rest;
    }
  }

  /** A first part without the separator comes back whole, ahead of the pieces of the rest. */
  lemma SplitFirst(a: string, b: string, sep: char)
    requires sep !in a
    ensures Split(a + [sep] + b, sep) == [a] + Split(b, sep)
  {
    SplitAround(a, b, sep);
    SplitNoSep(a, sep);
  }

  /** Splitting a joined list whose last part may hold the separator gives the other
      parts back, followed by the pieces of the last part. */
  lemma {:induction false} SplitJoinLast(parts: seq<string>, last: string, sep: char)
    requires |parts| >= 1 && NoSep(parts, sep)
    ensures Split(Join(parts + [last], sep), sep) == parts + Split(last, sep)
  {
    JoinAppend(parts, last, sep);
    SplitAround(Join(parts, sep), last, sep);
    SplitJoin(parts, sep);
  }

  /** Joining one more part appends a separator and the part. */
  lemma {:induction false} JoinAppend(parts: seq<string>, last: string, sep: char)
    requires |parts| >= 1
    ensures Join(parts + [last], sep) == Join(parts, sep) + [sep] + last
    decreases |parts|
  {
    var all := parts + [last];
    assert all[1..] == parts[1..] + [last];
    if |parts| > 1 {
      JoinAppend(parts[1..], last, sep);
    }
  }

  /** `s[i..j]` is bounded by separators: it starts at the beginning or right after a
      separator and ends at the end or right before one. */
  predicate Delimited(s: string, sep: char, i: nat, j: nat) {
    i <= j <= |s| && (i == 0 || s[i - 1] == sep) && (j == |s| || s[j] == sep)
  }

  /** `x` is a whole separator-delimited field of `s`. */
  ghost predicate IsField(x: string, s: string, sep: char) {
    sep !in x && exists i: nat, j: nat :: Delimited(s, sep, i, j) && s[i..j] == x
  }

  /** Every piece of a split is a field of the string. */
  lemma {:induction false} PieceIsField(s: string, sep: char, x: string)
    requires x in Split(s, sep)
    ensures IsField(x, s, sep)
    decreases |s|
  {
    var n := IndexOf(s, sep);
    if n == |s| {
      assert x == s;
      assert Delimited(s, sep, 0, |s|) && s[0..|s|] == x;
    } else if x == s[..n] {
      assert Delimited(s, sep, 0, n) && s[0..n] == x;
    } else {
      var t := s[n + 1..];
      assert x in Split(t, sep);
      PieceIsField(t, sep, x);
      FieldAfter(s, sep, n + 1, x);
    }
  }

  /** A field of the text after a separator is a field of the whole string. */
  lemma FieldAfter(s: string, sep: char, d: nat, x: string)
    requires 1 <= d <= |s| && s[d - 1] == sep && IsField(x, s[d..], sep)
    ensures IsField(x, s, sep)
  {
    var i: nat, j: nat :| Delimited(s[d..], sep, i, j) && s[d..][i..j] == x;
    DelimitedShift(s, sep, d, i, j);
  }

  /** A delimited range of the text after a separator is a delimited range of the whole. */
  lemma DelimitedShift(s: string, sep: char, d: nat, i: nat, j: nat)
    requires 1 <= d <= |s| && s[d - 1] == sep && Delimited(s[d..], sep, i, j)
    ensures Delimited(s, sep, d + i, d + j) && s[d..][i..j] == s[d + i..d + j]
  {
  }

  /** The pieces of a split are exactly the separator-delimited fields of the string:
      `s.split(sep).includes(x)` tests whether `x` is one of those fields. */
  lemma SplitContainsIff(s: string, sep: char, x: string)
    ensures x in Split(s, sep) <==> IsField(x, s, sep)
  {
    if x in Split(s, sep) {
      PieceIsField(s, sep, x);
    }
    if IsField(x, s, sep) {
      var i: nat, j: nat :| Delimited(s, sep, i, j) && s[i..j] == x;
      FieldIsPiece(s, sep, i, j);
    }
  }

  lemma {:induction false} FieldIsPiece(s: string, sep: char, i: nat, j: nat)
    requires Delimited(s, sep, i, j) && sep !in s[i..j]
    ensures s[i..j] in Split(s, sep)
    decreases |s|
  {
    var n := IndexOf(s, sep);
    if i == 0 {
      assert forall k :: 0 <= k < j ==> s[k] == s[i..j][k];
      IndexOfIs(s, sep, j);
      assert Split(s, sep)[0] == s[..j] == s[i..j];
    } else {
      var d := n + 1;
      assert s[i - 1] == sep;
      DelimitedUnshift(s, sep, d, i, j);
      FieldIsPiece(s[d..], sep, i - d, j - d);
      assert Split(s, sep) == [s[..n]] + Split(s[d..], sep);
    }
  }

  /** A delimited range past the first separator is a delimited range of the text after it. */
  lemma DelimitedUnshift(s: string, sep: char, d: nat, i: nat, j: nat)
    requires 1 <= d <= i && Delimited(s, sep, i, j) && s[d - 1] == sep
    requires i == d || s[i - 1] == sep
    ensures Delimited(s[d..], sep, i - d, j - d) && s[d..][i - d..j - d] == s[i..j]
  {
  }

  /** `parts.filter(Boolean)`: the non-empty strings, in order. */
  function NonEmpty(parts: seq<string>): (r: seq<string>)
    ensures |r| <= |parts|
    ensures forall k :: 0 <= k < |r| ==> r[k] != ""
    ensures forall p :: p in r <==> p in parts && p != ""
    decreases |parts|
  {
    if |parts| == 0 then []
    else if parts[0] == "" then NonEmpty(parts[1..])
    else [parts[0]] + NonEmpty(parts[1..])
  }

  /** Filtering works piecewise, so it keeps the order of what it keeps. */
  lemma {:induction false} NonEmptyAppend(a: seq<string>, b: seq<string>)
    ensures NonEmpty(a + b) == NonEmpty(a) + NonEmpty(b)
    decreases |a|
  {
    if |a| == 0 {
      assert a + b == b;
    } else {
      assert (a + b)[0] == a[0];
      assert (a + b)[1..] == a[1..] + b;
      NonEmptyAppend(a[1..], b);
    }
  }

  /** `parts.map(p => p.trim())` */
  function TrimAll(parts: seq<string>): (r: seq<string>)
    ensures |r| == |parts| && forall k :: 0 <= k < |r| ==> r[k] == Trim(parts[k])
    ensures forall p :: p in r ==> IsTrimmed(p)
  {
    seq(|parts|, k requires 0 <= k < |parts| => Trim(parts[k]))
  }

  predicate IsDigit(ch: char) {
    '0' <= ch <= '9'
  }

  function DigitValue(ch: char): nat
    requires IsDigit(ch)
  {
    ch as int - '0' as int
  }

  function DigitChar(d: nat): (ch: char)
    requires d < 10
    ensures IsDigit(ch) && DigitValue(ch) == d
  {
    ('0' as int + d) as char
  }

  /** The decimal text of `n`, as `${n}` renders a non-negative integer. */
  function Decimal(n: nat): (r: string)
    ensures |r| >= 1 && forall k :: 0 <= k < |r| ==> IsDigit(r[k])
    ensures r[0] == '0' ==> n == 0
  {
    if n < 10 then [DigitChar(n)] else Decimal(n / 10) + [DigitChar(n % 10)]
  }

  /** The number a string of decimal digits denotes. */
  function DigitsValue(s: string): nat
    requires forall k :: 0 <= k < |s| ==> IsDigit(s[k])
  {
    if |s| == 0 then 0
    else DigitsValue(s[..|s| - 1]) * 10 + DigitValue(s[|s| - 1])
  }

  lemma {:induction false} DecimalRoundTrip(n: nat)
    ensures DigitsValue(Decimal(n)) == n
  {
    if n >= 10 {
      DecimalRoundTrip(n / 10);
      var r := Decimal(n);
      assert r[..|r| - 1] == Decimal(n / 10);
    }
  }
}
