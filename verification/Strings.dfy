/** The string operations that snapshot names are made of and taken apart with, as the Go
    packages strings, strconv, fmt and path define them. */
module Strings {
  import opened SnapTypes

  // ---------------------------------------------------------------------------
  // Splitting
  // ---------------------------------------------------------------------------

  /** Position of the first `c`, or the length. */
  function IndexOf(s: string, c: char): (i: nat)
    ensures i <= |s|
    ensures forall k :: 0 <= k < i ==> s[k] != c
    ensures i < |s| ==> s[i] == c
  {
    if s == "" || s[0] == c then 0 else 1 + IndexOf(s[1..], c)
  }

  /** strings.Split with a separator of one character. */
  function Split(s: string, sep: char): (parts: seq<string>)
    ensures |parts| > 0
    decreases |s|
  {
    var i := IndexOf(s, sep);
    if i == |s| then [s] else [s[..i]] + Split(s[i + 1..], sep)
  }

  lemma SplitNone(s: string, sep: char)
    requires sep !in s
    ensures Split(s, sep) == [s]
  {
  }

  lemma SplitFirst(a: string, sep: char, b: string)
    requires sep !in a
    ensures Split(a + [sep] + b, sep) == [a] + Split(b, sep)
  {
    var s := a + [sep] + b;
    var i := IndexOf(s, sep);
    assert s[|a|] == sep;
    assert i == |a|;
    assert s[..i] == a && s[i + 1..] == b;
  }

  lemma {:induction false} SplitConcat(a: string, sep: char, b: string)
    ensures Split(a + [sep] + b, sep) == Split(a, sep) + Split(b, sep)
    decreases |a|
  {
    hide Split;
    var i := IndexOf(a, sep);
    if i == |a| {
      SplitFirst(a, sep, b);
      SplitNone(a, sep);
    } else {
      var head, rest := a[..i], a[i + 1..];
      assert sep !in head && a == head + [sep] + rest;
      assert a + [sep] + b == head + [sep] + (rest + [sep] + b);
      SplitFirst(head, sep, rest + [sep] + b);
      SplitFirst(head, sep, rest);
      SplitConcat(rest, sep, b);
    }
  }

  lemma SplitCount(s: string, sep: char)
    ensures |Split(s, sep)| == 1 <==> sep !in s
  {
    if sep !in s { SplitNone(s, sep); }
  }

  /** A string is its first part, the separator and what the other parts came from. */
  lemma SplitParts(s: string, sep: char)
    ensures var parts := Split(s, sep);
            && sep !in parts[0]
            && if |parts| == 1 then s == parts[0]
               else |parts[0]| < |s| && s == parts[0] + [sep] + s[|parts[0]| + 1..]
                    && parts[1..] == Split(s[|parts[0]| + 1..], sep)
  {
  }

  lemma SplitTwo(s: string, sep: char)
    requires |Split(s, sep)| == 2
    ensures var p := Split(s, sep); s == p[0] + [sep] + p[1] && sep !in p[0] && sep !in p[1]
  {
    var rest := s[|Split(s, sep)[0]| + 1..];
    SplitParts(s, sep);
    SplitParts(rest, sep);
    hide Split;
  }

  lemma SplitFour(s: string, sep: char)
    requires |Split(s, sep)| == 4
    ensures var p := Split(s, sep);
            && s == p[0] + [sep] + (p[1] + [sep] + (p[2] + [sep] + p[3]))
            && forall i :: 0 <= i < 4 ==> sep !in p[i]
  {
    hide Split;
    var p := Split(s, sep);
    SplitParts(s, sep);
    var a := s[|p[0]| + 1..];
    SplitParts(a, sep);
    assert p[1..][0] == p[1] && p[1..][1..] == p[2..];
    var b := a[|p[1]| + 1..];
    SplitTwo(b, sep);
    assert p[2..][0] == p[2] && p[2..][1] == p[3];
  }

  predicate OccursAt(s: string, pattern: string, i: nat) {
    i + |pattern| <= |s| && s[i..i + |pattern|] == pattern
  }

  /** strings.LastIndex */
  function LastIndex(s: string, pattern: string): (i: int)
    ensures -1 <= i
    ensures i >= 0 ==> OccursAt(s, pattern, i)
    ensures forall k: nat :: k > i ==> !OccursAt(s, pattern, k)
  {
    LastIndexBefore(s, pattern, |s| + 1)
  }

  function LastIndexBefore(s: string, pattern: string, n: nat): (i: int)
    requires forall k: nat :: k >= n ==> !OccursAt(s, pattern, k)
    ensures -1 <= i
    ensures i >= 0 ==> OccursAt(s, pattern, i)
    ensures forall k: nat :: k > i ==> !OccursAt(s, pattern, k)
  {
    if n == 0 then -1
    else if OccursAt(s, pattern, n - 1) then n - 1
    else LastIndexBefore(s, pattern, n - 1)
  }

  // ---------------------------------------------------------------------------
  // Numbers
  // ---------------------------------------------------------------------------

  predicate IsDigit(c: char) {
    '0' <= c <= '9'
  }

  predicate AllDigits(s: string) {
    forall i :: 0 <= i < |s| ==> IsDigit(s[i])
  }

  function Digit(d: nat): (c: char)
    requires d < 10
    ensures IsDigit(c) && c as int - '0' as int == d
  {
    ('0' as int + d) as char
  }

  /** Decimal digits without leading zeros. */
  function Digits(n: nat): (s: string)
    ensures s != "" && AllDigits(s)
  {
    if n < 10 then [Digit(n)] else Digits(n / 10) + [Digit(n % 10)]
  }

  function Zeros(n: nat): (s: string)
    ensures |s| == n && forall i :: 0 <= i < n ==> s[i] == '0'
  {
    seq(n, _ => '0')
  }

  /** fmt.Sprintf("%0<width>d", n) */
  function Pad(n: int, width: nat): string {
    if n < 0 then "-" + PadNat(-n, if width > 0 then width - 1 else 0) else PadNat(n, width)
  }

  function PadNat(n: nat, width: nat): (s: string)
    ensures s != "" && AllDigits(s)
  {
    var d := Digits(n);
    if |d| < width then Zeros(width - |d|) + d else d
  }

  function Value(s: string): int {
    if s == "" then 0 else 10 * Value(s[..|s| - 1]) + (s[|s| - 1] as int - '0' as int)
  }

  const MAX_INT64 := 0x7fff_ffff_ffff_ffff

  /** strconv.ParseInt(s, 10, 64) */
  function ParseInt(s: string): Option<int> {
    if s == "" then None
    else
      var signed := s[0] == '-' || s[0] == '+';
      var body := if signed then s[1..] else s;
      if body == "" || !AllDigits(body) then None
      else if s[0] == '-' then (if Value(body) > MAX_INT64 + 1 then None else Some(-Value(body)))
      else if Value(body) > MAX_INT64 then None
      else Some(Value(body))
  }

  lemma {:induction false} DigitsValue(n: nat)
    ensures Value(Digits(n)) == n
  {
    if n >= 10 {
      DigitsValue(n / 10);
      assert Digits(n)[..|Digits(n)| - 1] == Digits(n / 10);
    } else {
      assert Digits(n)[..0] == "";
    }
  }

  lemma {:induction false} ZerosValue(k: nat, s: string)
    ensures Value(Zeros(k) + s) == Value(s)
  {
    var t := Zeros(k) + s;
    if s != "" {
      assert t[..|t| - 1] == Zeros(k) + s[..|s| - 1];
      ZerosValue(k, s[..|s| - 1]);
    } else if k > 0 {
      assert t[..|t| - 1] == Zeros(k - 1) + "";
      ZerosValue(k - 1, "");
    }
  }

  /** Parsing undoes printing. */
  /** Numbers that do not fit into 64 bits are refused. */
  lemma ParsedIsSmall(s: string)
    ensures ParseInt(s).Some? ==> -0x8000_0000_0000_0000 <= ParseInt(s).value <= 0x7fff_ffff_ffff_ffff
  {
    if s != "" {
      var body := if s[0] == '-' || s[0] == '+' then s[1..] else s;
      if AllDigits(body) { ValueIsNat(body); }
    }
  }

  lemma {:induction false} ValueIsNat(s: string)
    requires AllDigits(s)
    ensures Value(s) >= 0
  {
    if s != "" { ValueIsNat(s[..|s| - 1]); }
  }

  lemma ParsePadded(n: int, width: nat)
    requires 0 <= n <= MAX_INT64
    ensures ParseInt(Pad(n, width)) == Some(n)
  {
    DigitsValue(n);
    var d := Digits(n);
    if |d| < width { ZerosValue(width - |d|, d); }
    var s := PadNat(n, width);
    assert Value(s) == n;
    assert IsDigit(s[0]);
  }

  function TenTo(width: nat): nat {
    if width == 0 then 1 else 10 * TenTo(width - 1)
  }

  lemma {:induction false} DigitsShort(n: nat, width: nat)
    requires width > 0 && n < TenTo(width)
    ensures |Digits(n)| <= width
  {
    if n >= 10 { DigitsShort(n / 10, width - 1); }
  }

  /** A number that fits is printed in exactly the width asked for. */
  lemma PadWidth(n: nat, width: nat)
    requires width > 0 && n < TenTo(width)
    ensures |Pad(n, width)| == width
  {
    DigitsShort(n, width);
  }

  lemma DigitsOnly(s: string, c: char)
    requires AllDigits(s) && !IsDigit(c)
    ensures c !in s
  {
  }

  // ---------------------------------------------------------------------------
  // Paths
  // ---------------------------------------------------------------------------

  /** The elements that path.Clean leaves of a relative path. */
  function Clean(elements: seq<string>): seq<string> {
    if elements == [] then []
    else
      var before, last := Clean(elements[..|elements| - 1]), elements[|elements| - 1];
      if last == "" || last == "." then before
      else if last == ".." && before != [] && before[|before| - 1] != ".." then before[..|before| - 1]
      else before + [last]
  }

  function Slashed(elements: seq<string>): string {
    if elements == [] then ""
    else if |elements| == 1 then elements[0]
    else Slashed(elements[..|elements| - 1]) + "/" + elements[|elements| - 1]
  }

  /** path.Join of elements without slashes. */
  function Join(elements: seq<string>): string {
    if forall i :: 0 <= i < |elements| ==> elements[i] == "" then ""
    else if Clean(elements) == [] then "."
    else Slashed(Clean(elements))
  }

  predicate Plain(element: string) {
    element != "" && element != "." && element != ".."
  }

  lemma JoinOne(a: string)
    requires Plain(a)
    ensures Join([a]) == a
  {
    assert [a][..0] == [];
    assert Clean([a]) == [a];
    assert [a][0] != "";
  }

  lemma JoinTwo(a: string, b: string)
    requires Plain(a) && Plain(b)
    ensures Join([a, b]) == a + "/" + b
  {
    hide Slashed;
    var two := [a, b];
    assert two[..1] == [a] && [a][..0] == [];
    assert Clean([a]) == [a];
    assert Clean(two) == [a] + [b] == two;
    assert two[0] != "";
    SlashedTwo(a, b);
  }

  lemma SlashedTwo(a: string, b: string)
    ensures Slashed([a, b]) == a + "/" + b
  {
    assert [a, b][..1] == [a];
    assert Slashed([a]) == a;
  }
}
