/** Character-level helpers that Java takes from its runtime: decimal rendering
    of an int (StringBuilder.append(int)) and String.toLowerCase on ASCII text. */
module Text {
  import opened Wrappers

  predicate IsDigit(c: char) {
    '0' <= c <= '9'
  }

  predicate AllDigits(s: string) {
    forall i :: 0 <= i < |s| ==> IsDigit(s[i])
  }

  function DigitChar(d: nat): (c: char)
    requires d < 10
    ensures IsDigit(c) && c as int - '0' as int == d
  {
    ('0' as int + d) as char
  }

  /** Decimal digits of n, most significant first, with no leading zero. */
  function NatToString(n: nat): (s: string)
    ensures |s| >= 1 && AllDigits(s)
    ensures (|s| > 1 ==> s[0] != '0')
    decreases n
  {
    if n < 10 then [DigitChar(n)] else NatToString(n / 10) + [DigitChar(n % 10)]
  }

  /** The value of a string of decimal digits. */
  function DigitsValue(s: string): nat
    requires AllDigits(s)
  {
    if s == [] then 0 else DigitsValue(s[..|s| - 1]) * 10 + (s[|s| - 1] as int - '0' as int)
  }

  /** Java's rendering of an int: a '-' sign for negative values, then the digits. */
  function IntToString(i: int): string {
    if i < 0 then "-" + NatToString(-i) else NatToString(i)
  }

  /** Reads back what IntToString writes. */
  function ParseInt(s: string): Option<int> {
    if s == [] then None
    else if s[0] == '-' then
      (if |s| >= 2 && AllDigits(s[1..]) then Some(-(DigitsValue(s[1..]) as int)) else None)
    else if AllDigits(s) then Some(DigitsValue(s))
    else None
  }

  lemma {:induction false} NatToStringRoundTrip(n: nat)
    ensures DigitsValue(NatToString(n)) == n
    decreases n
  {
    var s := NatToString(n);
    if n >= 10 {
      NatToStringRoundTrip(n / 10);
      assert s[..|s| - 1] == NatToString(n / 10);
    }
  }

  lemma IntToStringRoundTrip(i: int)
    ensures ParseInt(IntToString(i)) == Some(i)
  {
    var s := IntToString(i);
    if i < 0 {
      var d := NatToString(-i);
      assert s == "-" + d;
      assert s[1..] == d;
      NatToStringRoundTrip(-i);
    } else {
      var d := NatToString(i);
      assert IsDigit(d[0]);
      NatToStringRoundTrip(i);
    }
  }

  /** Decimal renderings never hold a separator character. */
  lemma IntToStringAlphabet(i: int)
    ensures forall k :: 0 <= k < |IntToString(i)| ==> IntToString(i)[k] == '-' || IsDigit(IntToString(i)[k])
  {
  }

  function LowerChar(c: char): char {
    if 'A' <= c <= 'Z' then (c as int - 'A' as int + 'a' as int) as char else c
  }

  /** String.toLowerCase restricted to ASCII: every upper-case letter becomes its
      lower-case letter and every other character is kept. */
  function ToLower(s: string): (r: string)
    ensures |r| == |s|
    ensures forall i :: 0 <= i < |s| ==> r[i] == LowerChar(s[i])
  {
    if s == [] then [] else [LowerChar(s[0])] + ToLower(s[1..])
  }

  lemma ToLowerIdempotent(s: string)
    ensures ToLower(ToLower(s)) == ToLower(s)
  {
  }

  /** The index of the first occurrence of c in s, or |s| when there is none. */
  function IndexOf(s: string, c: char): (i: nat)
    ensures i <= |s|
    ensures forall k :: 0 <= k < i ==> s[k] != c
    ensures i < |s| ==> s[i] == c
  {
    if s == [] || s[0] == c then 0 else 1 + IndexOf(s[1..], c)
  }

  /** The index of the last occurrence of c in s, or -1 when there is none. */
  function LastIndexOf(s: string, c: char): (i: int)
    ensures -1 <= i < |s|
    ensures forall k :: i < k < |s| ==> s[k] != c
    ensures 0 <= i ==> s[i] == c
  {
    if s == [] then -1 else if s[|s| - 1] == c then |s| - 1 else LastIndexOf(s[..|s| - 1], c)
  }

  lemma IndexOfIs(s: string, c: char, j: nat)
    requires j < |s| && s[j] == c
    requires forall k :: 0 <= k < j ==> s[k] != c
    ensures IndexOf(s, c) == j
  {
  }

  lemma LastIndexOfIs(s: string, c: char, j: nat)
    requires j < |s| && s[j] == c
    requires forall k :: j < k < |s| ==> s[k] != c
    ensures LastIndexOf(s, c) == j
  {
  }

  /** The two integers of the trailing "(start,end)". */
  function ReadOffsets(s: string): Option<(int, int)> {
    var open := LastIndexOf(s, '(');
    if |s| < 1 || s[|s| - 1] != ')' || open < 0 || open == |s| - 1 then None
    else ReadPair(s[open + 1..|s| - 1])
  }

  /** The two integers of "start,end". */
  function ReadPair(pair: string): Option<(int, int)> {
    var comma := IndexOf(pair, ',');
    if comma == |pair| then None
    else
      var start := ParseInt(pair[..comma]);
      var end := ParseInt(pair[comma + 1..]);
      if start.None? || end.None? then None else Some((start.value, end.value))
  }

  /** The characters an int can be written with. */
  predicate IsNumeral(s: string) {
    forall i :: 0 <= i < |s| ==> s[i] == '-' || IsDigit(s[i])
  }

  /** Two numerals in "(x,y)" after any prefix read back as their values. */
  lemma ReadOffsetsAfter(prefix: string, x: string, y: string, sp: int, ep: int)
    requires IsNumeral(x) && IsNumeral(y)
    requires ParseInt(x) == Some(sp) && ParseInt(y) == Some(ep)
    ensures LastIndexOf(prefix + ("(" + x + "," + y + ")"), '(') == |prefix|
    ensures ReadOffsets(prefix + ("(" + x + "," + y + ")")) == Some((sp, ep))
  {
    var w := "(" + x + "," + y + ")";
    ParenOnlyAtStart(x, y);
    LastParenAt(prefix, w);
    PairInside(prefix, x, y);
    ReadPairOf(x, y, sp, ep);
  }

  lemma ReadPairOf(x: string, y: string, sp: int, ep: int)
    requires IsNumeral(x)
    requires ParseInt(x) == Some(sp) && ParseInt(y) == Some(ep)
    ensures ReadPair(x + "," + y) == Some((sp, ep))
  {
    SplitAtComma(x, y);
  }

  lemma ParenOnlyAtStart(x: string, y: string)
    requires IsNumeral(x) && IsNumeral(y)
    ensures var w := "(" + x + "," + y + ")"; w[0] == '(' && forall j :: 1 <= j < |w| ==> w[j] != '('
  {
    var body := x + "," + y;
    var w := "(" + body + ")";
    assert w == "(" + x + "," + y + ")";
    forall j | 1 <= j < |w| ensures w[j] != '(' {
      if j <= |body| {
        assert w[j] == body[j - 1];
        if j - 1 < |x| { assert body[j - 1] == x[j - 1]; }
        else if j - 1 > |x| { assert body[j - 1] == y[j - 1 - |x| - 1]; }
      }
    }
  }

  lemma LastParenAt(prefix: string, w: string)
    requires |w| >= 1 && w[0] == '('
    requires forall j :: 1 <= j < |w| ==> w[j] != '('
    ensures LastIndexOf(prefix + w, '(') == |prefix|
  {
    var s := prefix + w;
    forall k | |prefix| < k < |s| ensures s[k] != '(' {
      assert s[k] == w[k - |prefix|];
    }
    LastIndexOfIs(s, '(', |prefix|);
  }

  lemma PairInside(prefix: string, x: string, y: string)
    ensures var s := prefix + ("(" + x + "," + y + ")");
      s[|prefix| + 1..|s| - 1] == x + "," + y && s[|s| - 1] == ')'
  {
    var s := prefix + ("(" + x + "," + y + ")");
    var body := x + "," + y;
    assert |s| == |prefix| + |body| + 2;
    forall k | 0 <= k < |body| ensures s[|prefix| + 1 + k] == body[k] {
      if k < |x| {
        assert s[|prefix| + 1 + k] == x[k];
      } else if k == |x| {
      } else {
        assert s[|prefix| + 1 + k] == y[k - |x| - 1];
      }
    }
  }

  lemma SplitAtComma(x: string, y: string)
    requires IsNumeral(x)
    ensures IndexOf(x + "," + y, ',') == |x|
    ensures (x + "," + y)[..|x|] == x && (x + "," + y)[|x| + 1..] == y
  {
    var body := x + "," + y;
    forall k | 0 <= k < |x| ensures body[k] != ',' {
      assert body[k] == x[k];
    }
    IndexOfIs(body, ',', |x|);
  }
}
