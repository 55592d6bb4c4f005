/** The handful of Python string operations the core relies on: `str.isspace`, `str.strip`,
    `str.capitalize`, `str.lower`, `str(int)`, `int(str)` and `str.join`. Case mapping is
    modelled for ASCII letters only. */
module PyText {
  import opened Results

  /** `c.isspace()`: the characters Python treats as whitespace. */
  predicate IsSpace(c: char) {
    || c == ' '
    || ('\t' <= c <= '\r')
    || ('\U{001C}' <= c <= '\U{001F}')
    || c == '\U{0085}' || c == '\U{00A0}' || c == '\U{1680}'
    || ('\U{2000}' <= c <= '\U{200A}')
    || c == '\U{2028}' || c == '\U{2029}' || c == '\U{202F}' || c == '\U{205F}' || c == '\U{3000}'
  }

  /** The whitespace `int(str)` skips around a number. Below code point 127 only the C
      whitespace set counts, so the separators U+001C..U+001F, which `str.strip` removes,
      make `int` fail. */
  predicate IsIntSpace(c: char) {
    c == ' ' || ('\t' <= c <= '\r') || ('\U{007F}' <= c && IsSpace(c))
  }

  /** Drops the longest prefix of `ws` characters. */
  function TrimLeft(s: string, ws: char -> bool): (r: string)
    ensures |r| <= |s| && r == s[|s| - |r|..]
    ensures forall k :: 0 <= k < |s| - |r| ==> ws(s[k])
    ensures |r| > 0 ==> !ws(r[0])
  {
    if |s| > 0 && ws(s[0]) then
      var r := TrimLeft(s[1..], ws);
      assert s[1..][|s| - 1 - |r|..] == s[|s| - |r|..];
      assert forall k :: 1 <= k < |s| - |r| ==> s[k] == s[1..][k - 1];
      r
    else s
  }

  /** Drops the longest suffix of `ws` characters. */
  function TrimRight(s: string, ws: char -> bool): (r: string)
    ensures |r| <= |s| && r == s[..|r|]
    ensures forall k :: |r| <= k < |s| ==> ws(s[k])
    ensures |r| > 0 ==> !ws(r[|r| - 1])
  {
    if |s| > 0 && ws(s[|s| - 1]) then TrimRight(s[..|s| - 1], ws) else s
  }

  /** Removes `ws` characters from both ends: the result neither starts nor ends with one. */
  function Trim(s: string, ws: char -> bool): (r: string)
    ensures |r| <= |s|
    ensures |r| > 0 ==> !ws(r[0]) && !ws(r[|r| - 1])
  {
    TrimRight(TrimLeft(s, ws), ws)
  }

  /** Everything of `s` before `i` and from `j` on is a `ws` character. */
  predicate BlankOutside(s: string, ws: char -> bool, i: nat, j: nat) {
    && i <= j <= |s|
    && (forall k :: 0 <= k < i ==> ws(s[k]))
    && (forall k :: j <= k < |s| ==> ws(s[k]))
  }

  /** The trimmed string is the infix of `s` left once every leading and trailing `ws`
      character is gone. */
  lemma TrimInfix(s: string, ws: char -> bool)
    ensures exists i: nat, j: nat :: BlankOutside(s, ws, i, j) && Trim(s, ws) == s[i..j]
  {
    var l := TrimLeft(s, ws);
    var r := TrimRight(l, ws);
    var i := |s| - |l|;
    var j := i + |r|;
    assert r == s[i..j] by {
      assert l == s[i..] && r == l[..|r|];
    }
    assert BlankOutside(s, ws, i, j) by {
      forall k | j <= k < |s| ensures ws(s[k]) {
        assert s[k] == l[k - i];
      }
    }
  }

  /** `s.strip()`: no longer than `s`, and with no whitespace at either end. */
  function Strip(s: string): (r: string)
    ensures |r| <= |s|
    ensures |r| > 0 ==> !IsSpace(r[0]) && !IsSpace(r[|r| - 1])
  {
    Trim(s, IsSpace)
  }

  /** A string that neither starts nor ends with `ws` is its own trim. */
  lemma TrimUntouched(s: string, ws: char -> bool)
    requires |s| > 0 ==> !ws(s[0]) && !ws(s[|s| - 1])
    ensures Trim(s, ws) == s
  {
  }

  /** Stripping twice strips nothing more. */
  lemma StripIdempotent(s: string)
    ensures Strip(Strip(s)) == Strip(s)
  {
    TrimUntouched(Strip(s), IsSpace);
  }

  function ToUpper(c: char): char {
    if 'a' <= c <= 'z' then (c as int - 32) as char else c
  }

  function ToLower(c: char): char {
    if 'A' <= c <= 'Z' then (c as int + 32) as char else c
  }

  /** `s.lower()`. */
  function Lower(s: string): (r: string)
    ensures |r| == |s|
    ensures forall k :: 0 <= k < |s| ==> r[k] == ToLower(s[k])
  {
    seq(|s|, k requires 0 <= k < |s| => ToLower(s[k]))
  }

  /** `s.capitalize()`: first character upper-cased, the rest lower-cased. */
  function Capitalize(s: string): (r: string)
    ensures |r| == |s|
  {
    if |s| == 0 then "" else [ToUpper(s[0])] + Lower(s[1..])
  }

  /** A lower-case ASCII word is its own `lower()`. */
  lemma LowerUnchanged(s: string)
    requires forall k :: 0 <= k < |s| ==> 'a' <= s[k] <= 'z'
    ensures Lower(s) == s
  {
  }

  /** Capitalising a lower-case ASCII word only upper-cases its first letter. */
  lemma CapitalizeWord(s: string)
    requires |s| > 0 && forall k :: 0 <= k < |s| ==> 'a' <= s[k] <= 'z'
    ensures Capitalize(s) == [ToUpper(s[0])] + s[1..]
  {
    LowerUnchanged(s[1..]);
  }

  /** `s[:n]` for `n >= 0`. */
  function Prefix(s: string, n: nat): (r: string)
    ensures |r| <= n && |r| <= |s|
    ensures r == s[..|r|]
    ensures |s| <= n ==> r == s
  {
    if |s| <= n then s else s[..n]
  }

  predicate IsDigit(c: char) {
    '0' <= c <= '9'
  }

  function DigitValue(c: char): nat
    requires IsDigit(c)
  {
    c as int - '0' as int
  }

  function DigitChar(d: nat): char
    requires d < 10
  {
    ('0' as int + d) as char
  }

  /** `str(n)` for a non-negative integer: decimal digits, no leading zero. */
  function Show(n: nat): (r: string)
    ensures |r| > 0
    ensures forall k :: 0 <= k < |r| ==> IsDigit(r[k])
  {
    if n < 10 then [DigitChar(n)] else Show(n / 10) + [DigitChar(n % 10)]
  }

  /** `str(i)` for any integer. */
  function IntToStr(i: int): string {
    if i < 0 then "-" + Show(-i) else Show(i)
  }

  /** The number a run of decimal digits denotes (leading zeros allowed). */
  function DigitsValue(ds: string): nat
    requires forall k :: 0 <= k < |ds| ==> IsDigit(ds[k])
  {
    if |ds| == 0 then 0
    else DigitsValue(ds[..|ds| - 1]) * 10 + DigitValue(ds[|ds| - 1])
  }

  /** The body `int` accepts after the sign: digits, with single underscores between them. */
  predicate IsDigitGroups(b: string) {
    && |b| > 0
    && IsDigit(b[0])
    && IsDigit(b[|b| - 1])
    && (forall k :: 0 <= k < |b| ==> IsDigit(b[k]) || b[k] == '_')
    && (forall k :: 0 <= k < |b| - 1 && b[k] == '_' ==> b[k + 1] != '_')
  }

  /** `b` with its underscores removed. */
  function DropUnderscores(b: string): (r: string)
    ensures forall k :: 0 <= k < |r| ==> r[k] != '_'
    ensures (forall k :: 0 <= k < |b| ==> IsDigit(b[k]) || b[k] == '_') ==>
              forall k :: 0 <= k < |r| ==> IsDigit(r[k])
    ensures (forall k :: 0 <= k < |b| ==> b[k] != '_') ==> r == b
  {
    if |b| == 0 then ""
    else if b[0] == '_' then DropUnderscores(b[1..])
    else [b[0]] + DropUnderscores(b[1..])
  }

  /** The non-negative value of a digit-group body, if it is one. */
  function ParseDigitGroups(b: string): Option<nat> {
    if IsDigitGroups(b) then Some(DigitsValue(DropUnderscores(b))) else None
  }

  /** What `int` reads after the surrounding whitespace: the text after a leading sign. */
  function Unsigned(t: string): string {
    if |t| > 0 && (t[0] == '+' || t[0] == '-') then t[1..] else t
  }

  /** The strings `int` accepts: whitespace, an optional sign, then digit groups. */
  predicate IsIntLiteral(s: string) {
    IsDigitGroups(Unsigned(Trim(s, IsIntSpace)))
  }

  /** `int(s)` for a string `s` (base 10): surrounding whitespace, an optional sign, then
      digit groups. Any other string raises `ValueError`, which is `None` here; in particular
      a blank string does. */
  function ParseInt(s: string): (r: Option<int>)
    ensures (forall k :: 0 <= k < |s| ==> IsIntSpace(s[k])) ==> r.None?
  {
    var t := Trim(s, IsIntSpace);
    if |t| > 0 && (t[0] == '+' || t[0] == '-') then
      match ParseDigitGroups(t[1..])
      case None => None
      case Some(v) => var n: int := v; if t[0] == '-' then Some(-n) else Some(n)
    else
      match ParseDigitGroups(t)
      case None => None
      case Some(v) => Some(v)
  }

  /** `int(s)` succeeds exactly on the strings of its literal syntax. */
  lemma ParseIntAccepts(s: string)
    ensures ParseInt(s).Some? <==> IsIntLiteral(s)
  {
  }

  lemma DigitsValueSnoc(ds: string, c: char)
    requires forall k :: 0 <= k < |ds| ==> IsDigit(ds[k])
    requires IsDigit(c)
    ensures DigitsValue(ds + [c]) == DigitsValue(ds) * 10 + DigitValue(c)
  {
    assert (ds + [c])[..|ds|] == ds;
  }

  /** Reading the digits `str(n)` prints gives back `n`. */
  lemma {:induction false} ShowValue(n: nat)
    ensures DigitsValue(Show(n)) == n
  {
    if n >= 10 {
      ShowValue(n / 10);
      DigitsValueSnoc(Show(n / 10), DigitChar(n % 10));
    }
  }

  /** `int(str(i)) == i` for every integer. */
  lemma ParseShowInt(i: int)
    ensures ParseInt(IntToStr(i)) == Some(i)
  {
    var m: nat := if i < 0 then -i else i;
    var d := Show(m);
    var s := IntToStr(i);
    ParseShowDigits(m);
    NotIntSpace(d[|d| - 1]);
    if i < 0 {
      NotIntSpace('-');
      assert s[|s| - 1] == d[|d| - 1];
      TrimUntouched(s, IsIntSpace);
      assert s[1..] == d;
    } else {
      NotIntSpace(d[0]);
      TrimUntouched(s, IsIntSpace);
    }
  }

  lemma NotIntSpace(c: char)
    requires IsDigit(c) || c == '-'
    ensures !IsIntSpace(c)
  {
  }

  /** The digits of `str(n)` form a digit-group body worth `n`. */
  lemma ParseShowDigits(n: nat)
    ensures ParseDigitGroups(Show(n)) == Some(n)
  {
    var d := Show(n);
    ShowValue(n);
    assert DropUnderscores(d) == d;
    assert IsDigitGroups(d);
  }

  /** Distinct numbers print differently. */
  lemma ShowInjective(a: nat, b: nat)
    requires Show(a) == Show(b)
    ensures a == b
  {
    ShowValue(a);
    ShowValue(b);
  }

  /** `sep.join(parts)`. */
  function Join(sep: string, parts: seq<string>): string {
    if |parts| == 0 then ""
    else if |parts| == 1 then parts[0]
    else parts[0] + sep + Join(sep, parts[1..])
  }

  /** Appending one more part appends the separator and that part. */
  lemma {:induction false} JoinSnoc(sep: string, parts: seq<string>, x: string)
    requires |parts| > 0
    ensures Join(sep, parts + [x]) == Join(sep, parts) + sep + x
  {
    if |parts| > 1 {
      assert (parts + [x])[1..] == parts[1..] + [x];
      JoinSnoc(sep, parts[1..], x);
    }
  }
}
