/**
 * Account cells of the pivot table: how a raw `Compte` cell becomes the
 * canonical account string (`normalize_compte`), and which account prefixes
 * mark the returns, bookseller-discount and provision categories.
 */
module Accounts {
  import opened Wrappers

  /** A raw cell of the `Compte` column: a number, a text that is not a number, or a missing value. */
  datatype Cell = Num(x: real) | Text(s: string) | Missing

  // ---------------------------------------------------------------------------
  // Whitespace and strip
  // ---------------------------------------------------------------------------

  /** The characters Python's `str.isspace` accepts, which `str.strip()` removes. */
  predicate IsSpace(ch: char) {
    || '\U{9}' <= ch <= '\U{D}'
    || '\U{1C}' <= ch <= '\U{20}'
    || ch == '\U{85}' || ch == '\U{A0}' || ch == '\U{1680}'
    || '\U{2000}' <= ch <= '\U{200A}'
    || ch == '\U{2028}' || ch == '\U{2029}' || ch == '\U{202F}' || ch == '\U{205F}' || ch == '\U{3000}'
  }

  predicate NoSpace(s: string) {
    forall i :: 0 <= i < |s| ==> !IsSpace(s[i])
  }

  /** The end of the run of whitespace that starts at `i`. */
  function SpanLeft(s: string, i: nat): (n: nat)
    requires i <= |s|
    ensures i <= n <= |s|
    ensures forall k :: i <= k < n ==> IsSpace(s[k])
    ensures n == |s| || !IsSpace(s[n])
    decreases |s| - i
  {
    if i == |s| || !IsSpace(s[i]) then i else SpanLeft(s, i + 1)
  }

  /** The start of the run of whitespace that ends at `j`, not going below `lo`. */
  function SpanRight(s: string, lo: nat, j: nat): (m: nat)
    requires lo <= j <= |s|
    ensures lo <= m <= j
    ensures forall k :: m <= k < j ==> IsSpace(s[k])
    ensures m == lo || !IsSpace(s[m - 1])
    decreases j
  {
    if j == lo || !IsSpace(s[j - 1]) then j else SpanRight(s, lo, j - 1)
  }

  /**
   * Python's `str.strip()`: the result is the slice `s[i..j]` of `s` with
   * only whitespace before and after it, and it neither starts nor ends with
   * whitespace.
   */
  function Strip(s: string): (r: string)
    ensures r == [] || (!IsSpace(r[0]) && !IsSpace(r[|r| - 1]))
    ensures exists i, j :: 0 <= i <= j <= |s| && r == s[i..j]
                           && (forall k :: 0 <= k < i ==> IsSpace(s[k]))
                           && (forall k :: j <= k < |s| ==> IsSpace(s[k]))
  {
    var i := SpanLeft(s, 0);
    var j := SpanRight(s, i, |s|);
    assert j == i || (s[i..j][0] == s[i] && s[i..j][j - i - 1] == s[j - 1]);
    s[i..j]
  }

  /** Stripping a string that neither starts nor ends with whitespace changes nothing. */
  lemma StripTrimmed(s: string)
    requires s == [] || (!IsSpace(s[0]) && !IsSpace(s[|s| - 1]))
    ensures Strip(s) == s
  {
    assert SpanLeft(s, 0) == 0;
    assert SpanRight(s, 0, |s|) == |s|;
    assert s[0..|s|] == s;
  }

  /** Stripping a string without whitespace changes nothing. */
  lemma StripNoSpace(s: string)
    requires NoSpace(s)
    ensures Strip(s) == s
  {
    if s != [] {
      assert !IsSpace(s[0]) && !IsSpace(s[|s| - 1]);
    }
    StripTrimmed(s);
  }

  /** Stripping twice is stripping once. */
  lemma StripIdempotent(s: string)
    ensures Strip(Strip(s)) == Strip(s)
  {
    StripTrimmed(Strip(s));
  }

  // ---------------------------------------------------------------------------
  // Integers and their decimal text
  // ---------------------------------------------------------------------------

  /** Python's `int(x)` on a float: truncation toward zero. */
  function Trunc(x: real): (n: int)
    ensures 0.0 <= x ==> 0 <= n && n as real <= x < n as real + 1.0
    ensures x < 0.0 ==> n <= 0 && n as real - 1.0 < x <= n as real
  {
    if 0.0 <= x then x.Floor else -((-x).Floor)
  }

  predicate IsDigit(ch: char) {
    '0' <= ch <= '9'
  }

  predicate AllDigits(s: string) {
    forall i :: 0 <= i < |s| ==> IsDigit(s[i])
  }

  function DigitChar(d: nat): (ch: char)
    requires d < 10
    ensures IsDigit(ch)
  {
    ('0' as int + d) as char
  }

  function DigitValue(ch: char): (d: nat)
    requires IsDigit(ch)
    ensures d < 10 && DigitChar(d) == ch
  {
    (ch - '0') as nat
  }

  /** The decimal digits of `n`, most significant first, with no leading zero. */
  function Digits(n: nat): (s: string)
    ensures 0 < |s| && AllDigits(s)
    ensures |s| > 1 ==> s[0] != '0'
  {
    if n < 10 then [DigitChar(n)] else Digits(n / 10) + [DigitChar(n % 10)]
  }

  /** The value of a non-empty string of decimal digits. */
  function DigitsValue(s: string): nat
    requires AllDigits(s)
  {
    if s == [] then 0 else 10 * DigitsValue(s[..|s| - 1]) + DigitValue(s[|s| - 1])
  }

  /** Python's `str(n)` on an int: an optional minus sign followed by the digits of `|n|`. */
  function DecimalString(n: int): string {
    if n < 0 then "-" + Digits(-n) else Digits(n)
  }

  /** Reading back a decimal integer written by `DecimalString`; `None` for any other text. */
  function ParseInt(s: string): Option<int> {
    if 0 < |s| && AllDigits(s) then Some(DigitsValue(s))
    else if 1 < |s| && s[0] == '-' && AllDigits(s[1..]) then Some(-(DigitsValue(s[1..]) as int))
    else None
  }

  lemma {:induction false} DigitsRoundTrip(n: nat)
    ensures DigitsValue(Digits(n)) == n
  {
    if n >= 10 {
      var s := Digits(n);
      assert s[..|s| - 1] == Digits(n / 10);
      DigitsRoundTrip(n / 10);
    }
  }

  lemma DigitsNotSpace(s: string)
    requires AllDigits(s)
    ensures NoSpace(s) && '.' !in s
  {
  }

  lemma SignedNotSpace(t: string)
    requires AllDigits(t)
    ensures NoSpace("-" + t) && '.' !in "-" + t
  {
    var s := "-" + t;
    forall i | 0 <= i < |s| ensures !IsSpace(s[i]) && s[i] != '.' {
      if 0 < i { assert s[i] == t[i - 1]; }
    }
  }

  /** A minus sign followed by digits reads back as the negated value of the digits. */
  lemma ParseNegative(t: string)
    requires 0 < |t| && AllDigits(t)
    ensures ParseInt("-" + t) == Some(-(DigitsValue(t) as int))
  {
    var s := "-" + t;
    assert s[0] == '-' && s[1..] == t;
    assert !AllDigits(s) by { assert !IsDigit(s[0]); }
    assert ParseInt(s) == Some(-(DigitsValue(s[1..]) as int));
  }

  /** A negative integer's text is a minus sign followed by digits, and reads back as that integer. */
  lemma NegativeText(n: int)
    requires n < 0
    ensures ParseInt(DecimalString(n)) == Some(n)
    ensures NoSpace(DecimalString(n)) && '.' !in DecimalString(n)
  {
    var t := Digits(-n);
    assert DecimalString(n) == "-" + t;
    DigitsRoundTrip(-n);
    ParseNegative(t);
    SignedNotSpace(t);
  }

  /** A non-negative integer's text is its digits, and reads back as that integer. */
  lemma NaturalText(n: int)
    requires 0 <= n
    ensures ParseInt(DecimalString(n)) == Some(n)
    ensures NoSpace(DecimalString(n)) && '.' !in DecimalString(n)
  {
    assert DecimalString(n) == Digits(n);
    DigitsRoundTrip(n);
    DigitsNotSpace(Digits(n));
  }

  /** `DecimalString` is read back exactly, so distinct integers have distinct texts. */
  lemma DecimalRoundTrip(n: int)
    ensures ParseInt(DecimalString(n)) == Some(n)
    ensures NoSpace(DecimalString(n)) && '.' !in DecimalString(n)
  {
    if n < 0 {
      NegativeText(n);
    } else {
      NaturalText(n);
    }
  }

  /**
   * The shape of `str()` of an int: non-empty, no leading zero except for "0"
   * itself, and no zero right after a minus sign.
   */
  predicate Canonical(r: string) {
    && |r| > 0
    && (r[0] == '0' ==> r == "0")
    && (r[0] == '-' ==> |r| > 1 && r[1] != '0')
  }

  /** The digits of a positive number do not start with 0. */
  lemma PositiveDigitsLead(n: nat)
    requires 0 < n
    ensures Digits(n)[0] != '0'
  {
    if n < 10 {
      assert Digits(n) == [DigitChar(n)];
    }
  }

  /** `DecimalString` writes every integer in its canonical form. */
  lemma DecimalCanonical(n: int)
    ensures Canonical(DecimalString(n))
  {
    if n < 0 {
      var t := Digits(-n);
      PositiveDigitsLead(-n);
      assert DecimalString(n) == "-" + t;
      assert ("-" + t)[0] == '-' && ("-" + t)[1] == t[0];
    } else if n == 0 {
      assert DecimalString(n) == [DigitChar(0)];
    } else {
      PositiveDigitsLead(n);
    }
  }

  // ---------------------------------------------------------------------------
  // normalize_compte
  // ---------------------------------------------------------------------------

  /**
   * The canonical text of an account cell: the decimal text of a number's
   * integer part, the empty string for a missing value, and any other text
   * with its surrounding whitespace stripped.
   */
  function NormalizeCompte(c: Cell): string {
    match c
    case Num(x) => Strip(DecimalString(Trunc(x)))
    case Missing => ""
    case Text(s) => Strip(s)
  }

  /**
   * A number becomes the decimal text of its integer part (truncated toward
   * zero): canonical, read back as that integer, with no fractional part; a
   * missing value becomes the empty string; a text becomes itself without
   * surrounding whitespace, and normalising that again changes nothing.
   */
  lemma NormalizeCompteSpec(c: Cell)
    ensures c.Num? ==> var r := NormalizeCompte(c);
      ParseInt(r) == Some(Trunc(c.x)) && Canonical(r) && '.' !in r && NoSpace(r)
    ensures c.Missing? ==> NormalizeCompte(c) == ""
    ensures c.Text? ==> NormalizeCompte(c) == Strip(c.s) && NormalizeCompte(Text(NormalizeCompte(c))) == NormalizeCompte(c)
  {
    match c
    case Num(x) =>
      DecimalRoundTrip(Trunc(x));
      DecimalCanonical(Trunc(x));
      StripNoSpace(DecimalString(Trunc(x)));
    case Missing =>
    case Text(s) =>
      StripIdempotent(s);
  }

  /** The float 709000.0 of a spreadsheet cell is the account "709000". */
  lemma NormalizeWholeNumber()
    ensures NormalizeCompte(Num(709000.0)) == "709000"
  {
    assert Trunc(709000.0) == 709000;
    assert Digits(709) == "709";
    assert Digits(70900) == "70900";
    assert Digits(709000) == "709000";
    StripNoSpace("709000");
  }

  /** A negative number keeps its sign and loses its fractional part. */
  lemma NormalizeNegativeNumber()
    ensures NormalizeCompte(Num(-681.9)) == "-681"
  {
    var n := Trunc(-681.9);
    assert n == -681;
    assert DecimalString(n) == "-681" by {
      assert Digits(681) == "681";
    }
    DecimalRoundTrip(n);
    StripNoSpace(DecimalString(n));
  }

  /**
   * Text that `float()` rejects is only trimmed; this one then has the
   * discount prefix.
   */
  lemma NormalizePaddedText()
    ensures NormalizeCompte(Text(" 709100 A ")) == "709100 A"
    ensures Classify(NormalizeCompte(Text(" 709100 A "))) == Some(Discounts)
  {
    var t := " 709100 A ";
    assert IsSpace(t[0]) && !IsSpace(t[1]);
    assert SpanLeft(t, 0) == 1;
    assert IsSpace(t[9]) && !IsSpace(t[8]);
    assert SpanRight(t, 1, 10) == 9;
    assert t[1..9] == "709100 A";
    assert StartsWith("709100 A", Prefix(Discounts)) by {
      assert "709100 A"[..6] == "709100";
    }
  }

  // ---------------------------------------------------------------------------
  // Categories by account prefix
  // ---------------------------------------------------------------------------

  /** The three kinds of rows the synthesis is built from. */
  datatype Category = Returns | Discounts | Provisions

  /** The account prefix that marks each category. */
  function Prefix(c: Category): string {
    match c
    case Returns => "709000"
    case Discounts => "709100"
    case Provisions => "681"
  }

  /** Python's `str.startswith`. */
  predicate StartsWith(s: string, p: string) {
    |p| <= |s| && s[..|p|] == p
  }

  /** The category an account belongs to, if any. */
  function Classify(account: string): (r: Option<Category>)
    ensures forall c :: StartsWith(account, Prefix(c)) <==> r == Some(c)
  {
    if StartsWith(account, "709000") then
      assert account[..3] == "709";
      Some(Returns)
    else if StartsWith(account, "709100") then
      assert account[..3] == "709";
      Some(Discounts)
    else if StartsWith(account, "681") then
      Some(Provisions)
    else
      None
  }

  /** No account starts with the prefixes of two different categories. */
  lemma CategoriesDisjoint(account: string, c1: Category, c2: Category)
    requires StartsWith(account, Prefix(c1)) && StartsWith(account, Prefix(c2))
    ensures c1 == c2
  {
    assert Classify(account) == Some(c1);
  }
}
