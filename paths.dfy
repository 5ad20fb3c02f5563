/**
 * The sysfs GPIO control surface: the decimal rendering of a line number
 * (Python's '%d') and the fixed paths built from it.
 */
module SysfsPaths {

  /** A character '0'..'9'. */
  predicate IsDigit(c: char) { '0' <= c <= '9' }

  function DigitChar(d: nat): (c: char)
    requires d < 10
    ensures IsDigit(c) && c as int - '0' as int == d
  {
    ('0' as int + d) as char
  }

  /** The decimal digits of n, most significant first, without leading zeros. */
  function Digits(n: nat): (s: string)
    ensures |s| >= 1
    ensures forall i :: 0 <= i < |s| ==> IsDigit(s[i])
    ensures |s| > 1 ==> s[0] != '0'
    decreases n
  {
    if n < 10 then [DigitChar(n)] else Digits(n / 10) + [DigitChar(n % 10)]
  }

  /** Reads a string of digits back as a number. */
  function ParseDigits(s: string): nat
    requires forall i :: 0 <= i < |s| ==> IsDigit(s[i])
    decreases |s|
  {
    if s == [] then 0
    else
      assert IsDigit(s[|s| - 1]);
      ParseDigits(s[..|s| - 1]) * 10 + (s[|s| - 1] as int - '0' as int) as nat
  }

  /** Python's '%d' % n: an optional minus sign, then the digits of |n|. */
  function Decimal(n: int): (s: string)
    ensures |s| >= 1
    ensures forall i :: 0 <= i < |s| ==> IsDigit(s[i]) || s[i] == '-'
  {
    if n < 0 then "-" + Digits(-n) else Digits(n)
  }

  predicate IsDecimal(s: string)
  {
    if |s| > 0 && s[0] == '-' then forall i :: 1 <= i < |s| ==> IsDigit(s[i])
    else forall i :: 0 <= i < |s| ==> IsDigit(s[i])
  }

  function ParseDecimal(s: string): int
    requires IsDecimal(s)
  {
    if |s| > 0 && s[0] == '-' then 0 - ParseDigits(s[1..]) as int else ParseDigits(s)
  }

  lemma {:induction false} DigitsRoundTrip(n: nat)
    ensures ParseDigits(Digits(n)) == n
    decreases n
  {
    if n >= 10 {
      var s := Digits(n);
      assert s == Digits(n / 10) + [DigitChar(n % 10)];
      assert s[..|s| - 1] == Digits(n / 10);
      DigitsRoundTrip(n / 10);
    }
  }

  /** Parsing the rendering of any line number gives the number back. */
  lemma DecimalRoundTrip(n: int)
    ensures IsDecimal(Decimal(n)) && ParseDecimal(Decimal(n)) == n
  {
    if n < 0 {
      var s := Decimal(n);
      assert s[1..] == Digits(-n);
      DigitsRoundTrip(-n);
    } else {
      DigitsRoundTrip(n);
    }
  }

  /** Two different line numbers never render to the same string. */
  lemma DecimalInjective(a: int, b: int)
    ensures Decimal(a) == Decimal(b) ==> a == b
  {
    DecimalRoundTrip(a);
    DecimalRoundTrip(b);
  }

  const BasePath: string := "/sys/class/gpio"
  const ExportPath: string := BasePath + "/export"
  const UnexportPath: string := BasePath + "/unexport"

  /** The per-line attribute files the core writes or opens. */
  datatype Attribute = Direction | Edge | Value | ActiveLow

  function AttributeName(a: Attribute): string
  {
    match a
    case Direction => "direction"
    case Edge => "edge"
    case Value => "value"
    case ActiveLow => "active_low"
  }

  /** The directory of an exported line: BasePath + "/gpio%d". */
  function GpioPath(n: int): string
  {
    BasePath + "/gpio" + Decimal(n)
  }

  /** GpioPath(n) + "/" + the attribute's file name. */
  function AttributePath(n: int, a: Attribute): (p: string)
    ensures |p| > |GpioPath(n)| && p[..|GpioPath(n)|] == GpioPath(n)
  {
    GpioPath(n) + "/" + AttributeName(a)
  }

  /** The last two characters of every attribute name tell the attribute apart. */
  function Tail(a: Attribute): string
  {
    match a
    case Direction => "on"
    case Edge => "ge"
    case Value => "ue"
    case ActiveLow => "ow"
  }

  lemma NameTail(a: Attribute)
    ensures |AttributeName(a)| >= 2
    ensures AttributeName(a)[|AttributeName(a)| - 2..] == Tail(a)
  {
    match a
    case Direction =>
    case Edge =>
    case Value =>
    case ActiveLow =>
  }

  lemma SuffixOfConcat(x: string, t: string, k: nat)
    requires k <= |t|
    ensures (x + t)[|x + t| - k..] == t[|t| - k..]
  {
  }

  lemma AttributePathTail(n: int, a: Attribute)
    ensures |AttributePath(n, a)| >= 2
    ensures AttributePath(n, a)[|AttributePath(n, a)| - 2..] == Tail(a)
  {
    NameTail(a);
    SuffixOfConcat(GpioPath(n) + "/", AttributeName(a), 2);
  }

  /**
   * Every attribute path names exactly one line and one attribute, so files of
   * different lines (or different attributes of one line) never coincide.
   */
  lemma {:induction false} AttributePathsDistinct(n: int, a: Attribute, m: int, b: Attribute)
    ensures AttributePath(n, a) == AttributePath(m, b) <==> n == m && a == b
  {
    if AttributePath(n, a) == AttributePath(m, b) {
      AttributePathTail(n, a);
      AttributePathTail(m, b);
      assert Tail(a) == Tail(b);
      assert a == b;
      CancelSuffix(GpioPath(n) + "/", GpioPath(m) + "/", AttributeName(a));
      CancelSuffix(GpioPath(n), GpioPath(m), "/");
      CancelPrefix(BasePath + "/gpio", Decimal(n), Decimal(m));
      DecimalInjective(n, m);
    }
  }

  lemma CancelSuffix(x: string, y: string, t: string)
    requires x + t == y + t
    ensures x == y
  {
    assert x == (x + t)[..|x|];
    assert y == (y + t)[..|y|];
  }

  lemma CancelPrefix(p: string, x: string, y: string)
    requires p + x == p + y
    ensures x == y
  {
    assert x == (p + x)[|p|..];
    assert y == (p + y)[|p|..];
  }
}
