/**
  Decimal integer literals read from a string, in the two ways the engine
  meets them.  Python's int(), which the range parser of GET_RANGE calls,
  accepts surrounding Unicode whitespace, a sign, and digits grouped by
  single underscores ("1_000"); only ASCII digits are modelled.  A
  PostgreSQL integer column, which the store's filters and writes go
  through, accepts ASCII blanks, a sign and plain ASCII digits, and only
  values that fit in 32 bits.
*/
module Numerals {

  import opened Wrappers

  /** Characters str.strip() and int() treat as whitespace. */
  predicate IsSpace(c: char)
  {
    c == ' ' || (9 <= c as int <= 13) || (28 <= c as int <= 31) ||
    c as int == 0x85 || c as int == 0xA0 || c as int == 0x1680 ||
    (0x2000 <= c as int <= 0x200A) || c as int == 0x2028 || c as int == 0x2029 ||
    c as int == 0x202F || c as int == 0x205F || c as int == 0x3000
  }

  predicate IsDigit(c: char)
  {
    '0' <= c <= '9'
  }

  function DigitValue(c: char): (d: nat)
    requires IsDigit(c)
    ensures d < 10
  {
    c as int - '0' as int
  }

  function DigitChar(d: nat): (c: char)
    requires d < 10
    ensures IsDigit(c) && DigitValue(c) == d
  {
    (d + '0' as int) as char
  }

  /** The blanks C's isspace() accepts: what PostgreSQL skips around a number. */
  predicate IsAsciiSpace(c: char)
  {
    c == ' ' || 9 <= c as int <= 13
  }

  /** Whose idea of whitespace a trim follows: Python's str.strip() or C's isspace(). */
  datatype Blanks = Unicode | Ascii

  predicate IsBlank(c: char, ws: Blanks)
  {
    if ws == Unicode then IsSpace(c) else IsAsciiSpace(c)
  }

  /** s without its leading blanks, ws saying what a blank is: a suffix of s. */
  function TrimLeft(s: string, ws: Blanks): (r: string)
    ensures |r| <= |s| && r == s[|s| - |r|..]
    ensures r != [] ==> !IsBlank(r[0], ws)
  {
    if s != [] && IsBlank(s[0], ws) then TrimLeft(s[1..], ws) else s
  }

  /** s without its trailing blanks: a prefix of s. */
  function TrimRight(s: string, ws: Blanks): (r: string)
    ensures |r| <= |s| && r == s[..|r|]
    ensures r != [] ==> !IsBlank(r[|r| - 1], ws)
  {
    if s != [] && IsBlank(s[|s| - 1], ws) then TrimRight(s[..|s| - 1], ws) else s
  }

  /** s without the blanks around it; every character kept comes from s. */
  function Trim(s: string, ws: Blanks): (r: string)
    ensures forall c :: c in r ==> c in s
  {
    var l := TrimLeft(s, ws);
    var r := TrimRight(l, ws);
    assert forall i :: 0 <= i < |r| ==> r[i] == l[i];
    assert forall i :: 0 <= i < |l| ==> l[i] == s[|s| - |l| + i];
    r
  }

  predicate AllDigits(s: string)
  {
    forall i :: 0 <= i < |s| ==> IsDigit(s[i])
  }

  /** A run of digits in which single underscores may separate digits. */
  predicate Grouped(s: string)
  {
    |s| > 0 && IsDigit(s[0]) && IsDigit(s[|s| - 1]) &&
    (forall i :: 0 <= i < |s| ==> IsDigit(s[i]) || s[i] == '_') &&
    (forall i :: 0 <= i < |s| - 1 ==> !(s[i] == '_' && s[i + 1] == '_'))
  }

  /** The number written by the digits of s, underscores skipped. */
  function Magnitude(s: string): nat
    requires forall i :: 0 <= i < |s| ==> IsDigit(s[i]) || s[i] == '_'
  {
    if s == [] then 0
    else if s[|s| - 1] == '_' then Magnitude(s[..|s| - 1])
    else 10 * Magnitude(s[..|s| - 1]) + DigitValue(s[|s| - 1])
  }

  /**
    int(s) for a str s: None where Python raises ValueError.  A literal with
    no minus sign in it never reads as a negative number.
  */
  function ParseInt(s: string): (r: Option<int>)
    ensures r.Some? && '-' !in s ==> r.value >= 0
  {
    IntLiteral(Trim(s, Unicode))
  }

  /** What int() makes of a literal once the whitespace around it is gone. */
  function IntLiteral(t: string): (r: Option<int>)
    ensures r.Some? && '-' !in t ==> r.value >= 0
  {
    if t == [] then None
    else
      var body := if t[0] == '+' || t[0] == '-' then t[1..] else t;
      if !Grouped(body) then None
      else
        var m: int := Magnitude(body);
        if t[0] == '-' then Some(-m) else Some(m)
  }

  /** The canonical decimal spelling of n: no sign, no padding, no underscores. */
  function Decimal(n: nat): (s: string)
    ensures |s| > 0
  {
    if n < 10 then [DigitChar(n)] else Decimal(n / 10) + [DigitChar(n % 10)]
  }

  lemma {:induction false} DecimalDigits(n: nat)
    ensures forall i :: 0 <= i < |Decimal(n)| ==> IsDigit(Decimal(n)[i])
  {
    if n >= 10 {
      DecimalDigits(n / 10);
    }
  }

  lemma {:induction false} DecimalMagnitude(n: nat)
    ensures forall i :: 0 <= i < |Decimal(n)| ==> IsDigit(Decimal(n)[i]) || Decimal(n)[i] == '_'
    ensures Magnitude(Decimal(n)) == n
  {
    DecimalDigits(n);
    if n >= 10 {
      var s := Decimal(n);
      DecimalMagnitude(n / 10);
      assert s[..|s| - 1] == Decimal(n / 10);
    }
  }

  /** A plain run of ASCII digits reads as the number it spells. */
  lemma DigitsParse(s: string)
    requires |s| > 0 && forall i :: 0 <= i < |s| ==> IsDigit(s[i])
    ensures ParseInt(s) == Some(Magnitude(s))
    ensures '-' !in s
  {
    assert !IsBlank(s[0], Unicode) && !IsBlank(s[|s| - 1], Unicode);
    Untrimmed(s, Unicode);
    assert s[0] != '+' && s[0] != '-';
    assert Grouped(s);
  }

  /** Reading back the canonical spelling of n gives n. */
  lemma {:induction false} DecimalRoundTrip(n: nat)
    ensures ParseInt(Decimal(n)) == Some(n)
    ensures '-' !in Decimal(n)
  {
    var s := Decimal(n);
    DecimalDigits(n);
    DecimalMagnitude(n);
    DigitsParse(s);
  }

  /** The range of a PostgreSQL integer (and SERIAL) column. */
  const INT4_MIN := -0x8000_0000
  const INT4_MAX := 0x7FFF_FFFF

  /**
    The value a PostgreSQL integer column reads from text: None where the
    server rejects it (a malformed literal, or one out of range).
  */
  function PgInt(s: string): (r: Option<int>)
    ensures r.Some? ==> INT4_MIN <= r.value <= INT4_MAX
    ensures r.Some? && '-' !in s ==> r.value >= 0
  {
    PgLiteral(Trim(s, Ascii))
  }

  /** What the server makes of a literal once the blanks around it are gone. */
  function PgLiteral(t: string): (r: Option<int>)
    ensures r.Some? ==> INT4_MIN <= r.value <= INT4_MAX
    ensures r.Some? && '-' !in t ==> r.value >= 0
  {
    if t == [] then None
    else
      var body := if t[0] == '+' || t[0] == '-' then t[1..] else t;
      if body == [] || !AllDigits(body) then None
      else
        var m: int := Magnitude(body);
        var v := if t[0] == '-' then -m else m;
        if INT4_MIN <= v <= INT4_MAX then Some(v) else None
  }

  /** PostgreSQL reads back the decimal spelling of every n that fits in a column... */
  lemma PgIntDecimal(n: nat)
    requires n <= INT4_MAX
    ensures PgInt(Decimal(n)) == Some(n)
  {
    PlainDecimal(n);
  }

  /** ...and rejects the spelling of every n that does not. */
  lemma PgIntOverflow(n: nat)
    requires n > INT4_MAX
    ensures PgInt(Decimal(n)) == None
  {
    PlainDecimal(n);
  }

  /** The decimal spelling of n needs no trimming and holds digits only. */
  lemma PlainDecimal(n: nat)
    ensures forall i :: 0 <= i < |Decimal(n)| ==> IsDigit(Decimal(n)[i])
    ensures Trim(Decimal(n), Ascii) == Decimal(n)
    ensures Magnitude(Decimal(n)) == n
  {
    var s := Decimal(n);
    DecimalDigits(n);
    assert IsDigit(s[0]) && IsDigit(s[|s| - 1]);
    Untrimmed(s, Ascii);
    DecimalMagnitude(n);
  }

  /** A string that neither starts nor ends with a blank is its own trim. */
  lemma Untrimmed(s: string, ws: Blanks)
    requires s != [] && !IsBlank(s[0], ws) && !IsBlank(s[|s| - 1], ws)
    ensures Trim(s, ws) == s
  {
    assert TrimLeft(s, ws) == s;
    assert TrimRight(s, ws) == s;
  }

  /** A leading blank is dropped by the trim. */
  lemma TrimDropsBlank(s: string, ws: Blanks)
    requires s != [] && IsBlank(s[0], ws)
    ensures Trim(s, ws) == Trim(s[1..], ws)
  {
    assert TrimLeft(s, ws) == TrimLeft(s[1..], ws);
  }

  /** Python's int() skips any Unicode whitespace, the no-break space included... */
  lemma IntSkipsSpace(c: char, s: string)
    requires IsSpace(c)
    ensures ParseInt([c] + s) == ParseInt(s)
  {
    TrimDropsBlank([c] + s, Unicode);
    assert ([c] + s)[1..] == s;
  }

  /** ...while PostgreSQL rejects a literal led by a blank that is not ASCII. */
  lemma PgRejectsUnicodeSpace(c: char, d: char)
    requires IsSpace(c) && !IsAsciiSpace(c) && IsDigit(d)
    ensures PgInt([c, d]) == None
  {
    assert !IsDigit(c) && c != '+' && c != '-';
    PgRejectsLead(c, d);
  }

  lemma PgRejectsLead(c: char, d: char)
    requires !IsAsciiSpace(c) && !IsDigit(c) && c != '+' && c != '-' && IsDigit(d)
    ensures PgInt([c, d]) == None
  {
    var s := [c, d];
    Untrimmed(s, Ascii);
    assert !IsDigit(s[0]);
  }
}
