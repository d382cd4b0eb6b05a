/**
  The range expression of GET_RANGE: "<start>-<end>" with either side
  optional, 1-indexed and inclusive, turned into the offset and limit of a
  query over the store's natural order.
*/
module Ranges {

  import opened Wrappers
  import opened Numerals
  import opened Values

  /** What a range string means: a query window, a 400, or an int() ValueError. */
  datatype RangeParse = Window(offset: nat, limit: nat) | Malformed | Unparsable

  function Count(s: string, c: char): nat
  {
    if s == [] then 0 else (if s[0] == c then 1 else 0) + Count(s[1..], c)
  }

  lemma {:induction false} CountAbsent(s: string, c: char)
    ensures Count(s, c) == 0 <==> c !in s
  {
    if s != [] {
      CountAbsent(s[1..], c);
      assert s == [s[0]] + s[1..];
    }
  }

  lemma {:induction false} CountSplit(s: string, i: nat, c: char)
    requires i <= |s|
    ensures Count(s, c) == Count(s[..i], c) + Count(s[i..], c)
  {
    if i > 0 {
      CountSplit(s[1..], i - 1, c);
      assert s[1..][..i - 1] == s[1..i];
      assert s[1..][i - 1..] == s[i..];
      assert s[..i][1..] == s[1..i];
    }
  }

  /** Position of the first occurrence of c in s. */
  function IndexOf(s: string, c: char): (i: nat)
    requires c in s
    ensures i < |s| && s[i] == c && c !in s[..i]
  {
    if s[0] == c then 0
    else
      var j := IndexOf(s[1..], c);
      assert s[1..][..j] == s[1..j + 1];
      j + 1
  }

  /** The inclusive adjustment: a 1-indexed start becomes a 0-based offset. */
  function Inclusive(start: int): int
  {
    if start > 0 then start - 1 else start
  }

  /** The window for a start and an end, or Malformed when it would be empty. */
  function Bounds(start: nat, end: int): (r: RangeParse)
    ensures r.Window? <==> Inclusive(start) < end
    ensures r.Window? ==> r.offset == Inclusive(start) && r.offset + r.limit == end && r.limit >= 1
    ensures r.Window? || r.Malformed?
  {
    var offset := Inclusive(start);
    if offset >= end then Malformed else Window(offset, end - offset)
  }

  /** int() of a side of the range, which holds no '-' and so is never negative. */
  function Side(s: string): Option<nat>
    requires '-' !in s
  {
    match ParseInt(s)
    case None => None
    case Some(v) => Some(v)
  }

  /** "-B": only the end is given (lines 137-139). */
  function EndOnly(ranges: string): (r: RangeParse)
    requires |ranges| > 0 && Count(ranges, '-') == 1 && ranges[0] == '-'
    ensures r.Window? ==> r.limit >= 1
  {
    CountSplit(ranges, 1, '-');
    CountAbsent(ranges[1..], '-');
    match Side(ranges[1..])
    case None => Unparsable
    case Some(end) => Bounds(0, end)
  }

  /** "A-": only the start is given (lines 140-142). */
  function StartOnly(ranges: string): (r: RangeParse)
    requires |ranges| > 0 && Count(ranges, '-') == 1 && ranges[|ranges| - 1] == '-'
    ensures r.Window? ==> r.limit >= 1
  {
    var head := ranges[..|ranges| - 1];
    CountSplit(ranges, |ranges| - 1, '-');
    assert ranges[|ranges| - 1..] == ['-'];
    CountAbsent(head, '-');
    match Side(head)
    case None => Unparsable
    case Some(start) => Bounds(start, COLLECTION_SIZE)
  }

  /** "A-B": both sides are given (lines 143-145); int() reads the start first. */
  function StartAndEnd(ranges: string): (r: RangeParse)
    requires Count(ranges, '-') == 1
    ensures r.Window? ==> r.limit >= 1
  {
    CountAbsent(ranges, '-');
    var i := IndexOf(ranges, '-');
    CountSplit(ranges, i, '-');
    CountSplit(ranges[i..], 1, '-');
    assert ranges[i..][1..] == ranges[i + 1..];
    CountAbsent(ranges[..i], '-');
    CountAbsent(ranges[i + 1..], '-');
    Sides(ranges[..i], ranges[i + 1..])
  }

  /**
    GET_RANGE's parse of a range string (dictapi.py lines 133-153).  The empty
    string means the default window; a string without exactly one '-' is
    Malformed; a side that int() cannot read is Unparsable (Python raises
    ValueError there).
  */
  function ParseRange(ranges: string): (r: RangeParse)
    ensures r.Window? ==> r.limit >= 1
    ensures r.Window? ==> ranges == "" || Count(ranges, '-') == 1
    ensures ranges != "" && Count(ranges, '-') != 1 ==> r == Malformed
  {
    if ranges == "" then Bounds(0, COLLECTION_SIZE)
    else if Count(ranges, '-') != 1 then Malformed
    else if ranges[0] == '-' then EndOnly(ranges)
    else if ranges[|ranges| - 1] == '-' then StartOnly(ranges)
    else StartAndEnd(ranges)
  }

  /** The meaning of a start and an end side: int() reads the start first. */
  function Sides(x: string, y: string): RangeParse
    requires '-' !in x && '-' !in y
  {
    match Side(x)
    case None => Unparsable
    case Some(start) =>
      match Side(y)
      case None => Unparsable
      case Some(end) => Bounds(start, end)
  }

  /** Two dash-free sides joined by '-' are read as start and end. */
  lemma {:induction false} JoinedSides(x: string, y: string)
    requires x != [] && y != [] && '-' !in x && '-' !in y
    ensures Count(x + "-" + y, '-') == 1
    ensures ParseRange(x + "-" + y) == Sides(x, y)
  {
    var s := x + "-" + y;
    CountAbsent(x, '-');
    CountAbsent(y, '-');
    CountSplit(s, |x|, '-');
    CountSplit(s[|x|..], 1, '-');
    assert s[..|x|] == x;
    assert s[|x|..][..1] == "-";
    assert s[|x|..][1..] == y;
    assert s[0] == x[0];
    assert s[|s| - 1] == y[|y| - 1];
    var i := IndexOf(s, '-');
    assert i == |x|;
    assert s[..i] == x;
    assert s[i + 1..] == y;
    assert ParseRange(s) == StartAndEnd(s);
  }

  /** "A-B" written in canonical decimals means the window from A to B inclusive. */
  lemma {:induction false} FromTo(a: nat, b: nat)
    ensures ParseRange(Decimal(a) + "-" + Decimal(b)) == Bounds(a, b)
  {
    DecimalRoundTrip(a);
    DecimalRoundTrip(b);
    JoinedSides(Decimal(a), Decimal(b));
    assert Side(Decimal(a)) == Some(a) && Side(Decimal(b)) == Some(b);
  }

  /** "-B" means the first B entries. */
  lemma {:induction false} UpTo(b: nat)
    ensures ParseRange("-" + Decimal(b)) == Bounds(0, b)
  {
    var y := Decimal(b);
    var s := "-" + y;
    DecimalRoundTrip(b);
    CountAbsent(y, '-');
    CountSplit(s, 1, '-');
    assert s[..1] == "-" && s[1..] == y;
  }

  /** "A-" means COLLECTION_SIZE as the end. */
  lemma {:induction false} From(a: nat)
    ensures ParseRange(Decimal(a) + "-") == Bounds(a, COLLECTION_SIZE)
  {
    var x := Decimal(a);
    var s := x + "-";
    DecimalRoundTrip(a);
    CountAbsent(x, '-');
    CountSplit(s, |x|, '-');
    assert s[..|x|] == x && s[|x|..] == "-";
    assert s[0] == x[0] != '-';
  }

  /** The default window: no range at all, or "1-". */
  lemma DefaultWindow()
    ensures ParseRange("") == Window(0, 20)
    ensures ParseRange("1-") == Window(0, 20)
  {
    assert Decimal(1) == "1";
    From(1);
    assert Decimal(1) + "-" == "1-";
  }

  /** "21-40" asks for the 21st to the 40th entry. */
  lemma SecondPage()
    ensures ParseRange("21-40") == Window(20, 20)
  {
    FromTo(21, 40);
    SecondPageSpelling();
  }

  lemma SecondPageSpelling()
    ensures Decimal(21) + "-" + Decimal(40) == "21-40"
  {
    assert Decimal(21) == "21" by {
      assert Decimal(2) == "2";
    }
    assert Decimal(40) == "40" by {
      assert Decimal(4) == "4";
    }
  }

  /** "-10" asks for the first ten entries. */
  lemma FirstTen()
    ensures ParseRange("-10") == Window(0, 10)
  {
    assert Decimal(1) == "1" && Decimal(0) == "0";
    assert Decimal(10) == "10";
    UpTo(10);
    assert "-" + Decimal(10) == "-10";
  }

  /** "5-" starts at the fifth entry and ends at COLLECTION_SIZE. */
  lemma FromFifth()
    ensures ParseRange("5-") == Window(4, 16)
  {
    assert Decimal(5) == "5";
    From(5);
    assert Decimal(5) + "-" == "5-";
  }

  /** A start after the end, or more than one '-', is a 400. */
  lemma RejectedRanges()
    ensures ParseRange("50-40") == Malformed
    ensures ParseRange("1-2-3") == Malformed
  {
    assert Decimal(5) == "5" && Decimal(4) == "4" && Decimal(0) == "0";
    assert Decimal(50) == "50" && Decimal(40) == "40";
    FromTo(50, 40);
    assert Decimal(50) + "-" + Decimal(40) == "50-40";
    assert Count("1-2-3", '-') == 2;
  }

  /** A lone "-" leaves int() an empty string to read, and it raises. */
  lemma LoneDash()
    ensures ParseRange("-") == Unparsable
  {
    assert Count("-", '-') == 1;
    assert "-"[1..] == "";
    assert Trim("", Unicode) == "";
  }

  /** A side without digits makes int() raise. */
  lemma LetterSide(c: char)
    requires !IsSpace(c) && !IsDigit(c) && c != '-'
    ensures Side([c]) == None
  {
    assert TrimLeft([c], Unicode) == [c];
    assert TrimRight([c], Unicode) == [c];
    assert Trim([c], Unicode) == [c];
  }

  /** A start that is not a number, as in "a-b", makes int() raise. */
  lemma LetterStart(c: char, end: string)
    requires !IsSpace(c) && !IsDigit(c) && c != '-'
    requires end != [] && '-' !in end
    ensures ParseRange([c] + "-" + end) == Unparsable
  {
    JoinedSides([c], end);
    assert Sides([c], end) == Unparsable by {
      LetterSide(c);
    }
  }
}
