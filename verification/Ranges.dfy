// Byte positions in Range and Content-Range headers.
module Ranges {
  import opened Basics
  import opened Strings

  const MIN_INT64 := -0x8000_0000_0000_0000
  const MAX_INT64 := 0x7fff_ffff_ffff_ffff

  predicate IsDigit(c: char) { '0' <= c <= '9' }

  function ParseDigits(s: string): Option<nat>
  {
    if s == "" then None
    else
      var n := |s| - 1;
      if !IsDigit(s[n]) then None
      else
        var d := (s[n] - '0') as int;
        if n == 0 then Some(d)
        else
          match ParseDigits(s[..n])
          case None => None
          case Some(v) => Some(10 * v + d)
  }

  /** strconv.ParseInt(s, 10, 64): an optional sign, digits, and a value that fits. */
  function ParseInt64(s: string): Option<int>
  {
    if s == "" then None
    else
      var digits := ParseDigits(if s[0] == '-' || s[0] == '+' then s[1..] else s);
      if digits.None? then None
      else
        var d: int := digits.value;
        var v := if s[0] == '-' then -d else d;
        if MIN_INT64 <= v <= MAX_INT64 then Some(v) else None
  }

  function Decimal(n: nat): (s: string)
    ensures s != ""
  {
    var last := ['0' + (n % 10) as char];
    if n < 10 then last else Decimal(n / 10) + last
  }

  datatype Range = Range(start: int, end: Option<int>)

  function ParseRange(header: string): Option<Range>
  {
    var h := TrimPrefix(header, "bytes=");
    var dash := IndexOf(h, '-');
    if dash <= 0 then None
    else
      var start, rest := ParseInt64(h[..dash]), h[dash + 1..];
      if start.None? then None
      else if rest == "" then Some(Range(start.value, None))
      else
        var end := ParseInt64(rest);
        if end.None? then None else Some(Range(start.value, end))
  }

  function ParseContentRangeStart(header: string): Option<int>
  {
    var h := TrimPrefix(header, "bytes ");
    var dash := IndexOf(h, '-');
    if dash <= 0 then None else ParseInt64(h[..dash])
  }

  /** The Range header of a reconnect, and the total of a 416's Content-Range. */
  function ResumeRange(start: nat): string { "bytes=" + Decimal(start) + "-" }

  function UnsatisfiedTotal(header: string): Option<int> { ParseInt64(TrimPrefix(header, "bytes */")) }

  // ---------------------------------------------------------------- what is sent is what is read back

  lemma {:induction false} DecimalReadsBack(n: nat)
    ensures ParseDigits(Decimal(n)) == Some(n)
    ensures forall c | c in Decimal(n) :: IsDigit(c)
  {
    var s := Decimal(n);
    if n >= 10 {
      DecimalReadsBack(n / 10);
      assert s[..|s| - 1] == Decimal(n / 10);
    }
  }

  lemma IntReadsBack(n: nat)
    requires n <= MAX_INT64
    ensures ParseInt64(Decimal(n)) == Some(n)
  {
    DecimalReadsBack(n);
    assert Decimal(n)[0] in Decimal(n);
  }

  lemma {:induction false} DigitsIff(s: string)
    ensures ParseDigits(s).Some? <==> s != "" && forall i | 0 <= i < |s| :: '0' <= s[i] <= '9'
  {
    if |s| > 1 { DigitsIff(s[..|s| - 1]); }
  }

  /** A number is an optional sign and decimal digits, with a value within 64 bits. */
  lemma NotANumber(s: string, i: nat)
    requires i < |s| && !('0' <= s[i] <= '9') && (i > 0 || s[0] !in "+-")
    ensures ParseInt64(s) == None
  {
    DigitsIff(s);
    DigitsIff(s[1..]);
    if s[0] in "+-" { assert s[1..][i - 1] == s[i]; }
    hide ParseDigits;
  }

  lemma Signed(digits: string, n: int)
    requires n >= 0 && ParseDigits(digits) == Some(n)
    ensures ParseInt64(digits) == ParseInt64("+" + digits) == if n < 0x8000_0000_0000_0000 then Some(n) else None
    ensures ParseInt64("-" + digits) == if n <= 0x8000_0000_0000_0000 then Some(-n) else None
  {
    DigitsIff(digits);
    assert ("+" + digits)[1..] == digits && ("-" + digits)[1..] == digits;
    hide ParseDigits;
  }

  /** A range needs a number before its first dash, and nothing or a number after it. */
  lemma RangeIff(first: string, last: string)
    requires '-' !in first
    ensures ParseRange("bytes=" + (first + "-" + last)).Some? <==>
      first != "" && ParseInt64(first).Some? && (last == "" || ParseInt64(last).Some?)
    ensures ParseRange("bytes=" + first) == None
    ensures ParseContentRangeStart("bytes " + (first + "-" + last)) == if first == "" then None else ParseInt64(first)
    ensures ParseContentRangeStart("bytes " + first) == None
  {
    var h := first + "-" + last;
    Trimmed("bytes=", h);
    Trimmed("bytes ", h);
    Trimmed("bytes=", first);
    Trimmed("bytes ", first);
    IndexAfter(first, '-', last);
    assert h == first + ['-'] + last && h[..|first|] == first && h[|first| + 1..] == last;
    hide ParseInt64, TrimPrefix;
  }

  lemma IndexAfterDigits(s: string, rest: string)
    requires forall c | c in s :: IsDigit(c)
    ensures IndexOf(s + "-" + rest, '-') == |s|
  {
    IndexAfter(s, '-', rest);
  }

  /** A resumed stream asks for exactly the open-ended range from its offset. */
  lemma ResumeRangeReadsBack(start: nat)
    requires start <= MAX_INT64
    ensures ParseRange(ResumeRange(start)) == Some(Range(start, None))
  {
    var d := Decimal(start);
    DecimalReadsBack(start);
    IndexAfterDigits(d, "");
    IntReadsBack(start);
    assert TrimPrefix(ResumeRange(start), "bytes=") == d + "-" + "";
    assert (d + "-" + "")[..|d|] == d && (d + "-" + "")[|d| + 1..] == "";
  }

  lemma BoundedRangeReadsBack(start: nat, end: nat)
    requires start <= MAX_INT64 && end <= MAX_INT64
    ensures ParseRange("bytes=" + Decimal(start) + "-" + Decimal(end)) == Some(Range(start, Some(end)))
  {
    hide ParseInt64, ParseDigits, Decimal, IndexOf;
    var d, e := Decimal(start), Decimal(end);
    DecimalReadsBack(start);
    IndexAfterDigits(d, e);
    IntReadsBack(start);
    IntReadsBack(end);
    Trimmed("bytes=", d + "-" + e);
    assert "bytes=" + d + "-" + e == "bytes=" + (d + "-" + e);
    hide TrimPrefix;
    assert (d + "-" + e)[..|d|] == d && (d + "-" + e)[|d| + 1..] == e;
  }

  lemma Trimmed(prefix: string, rest: string)
    ensures TrimPrefix(prefix + rest, prefix) == rest
  {
  }

  /** The suffix form has no absolute start and is never taken for one. */
  lemma SuffixRangeHasNoStart(suffix: string)
    ensures ParseRange("bytes=-" + suffix) == None
  {
  }

  lemma ContentRangeReadsBack(start: nat, rest: string)
    requires start <= MAX_INT64
    ensures ParseContentRangeStart("bytes " + Decimal(start) + "-" + rest) == Some(start)
  {
    var d := Decimal(start);
    DecimalReadsBack(start);
    IndexAfterDigits(d, rest);
    IntReadsBack(start);
    assert TrimPrefix("bytes " + d + "-" + rest, "bytes ") == d + "-" + rest;
    assert (d + "-" + rest)[..|d|] == d;
  }

  lemma UnsatisfiedTotalReadsBack(total: nat)
    requires total <= MAX_INT64
    ensures UnsatisfiedTotal("bytes */" + Decimal(total)) == Some(total)
    ensures ParseContentRangeStart("bytes */" + Decimal(total)) == None
  {
    hide ParseInt64, ParseDigits, Decimal, IndexOf;
    var d := Decimal(total);
    IntReadsBack(total);
    DecimalReadsBack(total);
    assert TrimPrefix("bytes */" + d, "bytes */") == d;
    var h := TrimPrefix("bytes */" + d, "bytes ");
    assert h == "*/" + d;
    assert forall k | 2 <= k < |h| :: h[k] == d[k - 2] && d[k - 2] in d;
  }
}
