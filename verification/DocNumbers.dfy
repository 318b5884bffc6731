/** Document numbers: zero-padded printing, parsing, and the two ways of choosing the next one. */
module DocNumbers {
  import opened Sums

  // ---------------------------------------------------------------- digits

  predicate IsDigit(c: char)
  {
    '0' <= c <= '9'
  }

  predicate AllDigits(s: string)
  {
    forall i :: 0 <= i < |s| ==> IsDigit(s[i])
  }

  function DigitValue(c: char): nat
    requires IsDigit(c)
  {
    c as int - '0' as int
  }

  function DigitChar(n: nat): char
    requires n <= 9
  {
    '0' + n as char
  }

  /** Decimal notation without leading zeros. */
  function Digits(n: nat): string
  {
    if n < 10 then [DigitChar(n)] else Digits(n / 10) + [DigitChar(n % 10)]
  }

  function Zeros(n: nat): string
  {
    if n == 0 then "" else "0" + Zeros(n - 1)
  }

  function PadStart(s: string, width: nat): string
  {
    if |s| >= width then s else Zeros(width - |s|) + s
  }

  function Value(s: string): nat
    requires AllDigits(s)
  {
    if s == "" then 0 else 10 * Value(s[..|s| - 1]) + DigitValue(s[|s| - 1])
  }

  /** How many digits a text starts with. */
  function LeadingDigits(s: string): (n: nat)
    ensures n <= |s| && AllDigits(s[..n])
  {
    if s == "" || !IsDigit(s[0]) then 0
    else
      var n := 1 + LeadingDigits(s[1..]);
      assert s[..n] == [s[0]] + s[1..][..n - 1];
      n
  }

  /** parseInt(s, 10) on texts without sign or leading blanks; None stands for NaN. */
  function ParseInt(s: string): Option<nat>
  {
    var n := LeadingDigits(s);
    if n == 0 then None else Some(Value(s[..n]))
  }

  lemma {:induction false} ZerosProperties(n: nat)
    ensures |Zeros(n)| == n && AllDigits(Zeros(n))
  {
    if n == 0 {
    } else {
      ZerosProperties(n - 1);
    }
  }

  lemma {:induction false} ValueOfZerosBefore(n: nat, s: string)
    requires AllDigits(s)
    ensures AllDigits(Zeros(n) + s) && Value(Zeros(n) + s) == Value(s)
  {
    ZerosProperties(n);
    var padded := Zeros(n) + s;
    if s != "" {
      assert padded[..|padded| - 1] == Zeros(n) + s[..|s| - 1];
      ValueOfZerosBefore(n, s[..|s| - 1]);
    } else if n > 0 {
      assert Zeros(n) + "" == Zeros(n);
      ZerosAppend(n - 1);
      ValueOfZerosBefore(n - 1, "");
      assert Zeros(n - 1) + "" == Zeros(n - 1);
    }
  }

  lemma {:induction false} ZerosAppend(n: nat)
    ensures Zeros(n + 1) == Zeros(n) + "0"
  {
    if n == 0 {
    } else {
      ZerosAppend(n - 1);
    }
  }

  lemma {:induction false} ValueOfDigits(n: nat)
    ensures AllDigits(Digits(n)) && Digits(n) != "" && Value(Digits(n)) == n
  {
    if n >= 10 {
      ValueOfDigits(n / 10);
      assert Digits(n)[..|Digits(n)| - 1] == Digits(n / 10);
    }
  }

  function Pow10(n: nat): nat
  {
    if n == 0 then 1 else 10 * Pow10(n - 1)
  }

  lemma {:induction false} LengthOfDigits(n: nat, width: nat)
    requires width >= 1
    ensures |Digits(n)| <= width <==> n < Pow10(width)
  {
    if n >= 10 {
      ValueOfDigits(n / 10);
      if width > 1 {
        LengthOfDigits(n / 10, width - 1);
      }
    } else {
      assert width > 1 ==> Pow10(width) >= 10 by {
        Pow10Grows(width - 1);
      }
    }
  }

  lemma {:induction false} Pow10Grows(n: nat)
    ensures Pow10(n) >= 1
  {
    if n == 0 {
    } else {
      Pow10Grows(n - 1);
    }
  }

  function Padded(n: nat, width: nat): string
  {
    PadStart(Digits(n), width)
  }

  lemma PaddedProperties(n: nat, width: nat)
    ensures AllDigits(Padded(n, width)) && Padded(n, width) != "" && Value(Padded(n, width)) == n
    ensures width >= 1 ==> (|Padded(n, width)| == width <==> n < Pow10(width))
  {
    ValueOfDigits(n);
    if |Digits(n)| < width {
      ValueOfZerosBefore(width - |Digits(n)|, Digits(n));
      ZerosProperties(width - |Digits(n)|);
    }
    if width >= 1 {
      LengthOfDigits(n, width);
    }
  }

  lemma {:induction false} AllLeading(s: string)
    requires AllDigits(s)
    ensures LeadingDigits(s) == |s|
  {
    if s != "" {
      AllLeading(s[1..]);
    }
  }

  function Print(prefix: string, n: nat): string
  {
    prefix + Padded(n, 5)
  }

  /** The number of a document, read off after its prefix. */
  function NumberOf(prefix: string, document: string): Option<nat>
    requires prefix <= document
  {
    ParseInt(document[|prefix|..])
  }

  /** Parsing undoes printing, for every prefix, number and width; so printing is injective. */
  lemma ParseUndoesPrint(prefix: string, n: nat, width: nat)
    ensures NumberOf(prefix, prefix + Padded(n, width)) == Some(n)
  {
    PaddedProperties(n, width);
    AllLeading(Padded(n, width));
    assert (prefix + Padded(n, width))[|prefix|..] == Padded(n, width);
    assert Padded(n, width)[..|Padded(n, width)|] == Padded(n, width);
  }

  // ---------------------------------------------------------------- the order of texts

  /** Strict lexicographic order, as ORDER BY compares texts. */
  predicate Before(a: string, b: string)
  {
    if b == "" then false
    else if a == "" then true
    else a[0] < b[0] || (a[0] == b[0] && Before(a[1..], b[1..]))
  }

  lemma {:induction false} BeforeTotal(a: string, b: string)
    ensures Before(a, b) || Before(b, a) || a == b
    ensures !(Before(a, b) && Before(b, a)) && !Before(a, a)
  {
    if a != "" && b != "" {
      BeforeTotal(a[1..], b[1..]);
      assert a == [a[0]] + a[1..] && b == [b[0]] + b[1..];
    }
    if a != "" {
      BeforeTotal(a[1..], a[1..]);
    }
  }

  lemma {:induction false} BeforeTransitive(a: string, b: string, c: string)
    requires Before(a, b) && Before(b, c)
    ensures Before(a, c)
  {
    if a != "" && a[0] == b[0] == c[0] {
      BeforeTransitive(a[1..], b[1..], c[1..]);
    }
  }

  lemma {:induction false} BeforeSamePrefix(prefix: string, a: string, b: string)
    ensures Before(prefix + a, prefix + b) <==> Before(a, b)
  {
    if prefix == "" {
      assert prefix + a == a && prefix + b == b;
    } else {
      assert (prefix + a)[1..] == prefix[1..] + a && (prefix + b)[1..] == prefix[1..] + b;
      BeforeSamePrefix(prefix[1..], a, b);
    }
  }

  lemma {:induction false} BeforeFromTheBack(a: string, b: string)
    requires |a| == |b| > 0
    ensures
      var n := |a| - 1;
      Before(a, b) <==> Before(a[..n], b[..n]) || (a[..n] == b[..n] && a[n] < b[n])
  {
    var n := |a| - 1;
    if n == 0 {
    } else {
      BeforeFromTheBack(a[1..], b[1..]);
      assert a[1..][..n - 1] == a[..n][1..] && b[1..][..n - 1] == b[..n][1..];
      assert a[..n] == [a[0]] + a[..n][1..] && b[..n] == [b[0]] + b[..n][1..];
    }
  }

  /** On digit texts of one length the order of texts is the order of numbers. */
  lemma {:induction false} OrderIsNumeric(a: string, b: string)
    requires |a| == |b| && AllDigits(a) && AllDigits(b)
    ensures Before(a, b) <==> Value(a) < Value(b)
    ensures a == b <==> Value(a) == Value(b)
  {
    if a != "" {
      var n := |a| - 1;
      BeforeFromTheBack(a, b);
      OrderIsNumeric(a[..n], b[..n]);
      assert a == a[..n] + [a[n]] && b == b[..n] + [b[n]];
    }
  }

  // ---------------------------------------------------------------- greatest text plus one

  /** The first row of SELECT ... WHERE number LIKE 'prefix%' ORDER BY number DESC. */
  function Last(rows: seq<string>, prefix: string): Option<string>
  {
    if rows == [] then None
    else
      var row := rows[|rows| - 1];
      var best := Last(rows[..|rows| - 1], prefix);
      if prefix <= row && (best == None || Before(best.value, row)) then Some(row) else best
  }

  function GenerateNumber(rows: seq<string>, prefix: string): string
  {
    match Last(rows, prefix)
    case None => Print(prefix, 1)
    case Some(last) =>
      if !(prefix <= last) then Print(prefix, 1)
      else
        match NumberOf(prefix, last)
        case None => Print(prefix, 1)
        case Some(n) => Print(prefix, n + 1)
  }

  lemma {:induction false} LastIsGreatest(rows: seq<string>, prefix: string)
    ensures Last(rows, prefix).Some? ==>
      Last(rows, prefix).value in rows && prefix <= Last(rows, prefix).value
    ensures forall i :: 0 <= i < |rows| && prefix <= rows[i] ==>
      Last(rows, prefix).Some? && !Before(Last(rows, prefix).value, rows[i])
  {
    if rows == [] {
    } else {
      var n := |rows| - 1;
      LastIsGreatest(rows[..n], prefix);
      var best, now := Last(rows[..n], prefix), Last(rows, prefix);
      forall i | 0 <= i < |rows| && prefix <= rows[i]
        ensures now.Some? && !Before(now.value, rows[i])
      {
        if i < n {
          assert rows[..n][i] == rows[i];
          if now != best && Before(now.value, rows[i]) {
            BeforeTransitive(best.value, now.value, rows[i]);
          }
        } else {
          BeforeTotal(rows[n], rows[n]);
        }
      }
    }
  }

  /** Row `r` is the document of this series with number `n`. */
  predicate IsNumber(prefix: string, r: string, n: nat)
  {
    r == Print(prefix, n)
  }

  /** The rows of one series and year: every row with the prefix was printed by this code. */
  ghost predicate Printed(rows: seq<string>, prefix: string, limit: nat)
  {
    forall i :: 0 <= i < |rows| && prefix <= rows[i] ==> exists n: nat :: n <= limit && IsNumber(prefix, rows[i], n)
  }

  lemma PrintInjective(prefix: string, m: nat, n: nat)
    requires Print(prefix, m) == Print(prefix, n)
    ensures m == n
  {
    ParseUndoesPrint(prefix, m, 5);
    ParseUndoesPrint(prefix, n, 5);
  }

  lemma GenerateAfter(rows: seq<string>, prefix: string, n: nat)
    requires Last(rows, prefix) == Some(Print(prefix, n))
    ensures GenerateNumber(rows, prefix) == Print(prefix, n + 1)
  {
    ParseUndoesPrint(prefix, n, 5);
  }

  lemma NumbersOrdered(prefix: string, m: nat, n: nat)
    requires m <= 99999 && n <= 99999
    ensures Before(Print(prefix, m), Print(prefix, n)) <==> m < n
  {
    PaddedProperties(m, 5);
    PaddedProperties(n, 5);
    assert Pow10(5) == 100000 by {
      assert Pow10(2) == 100;
    }
    OrderIsNumeric(Padded(m, 5), Padded(n, 5));
    BeforeSamePrefix(prefix, Padded(m, 5), Padded(n, 5));
  }

  lemma NotAfterGreatest(rows: seq<string>, prefix: string, top: nat, i: nat, n: nat)
    requires Printed(rows, prefix, 99999) && top <= 99999
    requires i < |rows| && IsNumber(prefix, rows[i], n) && !Before(Print(prefix, top), rows[i])
    ensures n <= top
  {
    assert prefix <= rows[i];
    var m: nat :| m <= 99999 && IsNumber(prefix, rows[i], m);
    PrintInjective(prefix, m, n);
    NumbersOrdered(prefix, top, n);
  }

  lemma GreatestText(rows: seq<string>, prefix: string) returns (top: nat)
    requires Printed(rows, prefix, 99999) && Last(rows, prefix).Some?
    ensures top <= 99999 && Last(rows, prefix).value == Print(prefix, top) && Print(prefix, top) in rows
  {
    LastIsGreatest(rows, prefix);
    var k :| 0 <= k < |rows| && rows[k] == Last(rows, prefix).value;
    top :| top <= 99999 && IsNumber(prefix, rows[k], top);
  }

  /** While every number of the year is at most 99999, the greatest text is the greatest number,
      `top`, and the generated document follows it: it is new. */
  lemma GeneratedIsFresh(rows: seq<string>, prefix: string) returns (top: nat)
    requires Printed(rows, prefix, 99999)
    ensures GenerateNumber(rows, prefix) == Print(prefix, top + 1)
    ensures GenerateNumber(rows, prefix) !in rows
    ensures top == 0 || Print(prefix, top) in rows
    ensures forall i, n: nat :: 0 <= i < |rows| && IsNumber(prefix, rows[i], n) ==> n <= top
  {
    LastIsGreatest(rows, prefix);
    if Last(rows, prefix).Some? {
      top := GreatestText(rows, prefix);
      GenerateAfter(rows, prefix, top);
    } else {
      top := 0;
    }
    forall i, n: nat | 0 <= i < |rows| && IsNumber(prefix, rows[i], n)
      ensures n <= top
    {
      assert prefix <= rows[i];
      NotAfterGreatest(rows, prefix, top, i, n);
    }
    if i :| 0 <= i < |rows| && rows[i] == Print(prefix, top + 1) {
      assert IsNumber(prefix, rows[i], top + 1);
    }
  }

  /** The rows of a year from which nothing was deleted: 1, 2, ..., k. */
  function Series(prefix: string, k: nat): seq<string>
  {
    seq(k, i requires 0 <= i < k => Print(prefix, i + 1))
  }

  lemma SixDigitsSortFirst(prefix: string)
    ensures Before(Print(prefix, 100000), Print(prefix, 99999))
  {
    PaddedProperties(100000, 5);
    PaddedProperties(99999, 5);
    SomeTexts();
    BeforeSamePrefix(prefix, "100000", "99999");
    assert Before("100000", "99999");
  }

  lemma SomeTexts()
    ensures Padded(100000, 5) == "100000" && Padded(99999, 5) == "99999" && Padded(1, 4) == "0001"
  {
    assert Digits(10) == "10" && Digits(99) == "99";
    assert Digits(100) == "100" && Digits(999) == "999";
    assert Digits(1000) == "1000" && Digits(9999) == "9999";
    assert Digits(10000) == "10000" && Digits(99999) == "99999";
    assert Digits(100000) == "100000";
    assert Zeros(1) == "0" && Zeros(2) == "00" && Zeros(3) == "000";
  }

  lemma TopOfSeries(rows: seq<string>, prefix: string, top: nat)
    requires forall i :: 0 <= i < |rows| ==> IsNumber(prefix, rows[i], i + 1)
    requires top == 0 || Print(prefix, top) in rows
    requires forall i, n: nat :: 0 <= i < |rows| && IsNumber(prefix, rows[i], n) ==> n <= top
    ensures top == |rows|
  {
    if rows != [] {
      assert IsNumber(prefix, rows[|rows| - 1], |rows|);
    }
    if top > 0 {
      var i :| 0 <= i < |rows| && rows[i] == Print(prefix, top);
      assert IsNumber(prefix, rows[i], i + 1);
      PrintInjective(prefix, top, i + 1);
    }
  }

  /** Up to 99999 documents of an undeleted series, the next one is number k + 1 and new. */
  lemma SeriesContinues(rows: seq<string>, prefix: string)
    requires |rows| <= 99999 && forall i :: 0 <= i < |rows| ==> IsNumber(prefix, rows[i], i + 1)
    ensures GenerateNumber(rows, prefix) == Print(prefix, |rows| + 1)
    ensures GenerateNumber(rows, prefix) !in rows
  {
    var top := GeneratedIsFresh(rows, prefix);
    TopOfSeries(rows, prefix, top);
  }

  /** With 100000 documents the text "99999" still sorts last: number 100000 comes a second time. */
  lemma SeriesStops(prefix: string)
    ensures GenerateNumber(Series(prefix, 100000), prefix) == Print(prefix, 100000)
    ensures GenerateNumber(Series(prefix, 100000), prefix) in Series(prefix, 100000)
  {
    var rows := Series(prefix, 100000);
    LastIsGreatest(rows, prefix);
    assert rows[99998] == Print(prefix, 99999) && prefix <= rows[99998];
    var last := Last(rows, prefix).value;
    var i :| 0 <= i < 100000 && rows[i] == last;
    if i < 99999 {
      NumbersOrdered(prefix, i + 1, 99999);
    } else {
      SixDigitsSortFirst(prefix);
    }
    GenerateAfter(rows, prefix, 99999);
    assert rows[99999] == Print(prefix, 100000);
  }

  predicate Collides(rows: seq<string>, prefix: string)
  {
    GenerateNumber(rows, prefix) in rows
  }

  /** So the next document of an undeleted series collides exactly at 100000 documents. */
  lemma CollidesExactly(prefix: string, k: nat)
    requires k <= 100000
    ensures Collides(Series(prefix, k), prefix) <==> k == 100000
  {
    if k < 100000 {
      SeriesContinues(Series(prefix, k), prefix);
    } else {
      SeriesStops(prefix);
    }
  }

  // ---------------------------------------------------------------- latest document plus one

  /** What follows the last dash. */
  function LastPart(s: string): string
  {
    if s == "" || s[|s| - 1] == '-' then "" else LastPart(s[..|s| - 1]) + [s[|s| - 1]]
  }

  function Sequential(prefix: string, n: nat): string
  {
    prefix + "-" + Padded(n, 4)
  }

  /** The number after `last`, the most recently created document of the series. */
  function ComputeNextSequentialNumber(last: Option<string>, prefix: string): string
  {
    if last == None || last.value == "" then prefix + "-" + "0001"
    else
      var part := LastPart(last.value);
      match ParseInt(if part == "" then "0" else part)
      case None => Sequential(prefix, 1)
      case Some(n) => Sequential(prefix, n + 1)
  }

  lemma {:induction false} LastPartOf(lead: string, digits: string)
    requires AllDigits(digits)
    ensures LastPart(lead + "-" + digits) == digits
  {
    var s := lead + "-" + digits;
    if digits != "" {
      var n := |digits| - 1;
      assert s[..|s| - 1] == lead + "-" + digits[..n];
      LastPartOf(lead, digits[..n]);
      assert IsDigit(digits[n]) && digits == digits[..n] + [digits[n]];
    }
  }

  lemma ParsePadded(n: nat)
    ensures ParseInt(Padded(n, 4)) == Some(n) && Padded(n, 4) != ""
  {
    PaddedProperties(n, 4);
    AllLeading(Padded(n, 4));
    assert Padded(n, 4)[..|Padded(n, 4)|] == Padded(n, 4);
  }

  lemma NextOfSequential(prefix: string, n: nat)
    ensures ComputeNextSequentialNumber(Some(Sequential(prefix, n)), prefix) == Sequential(prefix, n + 1)
  {
    PaddedProperties(n, 4);
    ParsePadded(n);
    LastPartOf(prefix, Padded(n, 4));
  }

  lemma SequentialInjective(prefix: string, m: nat, n: nat)
    requires Sequential(prefix, m) == Sequential(prefix, n)
    ensures m == n
  {
    PaddedProperties(m, 4);
    PaddedProperties(n, 4);
    LastPartOf(prefix, Padded(m, 4));
    LastPartOf(prefix, Padded(n, 4));
    ParsePadded(m);
    ParsePadded(n);
  }

  /** Documents created one after the other, each numbered from the one before. */
  function Created(prefix: string, k: nat): (rows: seq<string>)
    ensures |rows| == k
  {
    if k == 0 then []
    else
      var rows := Created(prefix, k - 1);
      rows + [ComputeNextSequentialNumber(if rows == [] then None else Some(rows[|rows| - 1]), prefix)]
  }

  lemma FirstSequential(prefix: string)
    ensures ComputeNextSequentialNumber(None, prefix) == Sequential(prefix, 1)
  {
    SomeTexts();
  }

  /** The k-th invoice or payment has number k, whatever k is. */
  lemma {:induction false} KthHasNumberK(prefix: string, k: nat, i: nat)
    requires i < k
    ensures Created(prefix, k)[i] == Sequential(prefix, i + 1)
  {
    var rows := Created(prefix, k - 1);
    if i < k - 1 {
      KthHasNumberK(prefix, k - 1, i);
    } else if k == 1 {
      FirstSequential(prefix);
    } else {
      KthHasNumberK(prefix, k - 1, k - 2);
      NextOfSequential(prefix, k - 1);
    }
  }

  lemma NoTwoShareANumber(prefix: string, k: nat, i: nat, j: nat)
    requires i < j < k
    ensures Created(prefix, k)[i] != Created(prefix, k)[j]
  {
    KthHasNumberK(prefix, k, i);
    KthHasNumberK(prefix, k, j);
    if Sequential(prefix, i + 1) == Sequential(prefix, j + 1) {
      SequentialInjective(prefix, i + 1, j + 1);
    }
  }
}
