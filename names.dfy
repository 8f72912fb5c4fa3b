/**
 * The file-name scheme shared by FileCreator and FileDeleter.
 *
 * Both workers name the file they act on with
 * `QString("file_%1.txt").arg(n, 4, 10, QChar('0'))`: the decimal form of the
 * counter, right-aligned in a field of width 4 filled with '0'. The field
 * width is a minimum: a counter of 10000 or more is written in full.
 * The creator writes "Content of file <n>" with the counter unpadded.
 */
module FileNames {

  datatype Option<T> = None | Some(value: T)

  predicate IsDigit(c: char) {
    '0' <= c <= '9'
  }

  predicate AllDigits(s: string) {
    forall i :: 0 <= i < |s| ==> IsDigit(s[i])
  }

  function DigitChar(d: nat): (c: char)
    requires d < 10
    ensures IsDigit(c) && c as int - '0' as int == d
  {
    (d + '0' as int) as char
  }

  /** Value of a string of decimal digits, most significant first. */
  function DigitsValue(s: string): nat
    requires AllDigits(s)
  {
    if s == [] then 0
    else DigitsValue(s[..|s| - 1]) * 10 + (s[|s| - 1] as int - '0' as int)
  }

  /** The decimal form of n without leading zeros, as `QString::number` and `QTextStream` write it. */
  function Decimal(n: nat): (s: string)
    ensures 1 <= |s| && AllDigits(s)
    ensures 10 <= n ==> s[0] != '0'
  {
    if n < 10 then [DigitChar(n)] else Decimal(n / 10) + [DigitChar(n % 10)]
  }

  function Zeros(k: nat): (s: string)
    ensures |s| == k && AllDigits(s)
    ensures forall i :: 0 <= i < k ==> s[i] == '0'
  {
    if k == 0 then [] else Zeros(k - 1) + ['0']
  }

  function Pow10(k: nat): (p: nat)
    ensures 1 <= p
  {
    if k == 0 then 1 else 10 * Pow10(k - 1)
  }

  /** `arg(n, 4, 10, QChar('0'))`: Decimal(n) left-padded with '0' to at least four characters. */
  function Padded(n: nat): (s: string)
    ensures 4 <= |s| && |Decimal(n)| <= |s|
  {
    var d := Decimal(n);
    if |d| < 4 then Zeros(4 - |d|) + d else d
  }

  /** The field is the full decimal form, right-aligned, with only '0' before it. */
  lemma PaddedShape(n: nat)
    ensures var s, d := Padded(n), Decimal(n);
            s[|s| - |d|..] == d && (forall i :: 0 <= i < |s| - |d| ==> s[i] == '0')
            && (4 < |s| ==> s == d)
  {
  }

  /** The name of the file for counter n. */
  function FileName(n: nat): (name: string)
    ensures 13 <= |name|
  {
    "file_" + Padded(n) + ".txt"
  }

  /** What the creator writes into the file for counter n. */
  function FileContent(n: nat): (content: string)
    ensures 17 <= |content|
  {
    "Content of file " + Decimal(n)
  }

  /** Reads a counter back out of a name of the form file_<digits>.txt. */
  function ParseFileName(name: string): (r: Option<nat>)
    ensures r.Some? ==> 10 <= |name| && name[..5] == "file_" && name[|name| - 4..] == ".txt"
  {
    if 10 <= |name| && name[..5] == "file_" && name[|name| - 4..] == ".txt"
       && AllDigits(name[5..|name| - 4])
    then Some(DigitsValue(name[5..|name| - 4]))
    else None
  }

  lemma {:induction false} DecimalValue(n: nat)
    ensures DigitsValue(Decimal(n)) == n
  {
    if 10 <= n {
      DecimalValue(n / 10);
      var d := Decimal(n);
      assert d[..|d| - 1] == Decimal(n / 10);
    }
  }

  lemma {:induction false} LeadingZerosValue(k: nat, s: string)
    requires AllDigits(s)
    ensures AllDigits(Zeros(k) + s) && DigitsValue(Zeros(k) + s) == DigitsValue(s)
    decreases |s|, k
  {
    var z := Zeros(k) + s;
    if s == [] {
      assert z == Zeros(k);
      if k > 0 {
        assert z[..|z| - 1] == Zeros(k - 1) + [];
        LeadingZerosValue(k - 1, []);
      }
    } else {
      assert z[..|z| - 1] == Zeros(k) + s[..|s| - 1];
      LeadingZerosValue(k, s[..|s| - 1]);
    }
  }

  /** Decimal(n) fits in k characters exactly when n < 10^k. */
  lemma {:induction false} DecimalFits(n: nat, k: nat)
    requires 1 <= k
    ensures |Decimal(n)| <= k <==> n < Pow10(k)
  {
    if 10 <= n {
      if k == 1 {
        assert Pow10(1) == 10;
      } else {
        DecimalFits(n / 10, k - 1);
      }
    } else {
      PowAtLeastTen(k);
    }
  }

  lemma {:induction false} PowAtLeastTen(k: nat)
    requires 1 <= k
    ensures 10 <= Pow10(k)
  {
    if 1 < k {
      PowAtLeastTen(k - 1);
    }
  }

  lemma ScaleByTen(a: int, b: int)
    ensures a * (10 * b) == 10 * (a * b)
  {
  }

  /** The value of a digit string read from its first digit. */
  lemma {:induction false} DigitsValueFront(s: string)
    requires 1 <= |s| && AllDigits(s)
    ensures DigitsValue(s) == (s[0] as int - '0' as int) * Pow10(|s| - 1) + DigitsValue(s[1..])
    decreases |s|
  {
    if 1 < |s| {
      var n := |s|;
      var init := s[..n - 1];
      DigitsValueFront(init);
      assert init[1..] == s[1..][..n - 2];
      var d0 := s[0] as int - '0' as int;
      var e := s[n - 1] as int - '0' as int;
      var lead := d0 * Pow10(n - 2);
      assert DigitsValue(init) == lead + DigitsValue(init[1..]);
      assert DigitsValue(s[1..]) == DigitsValue(init[1..]) * 10 + e;
      ScaleByTen(d0, Pow10(n - 2));
      assert d0 * Pow10(n - 1) == 10 * lead;
    }
  }

  /** A string of k digits has a value below 10^k. */
  lemma {:induction false} DigitsValueBound(s: string)
    requires AllDigits(s)
    ensures DigitsValue(s) < Pow10(|s|)
    decreases |s|
  {
    if s != [] {
      DigitsValueBound(s[..|s| - 1]);
    }
  }

  /** The padded field parses back to n: padding never changes the value and never truncates. */
  lemma PaddedValue(n: nat)
    ensures AllDigits(Padded(n)) && DigitsValue(Padded(n)) == n
    ensures |Padded(n)| == if n < 10000 then 4 else |Decimal(n)|
  {
    var d := Decimal(n);
    DecimalValue(n);
    DecimalFits(n, 4);
    if |d| < 4 {
      assert Padded(n) == Zeros(4 - |d|) + d;
      LeadingZerosValue(4 - |d|, d);
    } else {
      assert Padded(n) == d;
    }
  }

  /** Round trip: the counter can be read back from every name the workers compose. */
  lemma FileNameRoundTrip(n: nat)
    ensures ParseFileName(FileName(n)) == Some(n)
  {
    var name := FileName(n);
    var p := Padded(n);
    PaddedValue(n);
    assert name[..5] == "file_";
    assert name[|name| - 4..] == ".txt";
    assert name[5..|name| - 4] == p;
  }

  /** Distinct counters give distinct names, so no create overwrites an earlier create's file. */
  lemma FileNameInjective(a: nat, b: nat)
    ensures FileName(a) == FileName(b) <==> a == b
  {
    if FileName(a) == FileName(b) {
      FileNameRoundTrip(a);
      FileNameRoundTrip(b);
    }
  }

  /** Names are 13 characters long exactly while the counter is below 10000; beyond that the digits are kept whole. */
  lemma FileNameLength(n: nat)
    ensures |FileName(n)| == 13 <==> n < 10000
    ensures 10000 <= n ==> FileName(n) == "file_" + Decimal(n) + ".txt" && 14 <= |FileName(n)|
  {
    PaddedValue(n);
    DecimalFits(n, 4);
  }

  /** The content names the same counter as the file name. */
  lemma FileContentRoundTrip(n: nat)
    ensures FileContent(n)[..16] == "Content of file "
    ensures AllDigits(FileContent(n)[16..]) && DigitsValue(FileContent(n)[16..]) == n
  {
    assert FileContent(n)[16..] == Decimal(n);
    DecimalValue(n);
  }
}
