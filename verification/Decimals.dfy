/** Unsigned decimal text, as %d and strconv.FormatUint print it. */
module Decimals {
  import opened Wrappers

  function Digit(d: nat): (c: char)
    requires d < 10
  {
    ('0' as int + d) as char
  }

  predicate IsDigit(c: char) { '0' <= c <= '9' }

  function Decimal(n: nat): string {
    if n < 10 then [Digit(n)] else Decimal(n / 10) + [Digit(n % 10)]
  }

  /** The number a run of digits stands for. */
  function Value(digits: string): nat
    requires forall c <- digits :: IsDigit(c)
  {
    if digits == [] then 0 else
      var last := digits[|digits|-1];
      assert last in digits && IsDigit(last);
      10 * Value(digits[..|digits|-1]) + (last as int - '0' as int)
  }

  function Pow10(k: nat): (p: nat)
    ensures p >= 1
  {
    if k == 0 then 1 else 10 * Pow10(k - 1)
  }

  /** Printing then reading gives the number back; the text is never empty and has no superfluous zero. */
  lemma {:induction false} DecimalValue(n: nat)
    ensures Decimal(n) != [] && (forall c <- Decimal(n) :: IsDigit(c)) && Value(Decimal(n)) == n
    ensures Decimal(n)[0] == '0' ==> n == 0
  {
    if n >= 10 {
      DecimalValue(n / 10);
      var s := Decimal(n);
      assert s[..|s|-1] == Decimal(n / 10);
    }
  }

  lemma {:induction false} DecimalLength(n: nat, k: nat)
    requires n < Pow10(k) && k > 0
    ensures |Decimal(n)| <= k
  {
    if n >= 10 {
      DecimalLength(n / 10, k - 1);
    }
  }

  lemma UInt64Length(n: nat)
    requires n < 0x1_0000_0000_0000_0000
    ensures |Decimal(n)| <= 20
  {
    assert Pow10(20) == 100_000_000_000_000_000_000 by { Pow10Of20(); }
    DecimalLength(n, 20);
  }

  lemma Int64Length(n: nat)
    requires n < 0x8000_0000_0000_0000
    ensures |Decimal(n)| <= 19
  {
    assert Pow10(19) == 10_000_000_000_000_000_000 by { Pow10Of20(); }
    DecimalLength(n, 19);
  }

  lemma Pow10Of20()
    ensures Pow10(19) == 10_000_000_000_000_000_000 && Pow10(20) == 100_000_000_000_000_000_000
  {
    assert Pow10(5) == 100_000;
    assert Pow10(10) == 10_000_000_000;
    assert Pow10(15) == 1_000_000_000_000_000;
  }

  // ---- Reading numbers out of a text ----

  datatype Fields = Fields(numbers: seq<nat>, rest: string)

  /** How many digits a text begins with. */
  function DigitsOf(s: string): (n: nat)
    ensures n <= |s| && forall c <- s[..n] :: IsDigit(c)
  {
    if s != "" && IsDigit(s[0]) then
      assert forall c <- s[..1 + DigitsOf(s[1..])] :: c == s[0] || c in s[1..][..DigitsOf(s[1..])];
      1 + DigitsOf(s[1..])
    else 0
  }

  /** Each of these words, and after it a number. */
  function ReadNumbers(words: seq<string>, s: string): Option<Fields> {
    if words == [] then Some(Fields([], s))
    else if !(words[0] <= s) then None
    else
      var t := s[|words[0]|..];
      var n := DigitsOf(t);
      if n == 0 then None
      else
        match ReadNumbers(words[1..], t[n..])
        case None => None
        case Some(more) => Some(Fields([Value(t[..n])] + more.numbers, more.rest))
  }

  lemma {:induction false} DigitsThen(digits: string, more: string)
    requires (forall c <- digits :: IsDigit(c)) && (more == "" || !IsDigit(more[0]))
    ensures DigitsOf(digits + more) == |digits|
  {
    hide IsDigit;
    if digits != "" {
      assert (digits + more)[1..] == digits[1..] + more;
      DigitsThen(digits[1..], more);
    } else {
      assert digits + more == more;
    }
  }

  /** A word and a printed number are read back. */
  lemma NumberReads(word: string, words: seq<string>, n: nat, more: string, f: Fields)
    requires (more == "" || !IsDigit(more[0])) && ReadNumbers(words, more) == Some(f)
    ensures ReadNumbers([word] + words, word + Decimal(n) + more) == Some(Fields([n] + f.numbers, f.rest))
  {
    hide IsDigit, Decimal, Value, DigitsOf;
    DecimalValue(n);
    DigitsThen(Decimal(n), more);
    var s := word + Decimal(n) + more;
    assert s[|word|..] == Decimal(n) + more && word <= s && ([word] + words)[1..] == words;
    assert (Decimal(n) + more)[..|Decimal(n)|] == Decimal(n) && (Decimal(n) + more)[|Decimal(n)|..] == more;
  }

  lemma NoMoreNumbers(s: string)
    ensures ReadNumbers([], s) == Some(Fields([], s))
  {
  }
}
