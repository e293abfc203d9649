/** Decimal numbers as strconv writes and reads them. */
module Numbers {
  import opened GoArithmetic
  import opened Options

  /** strconv.Itoa */
  function Itoa(n: int): (s: string)
    decreases if n < 0 then -n + 1 else n
  {
    if n < 0 then "-" + Itoa(-n)
    else if n < 10 then [Digit(n)]
    else Itoa(n / 10) + [Digit(n % 10)]
  }

  function Digit(n: int): char
    requires 0 <= n < 10
  {
    ('0' as int + n) as char
  }

  predicate IsDigit(c: char) {
    '0' <= c <= '9'
  }

  /** strconv.Atoi on digits; it fails beyond 64 bits. */
  function Atoi(digits: string): Option<int> {
    var v := Decimal(digits);
    if v > MAX_INT64 then None else Some(v)
  }

  function Decimal(digits: string): int {
    if digits == "" then 0
    else 10 * Decimal(digits[..|digits| - 1]) + (digits[|digits| - 1] as int - '0' as int)
  }

  lemma {:induction false} ItoaIsPlain(n: int, c: char)
    requires !IsDigit(c) && c != '-'
    ensures c !in Itoa(n)
    decreases if n < 0 then -n + 1 else n
  {
    if n < 0 {
      ItoaIsPlain(-n, c);
    } else if n >= 10 {
      ItoaIsPlain(n / 10, c);
    }
  }

  lemma DecimalStep(digits: string, c: char)
    ensures Decimal(digits + [c]) == 10 * Decimal(digits) + (c as int - '0' as int)
  {
  }

  lemma DecimalOfNothing()
    ensures Decimal("") == 0
  {
  }

  // ---- what is written is read back ----

  function Zeros(k: nat): string {
    if k == 0 then "" else "0" + Zeros(k - 1)
  }

  predicate OnlyDigits(s: string) {
    forall i :: 0 <= i < |s| ==> '0' <= s[i] <= '9'
  }

  lemma {:induction false} ItoaIsDigits(n: nat)
    ensures OnlyDigits(Itoa(n)) && Itoa(n) != ""
    decreases n
  {
    if n >= 10 {
      ItoaIsDigits(n / 10);
    }
  }

  lemma {:induction false} DecimalOfItoa(n: nat)
    ensures Decimal(Itoa(n)) == n
    decreases n
  {
    if n < 10 {
      assert [Digit(n)][..0] == "";
    } else {
      DecimalOfItoa(n / 10);
      DecimalStep(Itoa(n / 10), Digit(n % 10));
    }
  }

  /** strconv.Atoi reads back what strconv.Itoa writes, over the whole 64-bit range. */
  lemma AtoiOfItoa(n: nat)
    ensures Atoi(Itoa(n)) == if n <= MAX_INT64 then Some(n) else None
  {
    DecimalOfItoa(n);
  }

  lemma {:induction false} ZerosThen(k: nat, digits: string)
    ensures Decimal(Zeros(k) + digits) == Decimal(digits)
    decreases |digits|, k
  {
    if digits == "" {
      assert Zeros(k) + "" == Zeros(k);
      ZerosAreNothing(k);
    } else {
      var n := |digits| - 1;
      ZerosThen(k, digits[..n]);
      DecimalStep(Zeros(k) + digits[..n], digits[n]);
      DecimalStep(digits[..n], digits[n]);
      assert Zeros(k) + digits == Zeros(k) + digits[..n] + [digits[n]];
      assert digits == digits[..n] + [digits[n]];
    }
  }

  lemma {:induction false} ZerosAreNothing(k: nat)
    ensures Decimal(Zeros(k)) == 0
    decreases k
  {
    if k > 0 {
      ZerosAreNothing(k - 1);
      ZerosAtEnd(k - 1);
      DecimalStep(Zeros(k - 1), '0');
    }
  }

  lemma {:induction false} ZerosAtEnd(k: nat)
    ensures Zeros(k) + "0" == Zeros(k + 1)
    decreases k
  {
    if k > 0 {
      ZerosAtEnd(k - 1);
      assert "0" + Zeros(k - 1) + "0" == "0" + (Zeros(k - 1) + "0");
    }
  }

  /** Every digit string is a number behind zeros. */
  lemma {:induction false} DigitsAreNumber(digits: string) returns (zeros: nat, n: nat)
    requires digits != "" && OnlyDigits(digits)
    ensures digits == Zeros(zeros) + Itoa(n)
    decreases |digits|
  {
    var last := |digits| - 1;
    var v := digits[last] as int - '0' as int;
    assert Itoa(v) == [digits[last]];
    if last == 0 {
      zeros, n := 0, v;
      assert digits == [digits[0]];
    } else {
      var m;
      zeros, m := DigitsAreNumber(digits[..last]);
      assert digits == digits[..last] + [digits[last]];
      if m == 0 {
        assert Itoa(0) == "0";
        ZerosAtEnd(zeros);
        zeros, n := zeros + 1, v;
      } else {
        n := 10 * m + v;
        assert n / 10 == m && n % 10 == v;
        assert Zeros(zeros) + Itoa(m) + Itoa(v) == Zeros(zeros) + (Itoa(m) + Itoa(v));
      }
    }
  }

  lemma {:induction false} ZerosAreDigits(k: nat)
    ensures OnlyDigits(Zeros(k))
    decreases k
  {
    if k > 0 {
      ZerosAreDigits(k - 1);
    }
  }
}
