/**
 * The two C library routines whose results the sample depends on: `strtol`
 * with base 0 (used for every numeric option) and `strlen` (used to step
 * through the metadata key list).
 */
module CLib {
  import opened CTypes

  const NUL: char := '\0'

  predicate IsSpace(c: char)
  {
    c == ' ' || c == '\t' || c == '\n' || c == '\r' || c == '\U{000B}' || c == '\U{000C}'
  }

  function DropSpaces(s: string): string
  {
    if |s| > 0 && IsSpace(s[0]) then DropSpaces(s[1..]) else s
  }

  /** The value of `c` as a digit in bases up to 16; 16 when it is not one. */
  function DigitValue(c: char): nat
  {
    if '0' <= c <= '9' then c as int - '0' as int
    else if 'a' <= c <= 'f' then c as int - 'a' as int + 10
    else if 'A' <= c <= 'F' then c as int - 'A' as int + 10
    else 16
  }

  /** Folds the longest prefix of base-`base` digits of `s` onto `acc`. */
  function Accumulate(s: string, base: nat, acc: nat): nat
  {
    if |s| > 0 && DigitValue(s[0]) < base then Accumulate(s[1..], base, acc * base + DigitValue(s[0]))
    else acc
  }

  /** Out-of-range results saturate at LONG_MIN / LONG_MAX. */
  function Clamp(x: int): int
  {
    if x < LongMin then LongMin else if x > LongMax then LongMax else x
  }

  /**
   * `strtol(s, NULL, 0)`: leading white space, an optional sign, then a
   * hexadecimal number after `0x`/`0X`, an octal number after a leading `0`,
   * or a decimal number; parsing stops at the first character that is not a
   * digit of the base, and no digits at all give 0.
   */
  function StrToL(s: string): (r: int)
    ensures LongMin <= r <= LongMax
  {
    var t := DropSpaces(s);
    var neg := |t| > 0 && t[0] == '-';
    var u := if |t| > 0 && (t[0] == '-' || t[0] == '+') then t[1..] else t;
    var mag :=
      if |u| >= 3 && u[0] == '0' && (u[1] == 'x' || u[1] == 'X') && DigitValue(u[2]) < 16 then Accumulate(u[2..], 16, 0)
      else if |u| >= 1 && u[0] == '0' then Accumulate(u, 8, 0)
      else Accumulate(u, 10, 0);
    Clamp(if neg then -mag else mag)
  }

  /** Decimal rendering without leading zeros: the reference for `StrToL`. */
  function Decimal(n: nat): (s: string)
    ensures |s| > 0
  {
    if n < 10 then [DigitChar(n)] else Decimal(n / 10) + [DigitChar(n % 10)]
  }

  function DigitChar(d: nat): char
    requires d < 10
  {
    ('0' as int + d) as char
  }

  predicate AllDigits(s: string, base: nat)
  {
    forall i :: 0 <= i < |s| ==> DigitValue(s[i]) < base
  }

  lemma {:induction false} AccumulateAppend(s: string, t: string, base: nat, acc: nat)
    requires AllDigits(s, base)
    ensures Accumulate(s + t, base, acc) == Accumulate(t, base, Accumulate(s, base, acc))
  {
    if |s| > 0 {
      assert (s + t)[1..] == s[1..] + t;
      AccumulateAppend(s[1..], t, base, acc * base + DigitValue(s[0]));
    } else {
      assert s + t == t;
    }
  }

  lemma {:induction false} DecimalFacts(n: nat)
    ensures AllDigits(Decimal(n), 10)
    ensures Accumulate(Decimal(n), 10, 0) == n
    ensures n > 0 ==> Decimal(n)[0] != '0'
    ensures !IsSpace(Decimal(n)[0]) && Decimal(n)[0] != '-' && Decimal(n)[0] != '+'
  {
    if n >= 10 {
      DecimalFacts(n / 10);
      var d := [DigitChar(n % 10)];
      AccumulateAppend(Decimal(n / 10), d, 10, 0);
      assert Accumulate(d, 10, n / 10) == n / 10 * 10 + n % 10 by {
        assert d[1..] == [];
      }
      assert (Decimal(n / 10) + d)[0] == Decimal(n / 10)[0];
    }
  }

  /** Reading back a decimal rendering gives the number (`StrToL` round trip). */
  lemma {:induction false} StrToLDecimal(n: nat)
    requires n <= LongMax
    ensures StrToL(Decimal(n)) == n
    ensures StrToL(['-'] + Decimal(n)) == -(n as int)
  {
    DecimalFacts(n);
    var s := Decimal(n);
    assert DropSpaces(s) == s;
    var m := ['-'] + s;
    assert DropSpaces(m) == m;
    assert m[1..] == s;
    if n == 0 {
      assert s == "0";
      assert Accumulate(s, 8, 0) == 0;
    }
  }

  /** A leading zero selects octal: "010" reads as eight, not ten. */
  lemma LeadingZeroIsOctal()
    ensures StrToL("010") == 8
  {
    assert DropSpaces("010") == "010";
    assert "010"[1..] == "10";
    assert "10"[1..] == "0";
    assert "0"[1..] == "";
  }

  /**
   * `strlen(s + pos)`: the distance from `pos` to the first NUL. C requires a
   * terminating NUL at or after `pos`.
   */
  function Strlen(s: seq<char>, pos: nat): (r: nat)
    requires pos <= |s| && NUL in s[pos..]
    ensures pos + r < |s| && s[pos + r] == NUL
    ensures forall j :: pos <= j < pos + r ==> s[j] != NUL
    decreases |s| - pos
  {
    if s[pos] == NUL then 0
    else
      assert NUL in s[pos + 1..] by {
        var q :| pos <= q < |s| && s[q] == NUL;
        assert s[pos + 1..][q - pos - 1] == NUL;
      }
      1 + Strlen(s, pos + 1)
  }
}
