/** The names tried for a Cloud auth entry (internal/config/cloud_login.go). */
module EntryNames {
  const DIGITS := "0123456789"

  function Decimal(n: nat): (s: string)
    ensures |s| > 0
  {
    if n < 10 then [DIGITS[n]] else Decimal(n / 10) + [DIGITS[n % 10]]
  }

  lemma {:induction false} DecimalInjective(m: nat, n: nat)
    requires Decimal(m) == Decimal(n)
    ensures m == n
  {
    var s := Decimal(m);
    assert s[|s| - 1] == DIGITS[m % 10] && s[|s| - 1] == DIGITS[n % 10];
    DigitsDistinct(m % 10, n % 10);
    if m >= 10 && n >= 10 {
      assert Decimal(m / 10) == s[..|s| - 1] && Decimal(n / 10) == s[..|s| - 1];
      DecimalInjective(m / 10, n / 10);
    }
  }

  lemma DigitsDistinct(i: nat, j: nat)
    requires i < 10 && j < 10 && DIGITS[i] == DIGITS[j]
    ensures i == j
  {
    assert DIGITS[0] == '0' && DIGITS[1] == '1' && DIGITS[2] == '2' && DIGITS[3] == '3' && DIGITS[4] == '4';
    assert DIGITS[5] == '5' && DIGITS[6] == '6' && DIGITS[7] == '7' && DIGITS[8] == '8' && DIGITS[9] == '9';
  }

  /** The i-th name the search tries: base, base-2, base-3, ... */
  function NameAt(base: string, i: nat): string {
    if i <= 1 then base else base + "-" + Decimal(i)
  }

  lemma NamesDistinct(base: string, i: nat, j: nat)
    requires 1 <= i && 1 <= j && NameAt(base, i) == NameAt(base, j)
    ensures i == j
  {
    assert i > 1 ==> |NameAt(base, i)| > |base|;
    assert j > 1 ==> |NameAt(base, j)| > |base|;
    if i > 1 {
      assert NameAt(base, i)[|base| + 1..] == Decimal(i);
      assert NameAt(base, j)[|base| + 1..] == Decimal(j);
      DecimalInjective(i, j);
    }
  }

  /** The names tried before the i-th. */
  function Tried(base: string, i: nat): set<string> {
    set j | 1 <= j < i :: NameAt(base, j)
  }

  lemma TriedOneMore(base: string, i: nat)
    requires i >= 1
    ensures Tried(base, i + 1) == Tried(base, i) + {NameAt(base, i)}
  {
    hide NameAt;
  }

  /** i - 1 different names have been tried: the search cannot try more than are taken. */
  lemma {:induction false} TriedCount(base: string, i: nat)
    requires i >= 1
    ensures |Tried(base, i)| == i - 1
  {
    if i == 1 {
      assert Tried(base, 1) == {};
    } else {
      hide NameAt;
      TriedCount(base, i - 1);
      TriedOneMore(base, i - 1);
      if NameAt(base, i - 1) in Tried(base, i - 1) {
        var j :| 1 <= j < i - 1 && NameAt(base, j) == NameAt(base, i - 1);
        NamesDistinct(base, j, i - 1);
      }
    }
  }

  lemma SubsetSize(a: set<string>, b: set<string>)
    requires a <= b
    ensures |a| <= |b|
  {
    assert b == a + (b - a);
  }
}
