/** The printed identities the analyser reports. Different identities never
    print the same label, so the models work with the identities themselves. */
module Labels {
  import opened Sequences
  import opened Events

  function DigitChar(d: nat): char
    requires d < 10
  {
    '0' + d as char
  }

  function Digits(n: nat): string {
    if n < 10 then [DigitChar(n)] else Digits(n / 10) + [DigitChar(n % 10)]
  }

  /** `str(n)`. */
  function Decimal(n: int): string {
    if n < 0 then "-" + Digits(-n) else Digits(n)
  }

  function Label(k: Key): string {
    match k
    case StepKey(step, pid) => step + "/p" + Decimal(pid)
    case WorkerKey(step, worker, pid) => step + "/w" + Decimal(worker) + "/p" + Decimal(pid)
  }

  ghost predicate DigitsOnly(s: string) {
    forall c :: c in s ==> '0' <= c <= '9'
  }

  lemma {:induction false} DigitsAreDigits(n: nat)
    ensures DigitsOnly(Digits(n)) && |Digits(n)| > 0
  {
    if n >= 10 {
      DigitsAreDigits(n / 10);
    }
  }

  lemma DigitsUnfold(n: nat)
    ensures |Digits(n)| > 0 && Last(Digits(n)) == DigitChar(n % 10)
    ensures if n < 10 then |Digits(n)| == 1 else Front(Digits(n)) == Digits(n / 10) && |Digits(n)| > 1
  {
    DigitsAreDigits(n / 10);
  }

  lemma {:induction false} DigitsInjective(m: nat, n: nat)
    requires Digits(m) == Digits(n)
    ensures m == n
  {
    DigitsUnfold(m);
    DigitsUnfold(n);
    if m >= 10 {
      DigitsInjective(m / 10, n / 10);
    }
  }

  lemma DecimalShape(n: int)
    ensures |Decimal(n)| > 0 && '/' !in Decimal(n)
    ensures Decimal(n)[0] == '-' <==> n < 0
    ensures n < 0 ==> Decimal(n)[1..] == Digits(-n)
  {
    if n < 0 {
      DigitsAreDigits(-n);
    } else {
      DigitsAreDigits(n);
      assert Digits(n)[0] in Digits(n);
    }
  }

  lemma DecimalInjective(m: int, n: int)
    requires Decimal(m) == Decimal(n)
    ensures m == n
  {
    DecimalShape(m);
    DecimalShape(n);
    if m < 0 {
      DigitsInjective(-m, -n);
    } else {
      DigitsInjective(m, n);
    }
  }

  /** The last slash splits a string in one way only. */
  lemma LastSlash(a: string, x: string, b: string, y: string)
    requires '/' !in x && '/' !in y
    requires a + "/" + x == b + "/" + y
    ensures a == b && x == y
  {
    var s := a + "/" + x;
    assert s[|a|] == '/' && (b + "/" + y)[|b|] == '/';
    assert |a| == |b|;
    assert a == s[..|a|] && b == (b + "/" + y)[..|b|];
    assert x == s[|a| + 1..] && y == (b + "/" + y)[|b| + 1..];
  }

  lemma SplitNumber(a: string, c: char, m: int, b: string, n: int)
    requires c != '/'
    requires a + ['/', c] + Decimal(m) == b + ['/', c] + Decimal(n)
    ensures a == b && m == n
  {
    DecimalShape(m);
    DecimalShape(n);
    assert a + ['/', c] + Decimal(m) == a + "/" + ([c] + Decimal(m));
    assert b + ['/', c] + Decimal(n) == b + "/" + ([c] + Decimal(n));
    LastSlash(a, [c] + Decimal(m), b, [c] + Decimal(n));
    assert ([c] + Decimal(m))[1..] == Decimal(m) && ([c] + Decimal(n))[1..] == Decimal(n);
    DecimalInjective(m, n);
  }

  /** Whatever characters step names hold, identities of one kind with equal
      labels are equal. */
  lemma LabelInjective(a: Key, b: Key)
    requires a.StepKey? == b.StepKey?
    requires Label(a) == Label(b)
    ensures a == b
  {
    if a.StepKey? {
      SplitNumber(a.step, 'p', a.pid, b.step, b.pid);
    } else {
      SplitNumber(a.step + "/w" + Decimal(a.worker), 'p', a.pid, b.step + "/w" + Decimal(b.worker), b.pid);
      SplitNumber(a.step, 'w', a.worker, b.step, b.worker);
    }
  }

  /** The number a string of digits stands for. */
  function ValueOf(s: string): int {
    if s == [] then 0 else 10 * ValueOf(Front(s)) + (Last(s) as int - '0' as int)
  }

  /** `Digits` writes the number it is given, without leading zeros. */
  lemma {:induction false} DigitsRead(n: nat)
    ensures ValueOf(Digits(n)) == n
    ensures |Digits(n)| > 1 ==> Digits(n)[0] != '0'
  {
    DigitsUnfold(n);
    if n >= 10 {
      DigitsRead(n / 10);
      DigitsUnfold(n / 10);
      assert Digits(n)[0] == Digits(n / 10)[0];
      if n / 10 < 10 {
        assert Digits(n / 10) == [DigitChar(n / 10)];
      }
    } else {
      assert Front(Digits(n)) == [];
    }
  }
}
