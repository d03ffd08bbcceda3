/** The name of a per-key mutex: internal/protocol/pool.go, the argument of lockFor. */
module LockName {

  /** A session key: the account and the proxy its traffic goes through. */
  datatype Key = Key(account: int, proxy: string)

  function Digit(d: nat): (c: char)
    requires d < 10
    ensures c != '\0' && c != '-'
  {
    (('0' as int) + d) as char
  }

  function Digits(n: nat): (s: string)
    ensures |s| > 0
    ensures forall i :: 0 <= i < |s| ==> s[i] != '\0' && s[i] != '-'
  {
    if n < 10 then [Digit(n)] else Digits(n / 10) + [Digit(n % 10)]
  }

  /** %d */
  function Decimal(n: int): (s: string)
    ensures forall i :: 0 <= i < |s| ==> s[i] != '\0'
  {
    if n < 0 then "-" + Digits(-n) else Digits(n)
  }

  function NameOf(k: Key): string {
    Decimal(k.account) + "\0" + k.proxy
  }

  lemma {:induction false} DigitsInjective(m: nat, n: nat)
    requires Digits(m) == Digits(n)
    ensures m == n
  {
    var s := Digits(m);
    assert s[|s| - 1] == Digit(m % 10) && s[|s| - 1] == Digit(n % 10);
    if m >= 10 && n >= 10 {
      assert s[..|s| - 1] == Digits(m / 10) && s[..|s| - 1] == Digits(n / 10);
      DigitsInjective(m / 10, n / 10);
    }
  }

  lemma DecimalInjective(m: int, n: int)
    requires Decimal(m) == Decimal(n)
    ensures m == n
  {
    hide Digits;
    var s := Decimal(m);
    assert s[0] == '-' <==> m < 0;
    assert s[0] == '-' <==> n < 0;
    if m < 0 {
      assert s[1..] == Digits(-m) && s[1..] == Digits(-n);
      DigitsInjective(-m, -n);
    } else {
      DigitsInjective(m, n);
    }
  }

  /** Two keys share a mutex only when they are the same key: the zero byte ends the account number. */
  lemma NamesAreDistinct(a: Key, b: Key)
    requires NameOf(a) == NameOf(b)
    ensures a == b
  {
    hide Decimal;
    var da, db, s := Decimal(a.account), Decimal(b.account), NameOf(a);
    assert s[|da|] == '\0' && s[|db|] == '\0';
    assert forall i :: 0 <= i < |da| ==> s[i] == da[i];
    assert forall i :: 0 <= i < |db| ==> s[i] == db[i];
    assert |da| == |db|;
    assert da == s[..|da|] && db == s[..|db|];
    assert a.proxy == s[|da| + 1..] && b.proxy == s[|db| + 1..];
    DecimalInjective(a.account, b.account);
  }
}
