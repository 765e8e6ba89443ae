/**
 * The identity of a process and its text: `ProcessIdentity` of agent/src/temporalrca_agent/discovery.py.
 */
module ProcessIdentity {

  /** A pid is reused; the boot and the start ticks tell two processes with one pid apart. */
  datatype Identity = Identity(boot: string, pid: nat, ticks: nat)

  function Digit(n: nat): char
    requires n < 10
  {
    ('0' as int + n) as char
  }

  function Decimal(n: nat): string {
    if n < 10 then [Digit(n)] else Decimal(n / 10) + [Digit(n % 10)]
  }

  /** `ProcessIdentity.key`. */
  function Key(id: Identity): string {
    id.boot + ":" + Decimal(id.pid) + ":" + Decimal(id.ticks)
  }

  lemma {:induction false} DecimalIsDigits(n: nat)
    ensures Decimal(n) != [] && ':' !in Decimal(n)
  {
    if n >= 10 {
      DecimalIsDigits(n / 10);
    }
  }

  lemma {:induction false} DecimalIsInjective(n: nat, m: nat)
    requires Decimal(n) == Decimal(m)
    ensures n == m
  {
    var a, b := Decimal(n), Decimal(m);
    assert a[|a| - 1] == Digit(n % 10) && b[|b| - 1] == Digit(m % 10);
    if n >= 10 && m >= 10 {
      assert a[..|a| - 1] == Decimal(n / 10) && b[..|b| - 1] == Decimal(m / 10);
      DecimalIsInjective(n / 10, m / 10);
    } else if n >= 10 {
      DecimalIsDigits(n / 10);
    } else if m >= 10 {
      DecimalIsDigits(m / 10);
    }
  }

  /** What follows the last colon is determined, and so is what precedes it. */
  lemma LastPart(a: string, x: string, b: string, y: string)
    requires a + ":" + x == b + ":" + y && ':' !in x && ':' !in y
    ensures a == b && x == y
  {
    var s := a + ":" + x;
    assert s[|a|] == ':' && s[|b|] == ':';
    assert forall i | |a| < i < |s| :: s[i] == x[i - |a| - 1];
    assert forall i | |b| < i < |s| :: s[i] == y[i - |b| - 1];
    assert |a| == |b|;
    assert a == s[..|a|] && b == s[..|b|];
    assert x == s[|a| + 1..] && y == s[|b| + 1..];
  }

  /** Whatever the boot id looks like, two processes with one key are the same. */
  lemma KeyIsInjective(a: Identity, b: Identity)
    requires Key(a) == Key(b)
    ensures a == b
  {
    DecimalIsDigits(a.pid);
    DecimalIsDigits(b.pid);
    DecimalIsDigits(a.ticks);
    DecimalIsDigits(b.ticks);
    LastPart(a.boot + ":" + Decimal(a.pid), Decimal(a.ticks), b.boot + ":" + Decimal(b.pid), Decimal(b.ticks));
    LastPart(a.boot, Decimal(a.pid), b.boot, Decimal(b.pid));
    DecimalIsInjective(a.pid, b.pid);
    DecimalIsInjective(a.ticks, b.ticks);
  }

  lemma KeyText()
    ensures Key(Identity("3f2a", 42, 1007)) == "3f2a:42:1007"
  {
    assert Decimal(42) == Decimal(4) + [Digit(2)] == "42";
    assert Decimal(1007) == Decimal(100) + [Digit(7)] == Decimal(10) + [Digit(0)] + [Digit(7)] == "1007";
  }
}
