/** Decimal rendering and byte order of strings, as the Go code relies on them. */
module Text {

  datatype Option<+T> = None | Some(value: T)

  const MAX_INT64: int := 0x7fff_ffff_ffff_ffff
  const MIN_INT64: int := -0x8000_0000_0000_0000

  predicate IsDigit(c: char) { '0' <= c <= '9' }

  predicate AllDigits(s: string) { forall i :: 0 <= i < |s| ==> IsDigit(s[i]) }

  function Digit(d: nat): (c: char)
    requires d < 10
    ensures IsDigit(c)
  {
    ('0' as int + d) as char
  }

  function Digits(n: nat): (s: string)
    ensures |s| > 0 && AllDigits(s)
  {
    if n < 10 then [Digit(n)] else Digits(n / 10) + [Digit(n % 10)]
  }

  /** `strconv.Itoa`, also what `%d` prints. */
  function Itoa(n: int): string {
    if n < 0 then "-" + Digits(-n) else Digits(n)
  }

  function Value(s: string): nat
    requires AllDigits(s)
  {
    if s == [] then 0 else 10 * Value(s[..|s| - 1]) + (s[|s| - 1] as int - '0' as int)
  }

  /** `strconv.Atoi` on a 64-bit platform: one optional sign, at least one digit, no overflow. */
  function Atoi(s: string): (r: Option<int>)
  {
    var signed := s != [] && (s[0] == '-' || s[0] == '+');
    var digits := if signed then s[1..] else s;
    if digits == [] || !AllDigits(digits) then None
    else
      var n := if signed && s[0] == '-' then -(Value(digits) as int) else Value(digits);
      if MIN_INT64 <= n <= MAX_INT64 then Some(n) else None
  }

  lemma {:induction false} ValueOfDigits(n: nat)
    ensures Value(Digits(n)) == n
  {
    if n >= 10 {
      var s := Digits(n);
      assert s[..|s| - 1] == Digits(n / 10);
      ValueOfDigits(n / 10);
    }
  }

  lemma AtoiOfItoa(n: int)
    requires MIN_INT64 <= n <= MAX_INT64
    ensures Atoi(Itoa(n)) == Some(n)
  {
    ValueOfDigits(if n < 0 then -n else n);
    if n < 0 {
      assert Itoa(n)[1..] == Digits(-n);
    }
  }

  lemma ItoaInjective(m: int, n: int)
    requires Itoa(m) == Itoa(n)
    ensures m == n
  {
    ValueOfDigits(if m < 0 then -m else m);
    ValueOfDigits(if n < 0 then -n else n);
    if m < 0 {
      assert Itoa(m)[1..] == Digits(-m);
    }
    if n < 0 {
      assert Itoa(n)[1..] == Digits(-n);
    }
    assert m < 0 <==> Itoa(m)[0] == '-';
    assert n < 0 <==> Itoa(n)[0] == '-';
  }

  /** The `"%s:%d"` key of an endpoint. */
  function HostPort(ip: string, port: int): string {
    ip + ":" + Itoa(port)
  }

  function LastColon(s: string): int {
    if s == [] then -1 else if s[|s| - 1] == ':' then |s| - 1 else LastColon(s[..|s| - 1])
  }

  lemma {:induction false} LastColonAt(ip: string, digits: string)
    requires ':' !in digits
    ensures LastColon(ip + ":" + digits) == |ip|
  {
    var s := ip + ":" + digits;
    if digits != [] {
      assert s[..|s| - 1] == ip + ":" + digits[..|digits| - 1];
      LastColonAt(ip, digits[..|digits| - 1]);
    }
  }

  /** The key stays injective although an IPv6 address contains colons itself. */
  lemma HostPortInjective(ip1: string, port1: int, ip2: string, port2: int)
    ensures HostPort(ip1, port1) == HostPort(ip2, port2) <==> ip1 == ip2 && port1 == port2
  {
    if HostPort(ip1, port1) == HostPort(ip2, port2) {
      var k := HostPort(ip1, port1);
      LastColonAt(ip1, Itoa(port1));
      LastColonAt(ip2, Itoa(port2));
      assert ip1 == k[..|ip1|] && ip2 == k[..|ip2|];
      assert Itoa(port1) == k[|ip1| + 1..] && Itoa(port2) == k[|ip2| + 1..];
      ItoaInjective(port1, port2);
    }
  }

  /** Go's `<` on strings. */
  predicate Less(a: string, b: string)
  {
    b != [] && (a == [] || a[0] < b[0] || (a[0] == b[0] && Less(a[1..], b[1..])))
  }

  lemma {:induction false} LessIsTotal(a: string, b: string)
    ensures Less(a, b) || a == b || Less(b, a)
  {
    if a != [] && b != [] && a[0] == b[0] {
      LessIsTotal(a[1..], b[1..]);
      assert a == [a[0]] + a[1..] && b == [b[0]] + b[1..];
    }
  }

  lemma {:induction false} LessIsStrict(a: string, b: string)
    ensures !(Less(a, b) && Less(b, a))
    ensures !Less(a, a)
  {
    if a != [] {
      LessIsStrict(a[1..], if b != [] then b[1..] else []);
    }
  }

  lemma {:induction false} LessIsTransitive(a: string, b: string, c: string)
    requires Less(a, b) && Less(b, c)
    ensures Less(a, c)
  {
    if a != [] && a[0] == b[0] == c[0] {
      LessIsTransitive(a[1..], b[1..], c[1..]);
    }
  }
}
