/** The domain's exceptions (domain.exception.ts) and the messages they carry. */
module DomainErrors {

  datatype DomainError =
    | EntityNotFound(entityName: string, id: int)
    | ValidationFailure(message: string)

  function Digit(d: nat): char
    requires d < 10
  {
    "0123456789"[d]
  }

  function DigitValue(c: char): nat {
    if '0' <= c <= '9' then (c as int - '0' as int) as nat else 0
  }

  /** The decimal rendering of a natural number, as a template literal prints it. */
  function NatToString(n: nat): (s: string)
    ensures |s| >= 1
    ensures forall k :: 0 <= k < |s| ==> '0' <= s[k] <= '9'
    ensures n >= 10 ==> s[0] != '0'
  {
    if n < 10 then [Digit(n)] else NatToString(n / 10) + [Digit(n % 10)]
  }

  function IntToString(i: int): string {
    if i < 0 then "-" + NatToString(-i) else NatToString(i)
  }

  /** Reads a string of decimal digits back as a number. */
  function ParseNat(s: string): nat {
    if s == [] then 0 else 10 * ParseNat(s[..|s| - 1]) + DigitValue(s[|s| - 1])
  }

  /** The rendering can be read back, so distinct ids give distinct renderings. */
  lemma {:induction false} NatToStringRoundTrip(n: nat)
    ensures ParseNat(NatToString(n)) == n
  {
    if n >= 10 {
      var s := NatToString(n);
      assert s[..|s| - 1] == NatToString(n / 10);
      NatToStringRoundTrip(n / 10);
    }
  }

  lemma IntToStringSign(i: int)
    ensures |IntToString(i)| >= 1
    ensures IntToString(i)[0] == '-' <==> i < 0
    ensures i < 0 ==> IntToString(i)[1..] == NatToString(-i)
    ensures i >= 0 ==> IntToString(i) == NatToString(i)
  {
    if i < 0 {
      assert ("-" + NatToString(-i))[1..] == NatToString(-i);
    }
  }

  lemma NatToStringInjective(a: nat, b: nat)
    requires NatToString(a) == NatToString(b)
    ensures a == b
  {
    NatToStringRoundTrip(a);
    NatToStringRoundTrip(b);
  }

  lemma IntToStringInjective(i: int, j: int)
    requires IntToString(i) == IntToString(j)
    ensures i == j
  {
    IntToStringSign(i);
    IntToStringSign(j);
    if i < 0 {
      NatToStringInjective(-i, -j);
    } else {
      NatToStringInjective(i, j);
    }
  }

  /** "<entity> with id <id> not found" for a missing entity; the given text otherwise. */
  function Message(e: DomainError): (r: string)
    ensures e.EntityNotFound? ==> e.entityName <= r
    ensures e.ValidationFailure? ==> r == e.message
  {
    match e
    case EntityNotFound(name, id) => name + " with id " + IntToString(id) + " not found"
    case ValidationFailure(message) => message
  }

  /** Two not-found errors for the same entity have the same message only for the same id. */
  lemma NotFoundMessageNamesTheId(name: string, i: int, j: int)
    requires Message(EntityNotFound(name, i)) == Message(EntityNotFound(name, j))
    ensures i == j
  {
    var prefix := name + " with id ";
    var si, sj := IntToString(i), IntToString(j);
    assert Message(EntityNotFound(name, i)) == prefix + si + " not found";
    assert Message(EntityNotFound(name, j)) == prefix + sj + " not found";
    assert |si| == |sj|;
    assert si == Message(EntityNotFound(name, i))[|prefix|..|prefix| + |si|];
    assert sj == Message(EntityNotFound(name, j))[|prefix|..|prefix| + |sj|];
    IntToStringInjective(i, j);
  }

  lemma NotFoundMessageExample()
    ensures Message(EntityNotFound("Tank", 42)) == "Tank with id 42 not found"
  {
    assert NatToString(42) == "42";
  }
}
