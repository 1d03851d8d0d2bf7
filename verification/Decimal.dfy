/** Decimal numerals and the textual keys built from them. */
module Decimal {

  const DIGITS := "0123456789"

  function Numeral(n: nat): (s: string)
    ensures |s| > 0 && forall i :: 0 <= i < |s| ==> '0' <= s[i] <= '9'
    ensures n > 0 ==> s[0] != '0'
    ensures n == 0 ==> s == "0"
  {
    if n < 10 then [DIGITS[n]] else Numeral(n / 10) + [DIGITS[n % 10]]
  }

  /** The value of a run of digits, most significant first. */
  function ValueOf(s: string): nat
    requires forall i :: 0 <= i < |s| ==> '0' <= s[i] <= '9'
  {
    if s == "" then 0 else 10 * ValueOf(s[..|s| - 1]) + (s[|s| - 1] as int - '0' as int)
  }

  lemma {:induction false} NumeralValue(n: nat)
    ensures ValueOf(Numeral(n)) == n
  {
    if n < 10 {
      assert Numeral(n)[..0] == "";
    } else {
      NumeralValue(n / 10);
      assert Numeral(n)[..|Numeral(n)| - 1] == Numeral(n / 10);
    }
  }

  /** `conditioning_key`: one-based members joined by bars. */
  function ConditioningKey(members: seq<nat>): string {
    if members == [] then ""
    else if |members| == 1 then Numeral(members[0] + 1)
    else Numeral(members[0] + 1) + "|" + ConditioningKey(members[1..])
  }

  /** The text before the first bar. */
  function FirstField(s: string): string {
    if s == "" || s[0] == '|' then "" else [s[0]] + FirstField(s[1..])
  }

  lemma {:induction false} FirstFieldOf(digits: string, rest: string)
    requires forall i :: 0 <= i < |digits| ==> digits[i] != '|'
    requires rest == "" || rest[0] == '|'
    ensures FirstField(digits + rest) == digits
    decreases |digits|
  {
    if digits == "" {
      assert digits + rest == rest;
    } else {
      FirstFieldOf(digits[1..], rest);
      assert (digits + rest)[1..] == digits[1..] + rest;
    }
  }

  lemma CancelFront(x: string, y: string, z: string)
    requires x + y == x + z
    ensures y == z
  {
    assert y == (x + y)[|x|..];
    assert z == (x + z)[|x|..];
  }

  /** What follows the first field: nothing, or a bar and the key of the other members. */
  function KeyRest(members: seq<nat>): string
    requires members != []
  {
    if |members| == 1 then "" else "|" + ConditioningKey(members[1..])
  }

  lemma KeyFields(members: seq<nat>)
    requires members != []
    ensures ConditioningKey(members) == Numeral(members[0] + 1) + KeyRest(members)
    ensures FirstField(ConditioningKey(members)) == Numeral(members[0] + 1)
  {
    hide Numeral;
    var head := Numeral(members[0] + 1);
    assert head + "" == head;
    assert |members| > 1 ==> head + "|" + ConditioningKey(members[1..]) == head + KeyRest(members);
    FirstFieldOf(head, KeyRest(members));
  }

  lemma EmptyKey()
    ensures ConditioningKey([]) == ""
  {
  }

  /** Equal keys name equal conditioning sets, so a bucket never mixes sets. */
  lemma {:induction false} ConditioningKeyInjective(a: seq<nat>, b: seq<nat>)
    requires ConditioningKey(a) == ConditioningKey(b)
    ensures a == b
    decreases |a|
  {
    hide Numeral, ValueOf, FirstField, ConditioningKey;
    EmptyKey();
    if a != [] { KeyFields(a); }
    if b != [] { KeyFields(b); }
    if a != [] && b != [] {
      NumeralValue(a[0] + 1);
      NumeralValue(b[0] + 1);
      assert a[0] == b[0];
      CancelFront(Numeral(a[0] + 1), KeyRest(a), KeyRest(b));
      if |a| > 1 && |b| > 1 {
        CancelFront("|", ConditioningKey(a[1..]), ConditioningKey(b[1..]));
        ConditioningKeyInjective(a[1..], b[1..]);
      }
      assert a == [a[0]] + a[1..] && b == [b[0]] + b[1..];
    }
  }
}
