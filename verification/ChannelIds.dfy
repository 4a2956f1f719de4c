/** Naming new channels: the first `<base>_<n>` that no channel of the provider has. */
module ChannelIds {

  // ---- decimal numerals ----

  function Digit(d: nat): char
    requires d < 10
  {
    '0' + d as char
  }

  function Digits(n: nat): (s: string)
    ensures |s| >= 1 && (|s| == 1 <==> n < 10)
  {
    if n < 10 then [Digit(n)] else Digits(n / 10) + [Digit(n % 10)]
  }

  lemma {:induction false} DigitInjective(a: nat, b: nat)
    requires a < 10 && b < 10 && Digit(a) == Digit(b)
    ensures a == b
  {
    assert Digit(a) as int == '0' as int + a;
    assert Digit(b) as int == '0' as int + b;
  }

  lemma {:induction false} DigitsInjective(a: nat, b: nat)
    requires Digits(a) == Digits(b)
    ensures a == b
  {
    var s, t := Digits(a), Digits(b);
    assert s[|s| - 1] == t[|t| - 1];
    DigitInjective(a % 10, b % 10);
    assert s[..|s| - 1] == t[..|t| - 1];
    if a >= 10 {
      assert s[..|s| - 1] == Digits(a / 10) && t[..|t| - 1] == Digits(b / 10);
      DigitsInjective(a / 10, b / 10);
    }
  }

  // ---- the id ----

  function Candidate(base: string, n: nat): string {
    base + "_" + Digits(n)
  }

  lemma {:induction false} CandidateInjective(base: string, a: nat, b: nat)
    requires Candidate(base, a) == Candidate(base, b)
    ensures a == b
  {
    assert Digits(a) == Candidate(base, a)[|base| + 1..];
    assert Digits(b) == Candidate(base, b)[|base| + 1..];
    DigitsInjective(a, b);
  }

  /** The number `_next_id` settles on, searching upward from `n`. */
  function NextNumber(taken: set<string>, base: string, n: nat): (k: nat)
    ensures k >= n
    decreases |taken|
  {
    if Candidate(base, n) in taken then
      assert |taken - {Candidate(base, n)}| < |taken|;
      NextNumber(taken - {Candidate(base, n)}, base, n + 1)
    else n
  }

  /** The search always ends, and on the least free number. */
  lemma {:induction false} NextNumberIsLeastFree(taken: set<string>, base: string, n: nat)
    ensures Candidate(base, NextNumber(taken, base, n)) !in taken
    ensures forall k :: n <= k < NextNumber(taken, base, n) ==> Candidate(base, k) in taken
    decreases |taken|
  {
    if Candidate(base, n) in taken {
      assert |taken - {Candidate(base, n)}| < |taken|;
      NextNumberIsLeastFree(taken - {Candidate(base, n)}, base, n + 1);
      var k := NextNumber(taken, base, n);
      if Candidate(base, k) == Candidate(base, n) {
        CandidateInjective(base, k, n);
      }
    }
  }

  /** `_next_id` */
  method NextId(taken: set<string>, base: string) returns (id: string)
    ensures id == Candidate(base, NextNumber(taken, base, 1)) && id !in taken
  {
    var n := 1;
    NextNumberIsLeastFree(taken, base, 1);
    while Candidate(base, n) in taken
      invariant 1 <= n <= NextNumber(taken, base, 1)
      decreases NextNumber(taken, base, 1) - n
    {
      n := n + 1;
    }
    id := Candidate(base, n);
  }
}
