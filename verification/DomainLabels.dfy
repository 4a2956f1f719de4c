/** Splitting domains on dots, and suffix matching on a dot boundary as a prefix test on the reversed labels; domains
    are strings and the labels between dots may be empty. */
module DomainLabels {
  import opened Routes

  /** `s.split(".")` */
  function Split(s: string): (labels: seq<string>)
    ensures labels != []
  {
    SplitFrom(s, "")
  }

  /** Splitting with `acc` already read into the current label. */
  function SplitFrom(s: string, acc: string): (labels: seq<string>)
    ensures labels != []
    decreases |s|
  {
    if s == "" then [acc]
    else if s[0] == '.' then [acc] + SplitFrom(s[1..], "")
    else SplitFrom(s[1..], acc + [s[0]])
  }

  function Join(labels: seq<string>): string
    requires labels != []
  {
    if |labels| == 1 then labels[0] else labels[0] + "." + Join(labels[1..])
  }

  function ReverseSeq(s: seq<string>): (r: seq<string>)
    ensures |r| == |s|
    ensures forall i :: 0 <= i < |s| ==> r[i] == s[|s| - 1 - i]
  {
    if s == [] then [] else ReverseSeq(s[1..]) + [s[0]]
  }

  /** `reversed(value.split("."))`: the path a domain takes through the label trie. */
  function Path(domain: string): (path: seq<string>)
    ensures path != []
  {
    ReverseSeq(Split(domain))
  }

  lemma {:induction false} JoinSplitFrom(s: string, acc: string)
    ensures Join(SplitFrom(s, acc)) == acc + s
    decreases |s|
  {
    if s != "" {
      if s[0] == '.' {
        JoinSplitFrom(s[1..], "");
        var rest := SplitFrom(s[1..], "");
        assert ([acc] + rest)[1..] == rest;
        assert s == "." + s[1..];
      } else {
        JoinSplitFrom(s[1..], acc + [s[0]]);
        assert acc + [s[0]] + s[1..] == acc + s;
      }
    }
  }

  lemma {:induction false} JoinSplit(s: string)
    ensures Join(Split(s)) == s
  {
    JoinSplitFrom(s, "");
  }

  lemma {:induction false} SplitFromDot(a: string, b: string, acc: string)
    ensures SplitFrom(a + "." + b, acc) == SplitFrom(a, acc) + Split(b)
    decreases |a|
  {
    var s := a + "." + b;
    if a == "" {
      assert s[1..] == b;
    } else {
      assert s[1..] == a[1..] + "." + b;
      if a[0] == '.' {
        SplitFromDot(a[1..], b, "");
      } else {
        SplitFromDot(a[1..], b, acc + [a[0]]);
      }
    }
  }

  lemma {:induction false} JoinAppend(a: seq<string>, b: seq<string>)
    requires a != [] && b != []
    ensures Join(a + b) == Join(a) + "." + Join(b)
  {
    if |a| == 1 {
      assert (a + b)[1..] == b;
    } else {
      JoinAppend(a[1..], b);
      assert (a + b)[1..] == a[1..] + b;
    }
  }

  lemma {:induction false} ReverseAppend(a: seq<string>, b: seq<string>)
    ensures ReverseSeq(a + b) == ReverseSeq(b) + ReverseSeq(a)
  {
    if a == [] {
      assert a + b == b;
    } else {
      ReverseAppend(a[1..], b);
      assert (a + b)[1..] == a[1..] + b;
    }
  }

  lemma {:induction false} PrefixToSuffix(a: seq<string>, b: seq<string>)
    requires ReverseSeq(a) <= ReverseSeq(b)
    ensures |a| <= |b| && b[|b| - |a|..] == a
  {
    assert |ReverseSeq(a)| <= |ReverseSeq(b)|;
    forall i | 0 <= i < |a| ensures b[|b| - |a|..][i] == a[i] {
      ReversedAt(a, b, |a| - 1 - i);
    }
  }

  lemma {:induction false} ReversedAt(a: seq<string>, b: seq<string>, i: nat)
    requires ReverseSeq(a) <= ReverseSeq(b) && i < |a|
    ensures |a| <= |b| && a[|a| - 1 - i] == b[|b| - 1 - i]
  {
    assert ReverseSeq(a)[i] == ReverseSeq(b)[i];
  }

  lemma {:induction false} SuffixToPrefix(a: seq<string>, b: seq<string>)
    requires |a| <= |b| && b[|b| - |a|..] == a
    ensures ReverseSeq(a) <= ReverseSeq(b)
  {
    assert b == b[..|b| - |a|] + a;
    ReverseAppend(b[..|b| - |a|], a);
  }

  /** Matching on a dot boundary is being a prefix of the reversed labels, for every pair of strings. */
  lemma {:induction false} SuffixIsPathPrefix(suffix: string, domain: string)
    ensures DomainSuffixMatches(suffix, domain) <==> Path(suffix) <= Path(domain)
  {
    JoinSplit(suffix);
    JoinSplit(domain);
    var s, d := Split(suffix), Split(domain);
    if EndsWith(domain, "." + suffix) {
      var front := domain[..|domain| - |suffix| - 1];
      assert domain == front + "." + suffix;
      SplitFromDot(front, suffix, "");
      assert d == Split(front) + s;
    }
    if DomainSuffixMatches(suffix, domain) {
      SuffixToPrefix(s, d);
    }
    if Path(suffix) <= Path(domain) {
      PrefixToSuffix(s, d);
      var front := d[..|d| - |s|];
      assert d == front + s;
      if front == [] {
        assert d == s;
      } else {
        JoinAppend(front, s);
        assert domain == Join(front) + ("." + suffix);
        assert domain[|Join(front)|..] == "." + suffix;
      }
    }
  }
}
