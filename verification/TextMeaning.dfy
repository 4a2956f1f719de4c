/** What decoding bytes and splitting text into lines mean. */
module TextMeaning {
  import opened Common
  import opened Utf8

  // ---- encoding, after section 3 of RFC 3629 ----

  /** A Unicode scalar value. */
  predicate Scalar(c: Code) {
    c <= 0x10FFFF && !(0xD800 <= c <= 0xDFFF)
  }

  function Encode(c: Code): (bs: seq<byte>)
    requires Scalar(c)
    ensures 1 <= |bs| <= 4
  {
    if c < 0x80 then [c as byte]
    else if c < 0x800 then [(0xC0 + c / 0x40) as byte, (0x80 + c % 0x40) as byte]
    else if c < 0x1_0000 then
      [(0xE0 + c / 0x40 / 0x40) as byte, (0x80 + c / 0x40 % 0x40) as byte, (0x80 + c % 0x40) as byte]
    else
      [(0xF0 + c / 0x40 / 0x40 / 0x40) as byte, (0x80 + c / 0x40 / 0x40 % 0x40) as byte,
       (0x80 + c / 0x40 % 0x40) as byte, (0x80 + c % 0x40) as byte]
  }

  function EncodeAll(cs: seq<Code>): seq<byte>
    requires forall i :: 0 <= i < |cs| ==> Scalar(cs[i])
  {
    if cs == [] then [] else Encode(cs[0]) + EncodeAll(cs[1..])
  }

  /** The bytes start with the encoding of `c`. */
  predicate Begins(bs: seq<byte>, c: Code) {
    Scalar(c) && Encode(c) <= bs
  }

  // ---- a well-formed sequence is read back ----

  /** Continuation place `k` holds a byte that may stand there. */
  predicate PlaceOk(bs: seq<byte>, k: nat) {
    k + 1 < |bs| && Continues(bs[0], k, bs[k + 1])
  }

  lemma {:induction false} AllPresent(bs: seq<byte>, k: nat, need: nat)
    requires bs != [] && k <= need < |bs|
    requires forall j: nat :: k <= j < need ==> PlaceOk(bs, j)
    ensures Present(bs, k, need) == need
    decreases need - k
  {
    if k < need {
      assert PlaceOk(bs, k);
      AllPresent(bs, k + 1, need);
    }
  }

  lemma {:induction false} EncodedContinues(c: Code, j: nat)
    requires Scalar(c) && j + 1 < |Encode(c)|
    ensures Need(Encode(c)[0]) == |Encode(c)| - 1
    ensures Continues(Encode(c)[0], j, Encode(c)[j + 1])
  {
  }

  lemma {:induction false} EncodedNeed(c: Code)
    requires Scalar(c)
    ensures Need(Encode(c)[0]) == |Encode(c)| - 1
  {
  }

  lemma {:induction false} LastDigit(q: nat, b: byte)
    requires b == (0x80 + q % 0x40) as byte
    ensures q / 0x40 * 0x40 + (b % 0x40) as nat == q
  {
  }

  lemma {:induction false} LeadDigit(q: nat, b: byte)
    ensures q < 0x20 && b == (0xC0 + q) as byte ==> (b % 0x20) as nat == q
    ensures q < 0x10 && b == (0xE0 + q) as byte ==> (b % 0x10) as nat == q
    ensures q < 5 && b == (0xF0 + q) as byte ==> (b % 8) as nat == q
  {
  }

  lemma {:induction false} EncodedPayload(bs: seq<byte>, c: Code)
    requires Begins(bs, c)
    ensures Payload(bs, |Encode(c)| - 1) == c
  {
    var e := Encode(c);
    assert forall i :: 0 <= i < |e| ==> bs[i] == e[i];
    if 0x80 <= c < 0x800 {
      LeadDigit(c / 0x40, bs[0]);
      LastDigit(c, bs[1]);
      assert Payload(bs, 0) == c / 0x40;
    } else if 0x800 <= c < 0x1_0000 {
      LeadDigit(c / 0x40 / 0x40, bs[0]);
      LastDigit(c / 0x40, bs[1]);
      LastDigit(c, bs[2]);
      assert Payload(bs, 0) == c / 0x40 / 0x40;
      assert Payload(bs, 1) == c / 0x40;
    } else if 0x1_0000 <= c {
      LeadDigit(c / 0x40 / 0x40 / 0x40, bs[0]);
      LastDigit(c / 0x40 / 0x40, bs[1]);
      LastDigit(c / 0x40, bs[2]);
      LastDigit(c, bs[3]);
      assert Payload(bs, 0) == c / 0x40 / 0x40 / 0x40;
      assert Payload(bs, 1) == c / 0x40 / 0x40;
      assert Payload(bs, 2) == c / 0x40;
    }
  }

  /** A code point in front is read whole, and nothing behind it is touched. */
  lemma {:induction false} FirstReads(bs: seq<byte>, c: Code)
    requires Begins(bs, c)
    ensures First(bs) == (c, |Encode(c)|)
  {
    var e := Encode(c);
    assert bs[0] == e[0];
    EncodedNeed(c);
    forall j: nat | 0 <= j < |e| - 1 ensures PlaceOk(bs, j) {
      EncodedContinues(c, j);
      assert bs[j + 1] == e[j + 1];
    }
    AllPresent(bs, 0, |e| - 1);
    EncodedPayload(bs, c);
  }

  /** Decoding undoes encoding. */
  lemma {:induction false} DecodeInverts(cs: seq<Code>)
    requires forall i :: 0 <= i < |cs| ==> Scalar(cs[i])
    ensures Decode(EncodeAll(cs)) == cs
  {
    if cs != [] {
      var bs := EncodeAll(cs);
      FirstReads(bs, cs[0]);
      assert bs[|Encode(cs[0])|..] == EncodeAll(cs[1..]);
      DecodeInverts(cs[1..]);
    }
  }

  // ---- nothing else is read as a code point ----

  lemma {:induction false} PresentContinues(bs: seq<byte>, k: nat, need: int, j: nat)
    requires bs != [] && k < |bs| && k <= j < Present(bs, k, need)
    ensures PlaceOk(bs, j)
    decreases |bs| - k
  {
    if k < j {
      PresentContinues(bs, k + 1, need, j);
    }
  }

  /** A sequence that is read whole is the encoding of what it is read as. */
  lemma {:induction false} WholeIsEncoded(bs: seq<byte>)
    requires bs != [] && Present(bs, 0, Need(bs[0])) == Need(bs[0])
    ensures Begins(bs, Payload(bs, Need(bs[0])))
  {
    var need := Need(bs[0]);
    var c := Payload(bs, need);
    forall j: nat | 0 <= j < need ensures PlaceOk(bs, j) {
      PresentContinues(bs, 0, need, j);
    }
    if need == 0 {
      assert Encode(c) == bs[..1];
    } else if need == 1 {
      assert PlaceOk(bs, 0);
      TwoBytes(bs);
    } else if need == 2 {
      assert PlaceOk(bs, 0) && PlaceOk(bs, 1);
      ThreeBytes(bs);
    } else {
      assert PlaceOk(bs, 0) && PlaceOk(bs, 1) && PlaceOk(bs, 2);
      FourBytes(bs);
    }
  }

  /** One more continuation byte is one more digit to the base 64. */
  lemma {:induction false} OneMoreDigit(bs: seq<byte>, k: nat)
    requires k + 1 < |bs| && 0x80 <= bs[k + 1] < 0xC0
    ensures Payload(bs, k + 1) / 0x40 == Payload(bs, k)
    ensures (0x80 + Payload(bs, k + 1) % 0x40) as byte == bs[k + 1]
  {
    var q, d := Payload(bs, k), (bs[k + 1] % 0x40) as nat;
    assert Payload(bs, k + 1) == q * 0x40 + d && d < 0x40;
  }

  lemma {:induction false} TwoBytes(bs: seq<byte>)
    requires |bs| >= 2 && Need(bs[0]) == 1 && Continues(bs[0], 0, bs[1])
    ensures Begins(bs, Payload(bs, 1))
  {
    OneMoreDigit(bs, 0);
    assert Payload(bs, 0) == (bs[0] - 0xC0) as nat;
    assert Encode(Payload(bs, 1)) == bs[..2];
  }

  lemma {:induction false} ThreeBytes(bs: seq<byte>)
    requires |bs| >= 3 && Need(bs[0]) == 2 && Continues(bs[0], 0, bs[1]) && Continues(bs[0], 1, bs[2])
    ensures Begins(bs, Payload(bs, 2))
  {
    OneMoreDigit(bs, 0);
    OneMoreDigit(bs, 1);
    assert Payload(bs, 0) == (bs[0] - 0xE0) as nat;
    assert Encode(Payload(bs, 2)) == bs[..3];
  }

  lemma {:induction false} FourBytes(bs: seq<byte>)
    requires |bs| >= 4 && Need(bs[0]) == 3
    requires Continues(bs[0], 0, bs[1]) && Continues(bs[0], 1, bs[2]) && Continues(bs[0], 2, bs[3])
    ensures Begins(bs, Payload(bs, 3))
  {
    OneMoreDigit(bs, 0);
    OneMoreDigit(bs, 1);
    OneMoreDigit(bs, 2);
    assert Payload(bs, 0) == (bs[0] - 0xF0) as nat;
    assert Encode(Payload(bs, 3)) == bs[..4];
  }

  /** Where bytes start with no code point's encoding, the replacement character stands. */
  lemma {:induction false} FirstReplaces(bs: seq<byte>)
    requires bs != [] && forall c :: !Begins(bs, c)
    ensures First(bs).0 == REPLACEMENT
  {
    if Present(bs, 0, Need(bs[0])) == Need(bs[0]) {
      WholeIsEncoded(bs);
    }
  }

  // ---- how much one replacement character stands for ----

  /** Some code point's encoding starts this way. */
  ghost predicate Starts(p: seq<byte>) {
    exists c :: Scalar(c) && p <= Encode(c)
  }

  /** A byte that may stand in place `k` behind the lead byte. */
  function Filler(lead: byte, k: nat): (b: byte)
    ensures Continues(lead, k, b)
  {
    if k == 0 && lead == 0xE0 then 0xA0 else if k == 0 && lead == 0xF0 then 0x90 else 0x80
  }

  lemma {:induction false} PresentStopsThere(bs: seq<byte>, k: nat, need: int)
    requires bs != [] && k < |bs|
    ensures var p := Present(bs, k, need); p < need ==> !PlaceOk(bs, p)
    decreases |bs| - k
  {
    if k < need && PlaceOk(bs, k) {
      PresentStopsThere(bs, k + 1, need);
    }
  }

  /** The bytes of `bs` up to place `p` can be completed to a code point. */
  lemma {:induction false} Completes(bs: seq<byte>, p: nat)
    requires bs != [] && p < |bs| && 0 <= p < Need(bs[0]) && forall j: nat :: 0 <= j < p ==> PlaceOk(bs, j)
    ensures Starts(bs[..p + 1])
  {
    var lead, need := bs[0], Need(bs[0]);
    var whole := bs[..p + 1] + seq(need - p, j requires 0 <= j < need - p => Filler(lead, p + j));
    forall j: nat | 0 <= j < need ensures PlaceOk(whole, j) {
      if j < p {
        assert PlaceOk(bs, j) && whole[j + 1] == bs[j + 1];
      } else {
        assert whole[j + 1] == Filler(lead, p + (j - p));
      }
    }
    AllPresent(whole, 0, need);
    WholeIsEncoded(whole);
    var c := Payload(whole, need);
    EncodedNeed(c);
    assert Encode(c)[0] == whole[0];
    assert bs[..p + 1] <= Encode(c);
  }

  /** A broken sequence is replaced as far as it could still have become a code point, and at least one byte of it. */
  lemma {:induction false} ReplacesLongest(bs: seq<byte>)
    requires bs != [] && forall c :: !Begins(bs, c)
    ensures var n := First(bs).1;
            (n > 1 ==> Starts(bs[..n])) && (n < |bs| ==> !Starts(bs[..n + 1]))
  {
    var need := Need(bs[0]);
    var p := Present(bs, 0, need);
    if p == need {
      WholeIsEncoded(bs);
    }
    forall j: nat | 0 <= j < p ensures PlaceOk(bs, j) {
      PresentContinues(bs, 0, need, j);
    }
    if p > 0 {
      Completes(bs, p);
    }
    PresentStopsThere(bs, 0, need);
    if p + 1 < |bs| {
      forall c | Scalar(c) && bs[..p + 2] <= Encode(c) ensures false {
        EncodedNeed(c);
        assert Encode(c)[0] == bs[..p + 2][0] && Encode(c)[p + 1] == bs[..p + 2][p + 1];
        EncodedContinues(c, p);
      }
    }
  }

  // ---- lines ----

  /** LF, CR, VT, FF, FS, GS, RS, NEL, and the line and paragraph separators. */
  const BREAKS: set<Code> := {0x0A, 0x0D, 0x0B, 0x0C, 0x1C, 0x1D, 0x1E, 0x85, 0x2028, 0x2029}

  predicate NoBreaks(line: seq<Code>) {
    forall i :: 0 <= i < |line| ==> line[i] !in BREAKS
  }

  /** How many code points the break in front of a non-empty text takes. */
  function BreakLength(text: seq<Code>): (n: nat)
    requires text != []
    ensures 1 <= n <= |text|
  {
    if |text| > 1 && text[0] == 0x0D && text[1] == 0x0A then 2 else 1
  }

  /** `lines` is `text` cut at its breaks, a carriage return with its line feed counting as one; what stands behind the
      last break is a line unless it is empty. */
  predicate CutAtBreaks(text: seq<Code>, lines: seq<seq<Code>>)
    decreases |lines|
  {
    if lines == [] then text == []
    else
      var n := |lines[0]|;
      && n <= |text| && text[..n] == lines[0] && NoBreaks(lines[0])
      && var rest := text[n..];
         if rest == [] then lines[0] != [] && |lines| == 1
         else
           && rest[0] in BREAKS
           && CutAtBreaks(rest[BreakLength(rest)..], lines[1..])
  }

  /** A line in front of a break, before what is cut already, is cut. */
  lemma {:induction false} CutOnce(line: seq<Code>, text: seq<Code>, more: seq<seq<Code>>)
    requires NoBreaks(line) && text != [] && text[0] in BREAKS
    requires CutAtBreaks(text[BreakLength(text)..], more)
    ensures CutAtBreaks(line + text, [line] + more)
  {
    assert (line + text)[..|line|] == line && (line + text)[|line|..] == text;
    assert ([line] + more)[1..] == more;
  }

  lemma {:induction false} LastLineCut(line: seq<Code>)
    requires NoBreaks(line) && line != []
    ensures CutAtBreaks(line, [line])
  {
  }

  lemma {:induction false} LinesFromCut(text: seq<Code>, line: seq<Code>)
    requires NoBreaks(line)
    ensures CutAtBreaks(line + text, LinesFrom(text, line))
    decreases |text|
  {
    if text == [] {
      assert line + text == line;
      if line != [] {
        LastLineCut(line);
      }
    } else if IsBreak(text[0]) {
      var n := BreakLength(text);
      LinesFromCut(text[n..], []);
      assert [] + text[n..] == text[n..];
      CutOnce(line, text, LinesFrom(text[n..], []));
    } else {
      LinesFromCut(text[1..], line + [text[0]]);
      assert (line + [text[0]]) + text[1..] == line + text;
    }
  }

  /** The lines are the text cut at its breaks. */
  lemma {:induction false} LinesAreCut(text: seq<Code>)
    ensures CutAtBreaks(text, Lines(text))
  {
    LinesFromCut(text, []);
    assert [] + text == text;
  }
}
