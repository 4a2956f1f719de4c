/** Decoding bytes as UTF-8 with replacement, and splitting text into lines, as the log reader uses them. */
module Utf8 {
  import opened Common

  /** A code point. */
  type Code = nat

  const LF: byte := 10
  const LINE_FEED: Code := 10
  const CARRIAGE_RETURN: Code := 13
  const REPLACEMENT: Code := 0xFFFD

  // ---- decoding ----

  /** How many continuation bytes a lead byte asks for; `-1` for a byte that leads nothing. */
  function Need(lead: byte): (n: int)
    ensures -1 <= n <= 3
  {
    if lead < 0x80 then 0
    else if 0xC2 <= lead < 0xE0 then 1
    else if 0xE0 <= lead < 0xF0 then 2
    else if 0xF0 <= lead < 0xF5 then 3
    else -1
  }

  /** Which byte may stand in continuation place `k` (from 0): overlong forms, surrogates and code points beyond
      U+10FFFF are shut out by the first one. */
  predicate Continues(lead: byte, k: nat, b: byte) {
    if k > 0 then 0x80 <= b < 0xC0
    else if lead == 0xE0 then 0xA0 <= b < 0xC0
    else if lead == 0xED then 0x80 <= b < 0xA0
    else if lead == 0xF0 then 0x90 <= b < 0xC0
    else if lead == 0xF4 then 0x80 <= b < 0x90
    else 0x80 <= b < 0xC0
  }

  /** The continuation bytes present, from place `k` on, up to `need`. */
  function Present(bs: seq<byte>, k: nat, need: int): (c: nat)
    requires bs != [] && k < |bs|
    ensures k <= c < |bs| && (k <= need ==> c <= need)
    decreases |bs| - k
  {
    if k < need && k + 1 < |bs| && Continues(bs[0], k, bs[k + 1]) then Present(bs, k + 1, need) else k
  }

  function Payload(bs: seq<byte>, n: nat): Code
    requires n < |bs|
  {
    if n == 0 then
      (if bs[0] < 0x80 then bs[0] else if bs[0] < 0xE0 then bs[0] % 0x20 else if bs[0] < 0xF0 then bs[0] % 0x10
            else bs[0] % 8) as nat
    else Payload(bs, n - 1) * 0x40 + (bs[n] % 0x40) as nat
  }

  /** The first code point and how many bytes it takes. A sequence that breaks off, or is no sequence, is replaced as
      far as it could still have been one. */
  function First(bs: seq<byte>): (r: (Code, nat))
    requires bs != []
    ensures 1 <= r.1 <= |bs|
  {
    var need := Need(bs[0]);
    var present := Present(bs, 0, need);
    if present == need then (Payload(bs, present), present + 1) else (REPLACEMENT, present + 1)
  }

  /** `bytes.decode(errors="replace")` */
  function Decode(bs: seq<byte>): seq<Code>
    decreases |bs|
  {
    if bs == [] then [] else [First(bs).0] + Decode(bs[First(bs).1..])
  }

  /** A line feed never continues a sequence, so what precedes it decodes as if the data ended there. */
  lemma {:induction false} PresentStops(a: seq<byte>, b: seq<byte>, k: nat, need: int)
    requires a != [] && k < |a|
    ensures Present(a + [LF] + b, k, need) == Present(a, k, need)
    decreases |a| - k
  {
    var all := a + [LF] + b;
    assert all[0] == a[0];
    if k + 1 < |a| {
      assert all[k + 1] == a[k + 1];
      PresentStops(a, b, k + 1, need);
    } else {
      assert all[k + 1] == LF;
    }
  }

  lemma {:induction false} PayloadStops(a: seq<byte>, b: seq<byte>, n: nat)
    requires n < |a|
    ensures Payload(a + b, n) == Payload(a, n)
  {
    if n > 0 {
      PayloadStops(a, b, n - 1);
    }
  }

  lemma {:induction false} FirstStops(a: seq<byte>, b: seq<byte>)
    requires a != []
    ensures First(a + [LF] + b) == First(a)
  {
    var all := a + [LF] + b;
    assert all[0] == a[0] && all == a + ([LF] + b);
    PresentStops(a, b, 0, Need(a[0]));
    PayloadStops(a, [LF] + b, Present(a, 0, Need(a[0])));
  }

  lemma {:induction false} FirstOfLineFeed(b: seq<byte>)
    ensures First([LF] + b) == (LINE_FEED, 1)
  {
    assert Payload([LF] + b, 0) == 10;
  }

  /** Decoding splits at every line feed, wherever multibyte sequences were cut. */
  lemma {:induction false} DecodeSplits(a: seq<byte>, b: seq<byte>)
    ensures Decode(a + [LF] + b) == Decode(a) + [LINE_FEED] + Decode(b)
    decreases |a|
  {
    if a == [] {
      assert a + [LF] + b == [LF] + b;
      FirstOfLineFeed(b);
      assert ([LF] + b)[1..] == b;
    } else {
      FirstStops(a, b);
      var k := First(a).1;
      assert (a + [LF] + b)[k..] == a[k..] + [LF] + b;
      DecodeSplits(a[k..], b);
    }
  }

  // ---- lines ----

  /** The characters `str.splitlines` breaks at. */
  predicate IsBreak(c: Code) {
    c == 0x0A || c == 0x0D || c == 0x0B || c == 0x0C || c == 0x1C || c == 0x1D || c == 0x1E || c == 0x85
    || c == 0x2028 || c == 0x2029
  }

  /** `str.splitlines` with `line` already read; a carriage return and a line feed are one break. */
  function LinesFrom(text: seq<Code>, line: seq<Code>): seq<seq<Code>>
    decreases |text|
  {
    if text == [] then (if line == [] then [] else [line])
    else if text[0] == CARRIAGE_RETURN && |text| > 1 && text[1] == LINE_FEED then [line] + LinesFrom(text[2..], [])
    else if IsBreak(text[0]) then [line] + LinesFrom(text[1..], [])
    else LinesFrom(text[1..], line + [text[0]])
  }

  function Lines(text: seq<Code>): seq<seq<Code>> {
    LinesFrom(text, [])
  }

  /** After a line feed a new line starts, whatever came before. */
  lemma {:induction false} LinesSplit(a: seq<Code>, b: seq<Code>, line: seq<Code>)
    ensures LinesFrom(a + [LINE_FEED] + b, line) == LinesFrom(a + [LINE_FEED], line) + Lines(b)
    ensures |LinesFrom(a + [LINE_FEED], line)| >= 1
    decreases |a|
  {
    var all, front := a + [LINE_FEED] + b, a + [LINE_FEED];
    if a == [] {
      assert all[1..] == b && front[1..] == [];
    } else if a == [CARRIAGE_RETURN] {
      assert all[2..] == b && front[2..] == [];
    } else if a[0] == CARRIAGE_RETURN && a[1] == LINE_FEED {
      assert all[2..] == a[2..] + [LINE_FEED] + b && front[2..] == a[2..] + [LINE_FEED];
      LinesSplit(a[2..], b, []);
    } else {
      assert all[0] == a[0] == front[0];
      assert all[1..] == a[1..] + [LINE_FEED] + b && front[1..] == a[1..] + [LINE_FEED];
      assert |a| > 1 ==> all[1] == a[1] == front[1];
      LinesSplit(a[1..], b, if IsBreak(a[0]) then [] else line + [a[0]]);
    }
  }
}
