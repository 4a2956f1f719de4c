/** From the bytes of a domain set to the trie that answers for it. */
module DomainMatcher {
  import opened Common
  import opened LabelTree
  import opened Louds
  import opened SuccinctTrie
  import Srs = SrsReader

  const WIDTH: nat := 8

  /** Big-endian 64-bit words, end to end. */
  function PutWords(ws: seq<Word>): (raw: seq<byte>)
    ensures |raw| == 8 * |ws|
  {
    if ws == [] then [] else PutWords(ws[..|ws| - 1]) + Srs.PutBigEndian(ws[|ws| - 1], WIDTH)
  }

  lemma {:induction false} BigEndianBound(bs: seq<byte>)
    ensures Srs.BigEndian(bs) < Srs.Pow256(|bs|)
  {
    if bs != [] {
      BigEndianBound(bs[..|bs| - 1]);
    }
  }

  lemma {:induction false} EightBytes()
    ensures Srs.Pow256(8) == 0x1_0000_0000_0000_0000
  {
    assert Srs.Pow256(2) == 0x1_0000;
    assert Srs.Pow256(4) == 0x1_0000_0000;
    assert Srs.Pow256(6) == 0x1_0000_0000_0000;
  }

  function ToWord(bs: seq<byte>): (w: Word)
    requires |bs| == 8
  {
    BigEndianBound(bs);
    EightBytes();
    Srs.BigEndian(bs)
  }

  /** Eight bytes a word. */
  function WordsOf(raw: seq<byte>): (ws: seq<Word>)
    requires |raw| % 8 == 0
    ensures 8 * |ws| == |raw|
  {
    if raw == [] then [] else WordsOf(raw[..|raw| - 8]) + [ToWord(raw[|raw| - 8..])]
  }

  lemma {:induction false} WordRoundTrip(w: Word)
    ensures ToWord(Srs.PutBigEndian(w, WIDTH)) == w
  {
    EightBytes();
    Srs.BigEndianRoundTrip(w, WIDTH);
  }

  lemma {:induction false} WordsAppend(raw: seq<byte>, last: seq<byte>, ws: seq<Word>, w: Word)
    requires |raw| == 8 * |ws| && |last| == 8 && WordsOf(raw) == ws && ToWord(last) == w
    ensures |raw + last| % 8 == 0 && WordsOf(raw + last) == ws + [w]
  {
    assert (raw + last)[..|raw + last| - 8] == raw;
    assert (raw + last)[|raw + last| - 8..] == last;
  }

  lemma {:induction false} WordsRoundTrip(ws: seq<Word>)
    ensures WordsOf(PutWords(ws)) == ws
  {
    if ws != [] {
      var front, last := ws[..|ws| - 1], ws[|ws| - 1];
      WordsRoundTrip(front);
      WordRoundTrip(last);
      WordsAppend(PutWords(front), Srs.PutBigEndian(last, WIDTH), front, last);
    }
  }

  /** A domain set as the writer lays it down. */
  function Payload(t: SuccinctTrie): Srs.Item {
    Srs.DomainSet(PutWords(t.leaves), PutWords(t.labelBitmap), t.labels)
  }

  predicate Writable(t: SuccinctTrie) {
    Srs.Fits(|t.leaves|) && Srs.Fits(|t.labelBitmap|) && Srs.Fits(|t.labels|)
  }

  /** The words and labels a payload holds are those of the trie. */
  ghost predicate HoldsArrays(i: Srs.Item, t: SuccinctTrie) {
    && i.DomainSet? && |i.leaves| % 8 == 0 && |i.bitmap| % 8 == 0
    && t.leaves == WordsOf(i.leaves) && t.labelBitmap == WordsOf(i.bitmap) && t.labels == i.labels
  }

  lemma {:induction false} PayloadIsGood(t: SuccinctTrie)
    requires Writable(t)
    ensures Srs.GoodItem(Payload(t))
  {
    Eighth(|t.leaves|);
    Eighth(|t.labelBitmap|);
  }

  lemma {:induction false} Eighth(n: nat)
    ensures 8 * n % 8 == 0 && 8 * n / 8 == n
  {
  }

  lemma {:induction false} PayloadHoldsArrays(t: SuccinctTrie)
    ensures HoldsArrays(Payload(t), t)
  {
    WordsRoundTrip(t.leaves);
    WordsRoundTrip(t.labelBitmap);
    Eighth(|t.leaves|);
    Eighth(|t.labelBitmap|);
  }

  /** What the writer puts down for a trie. */
  function Written(t: SuccinctTrie): seq<byte> {
    Srs.PutPayload(Payload(t))
  }

  /** Reading what was written for a trie gives back exactly its arrays and what followed. */
  lemma {:induction false} PayloadRoundTrip(t: SuccinctTrie, rest: seq<byte>)
    requires Writable(t)
    ensures Srs.DomainPayload(Written(t) + rest) == Ok((Payload(t), rest))
    ensures HoldsArrays(Payload(t), t)
  {
    PayloadIsGood(t);
    PayloadHoldsArrays(t);
    Srs.DomainRoundTrip(PutWords(t.leaves), PutWords(t.labelBitmap), t.labels, rest);
  }

  /** The arrays and the rank index decide what a trie codes. */
  lemma {:induction false} SameArraysSameCoding(i: Srs.Item, a: SuccinctTrie, b: SuccinctTrie, l: Layout)
    requires HoldsArrays(i, a) && HoldsArrays(i, b) && a.Codes(l) && b.Indexed()
    ensures b.Codes(l)
  {
  }

  // ---- the reader as it moves ----

  lemma {:induction false} OneMoreWord(start: seq<byte>, i: nat)
    requires 8 * i + 8 <= |start|
    ensures WordsOf(start[..8 * i + 8]) == WordsOf(start[..8 * i]) + [ToWord(start[8 * i..][..8])]
  {
    assert start[..8 * i + 8][..8 * i] == start[..8 * i];
    assert start[..8 * i + 8][8 * i..] == start[8 * i..][..8];
  }

  /** A counted list of words: short, or the words and what follows. */
  lemma {:induction false} RunIs(s: seq<byte>, n: nat, start: seq<byte>)
    requires Srs.Uvarint(s, 0) == Ok((n, start))
    ensures |start| < 8 * n ==> Srs.Run(s, WIDTH).Err?
    ensures 8 * n <= |start| ==> Srs.Run(s, WIDTH) == Ok((start[..8 * n], start[8 * n..]))
  {
    assert Srs.Times(n, WIDTH) == 8 * n;
  }

  /** `_read_uint64_list` */
  method ReadWords(st: Srs.Stream) returns (r: Result<seq<Word>, string>)
    requires st.Valid()
    modifies st
    ensures st.Valid() && r.Ok? == Srs.Run(old(st.Rest()), WIDTH).Ok?
    ensures r.Ok? ==> var (raw, rest) := Srs.Run(old(st.Rest()), WIDTH).value;
                      rest == st.Rest() && |raw| % 8 == 0 && r.value == WordsOf(raw)
  {
    var length := st.ReadUvarint();
    if length.Err? {
      return Err(length.error);
    }
    ghost var start := st.Rest();
    var n := length.value;
    RunIs(old(st.Rest()), n, start);
    var words: seq<Word> := [];
    for i := 0 to n
      invariant st.Valid() && 8 * i <= |start| && st.Rest() == start[8 * i..] && words == WordsOf(start[..8 * i])
    {
      var bs := st.ReadExact(WIDTH);
      if bs.Err? {
        return Err(bs.error);
      }
      OneMoreWord(start, i);
      words := words + [ToWord(bs.value)];
    }
    r := Ok(words);
  }

  /** `_read_domain_matcher`: a version byte nobody looks at, two lists of words, the labels. */
  method ReadDomainMatcher(st: Srs.Stream) returns (r: Result<SuccinctTrie, string>)
    requires st.Valid()
    modifies st
    ensures st.Valid() && r.Ok? == Srs.DomainPayload(old(st.Rest())).Ok?
    ensures r.Ok? ==> var (item, rest) := Srs.DomainPayload(old(st.Rest())).value;
                      rest == st.Rest() && HoldsArrays(item, r.value) && r.value.Indexed()
  {
    var version := st.ReadExact(1);
    if version.Err? {
      return Err(version.error);
    }
    var leaves := ReadWords(st);
    if leaves.Err? {
      return Err(leaves.error);
    }
    var bitmap := ReadWords(st);
    if bitmap.Err? {
      return Err(bitmap.error);
    }
    var labels := st.ReadBlock();
    if labels.Err? {
      return Err(labels.error);
    }
    var t := Decode(leaves.value, bitmap.value, labels.value);
    r := Ok(t);
  }

  /** What a rule-set's bytes say about a domain: reading the set written for a coded tree, then looking a key up,
      answers what the plain walk of the tree answers. */
  method LookUpWritten(body: seq<byte>, key: seq<byte>, ghost written: SuccinctTrie, ghost l: Layout,
                       ghost rest: seq<byte>)
    returns (r: Option<bool>)
    requires written.Codes(l) && Writable(written) && body == Written(written) + rest
    ensures r == Some(Walk(l.nodes[0], key))
  {
    PayloadRoundTrip(written, rest);
    var st := new Srs.Stream(body);
    assert st.Rest() == body;
    var t := ReadDomainMatcher(st);
    SameArraysSameCoding(Payload(written), written, t.value, l);
    r := t.value.Has(key, l);
  }
}
