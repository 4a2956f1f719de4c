/** The tail of a log read backwards in blocks, and the rotation of its generations. */
module LogTail {
  import opened Common
  import opened Utf8
  import TextMeaning

  function CountLineFeeds(bs: seq<byte>): nat {
    if bs == [] then 0 else CountLineFeeds(bs[..|bs| - 1]) + (if bs[|bs| - 1] == LF then 1 else 0)
  }

  lemma {:induction false} CountConcat(a: seq<byte>, b: seq<byte>)
    ensures CountLineFeeds(a + b) == CountLineFeeds(a) + CountLineFeeds(b)
  {
    if b == [] {
      assert a + b == a;
    } else {
      assert (a + b)[..|a + b| - 1] == a + b[..|b| - 1];
      CountConcat(a, b[..|b| - 1]);
    }
  }

  /** `lines[-n:]` for positive `n` */
  function LastLines(lines: seq<seq<Code>>, n: nat): seq<seq<Code>> {
    if |lines| <= n then lines else lines[|lines| - n..]
  }

  /** The position of the first line feed. */
  lemma {:induction false} FirstLineFeed(bs: seq<byte>) returns (k: nat)
    requires CountLineFeeds(bs) > 0
    ensures k < |bs| && bs[k] == LF && CountLineFeeds(bs[..k]) == 0
  {
    var front := bs[..|bs| - 1];
    if CountLineFeeds(front) > 0 {
      k := FirstLineFeed(front);
      assert front[..k] == bs[..k];
    } else {
      k := |bs| - 1;
    }
  }

  lemma {:induction false} AtLineFeed(bs: seq<byte>, k: nat)
    requires k < |bs| && bs[k] == LF
    ensures bs == bs[..k] + [LF] + bs[k + 1..]
    ensures CountLineFeeds(bs) == CountLineFeeds(bs[..k]) + 1 + CountLineFeeds(bs[k + 1..])
  {
    assert bs == bs[..k] + [LF] + bs[k + 1..];
    CountConcat(bs[..k] + [LF], bs[k + 1..]);
    CountConcat(bs[..k], [LF]);
    assert [LF][..0] == [];
    assert CountLineFeeds([LF]) == 1;
  }

  lemma {:induction false} TextAfterLineFeed(bs: seq<byte>, k: nat)
    requires k < |bs| && bs[k] == LF
    ensures Lines(Decode(bs)) == Lines(Decode(bs[..k]) + [LINE_FEED]) + Lines(Decode(bs[k + 1..]))
    ensures |Lines(Decode(bs[..k]) + [LINE_FEED])| >= 1
  {
    AtLineFeed(bs, k);
    DecodeSplits(bs[..k], bs[k + 1..]);
    LinesSplit(Decode(bs[..k]), Decode(bs[k + 1..]), []);
  }

  /** Every line feed ends a line. */
  lemma {:induction false} AtLeastOneLineEach(bs: seq<byte>)
    ensures |Lines(Decode(bs))| >= CountLineFeeds(bs)
    decreases |bs|
  {
    if CountLineFeeds(bs) > 0 {
      var k := FirstLineFeed(bs);
      AtLineFeed(bs, k);
      TextAfterLineFeed(bs, k);
      AtLeastOneLineEach(bs[k + 1..]);
    }
  }

  /** Text before a line feed does not matter once `n` lines follow it. */
  lemma {:induction false} LastOfConcat(a: seq<seq<Code>>, b: seq<seq<Code>>, n: nat)
    requires |b| >= n
    ensures LastLines(a + b, n) == LastLines(b, n)
  {
  }

  lemma {:induction false} EnoughAfter(bs: seq<byte>, k: nat, n: nat)
    requires k < |bs| && bs[k] == LF && |Lines(Decode(bs[k + 1..]))| >= n
    ensures LastLines(Lines(Decode(bs)), n) == LastLines(Lines(Decode(bs[k + 1..])), n)
  {
    TextAfterLineFeed(bs, k);
    LastOfConcat(Lines(Decode(bs[..k]) + [LINE_FEED]), Lines(Decode(bs[k + 1..])), n);
  }

  lemma {:induction false} SameTail(a: seq<byte>, i: nat, b: seq<byte>, j: nat, n: nat)
    requires i < |a| && a[i] == LF && j < |b| && b[j] == LF && a[i + 1..] == b[j + 1..]
    requires |Lines(Decode(a[i + 1..]))| >= n
    ensures LastLines(Lines(Decode(a)), n) == LastLines(Lines(Decode(b)), n)
  {
    EnoughAfter(a, i, n);
    EnoughAfter(b, j, n);
  }

  lemma {:induction false} SliceOfSlice(file: seq<byte>, from: nat, k: nat)
    requires from <= |file| && k < |file[from..]|
    ensures file[from..][k + 1..] == file[from + k + 1..] && file[from..][k] == file[from + k]
  {
  }

  lemma {:induction false} EnoughBehindFirst(bs: seq<byte>, n: nat) returns (k: nat)
    requires CountLineFeeds(bs) > n
    ensures k < |bs| && bs[k] == LF && |Lines(Decode(bs[k + 1..]))| >= n
  {
    k := FirstLineFeed(bs);
    AtLineFeed(bs, k);
    AtLeastOneLineEach(bs[k + 1..]);
  }

  /** The last `n` lines depend only on a suffix that holds more than `n` line feeds, wherever it starts. */
  lemma {:induction false} SuffixSuffices(file: seq<byte>, from: nat, n: nat)
    requires from <= |file| && (from > 0 ==> CountLineFeeds(file[from..]) > n)
    ensures LastLines(Lines(Decode(file[from..])), n) == LastLines(Lines(Decode(file)), n)
  {
    if from > 0 {
      var k := EnoughBehindFirst(file[from..], n);
      SliceOfSlice(file, from, k);
      SameTail(file[from..], k, file, from + k, n);
    } else {
      assert file[from..] == file;
    }
  }

  /** `lines` is the end of what `text` is cut into at its breaks: the last `n` lines, or all when there are fewer. */
  ghost predicate AreLast(lines: seq<seq<Code>>, n: nat, text: seq<Code>) {
    exists all :: IsEndOf(lines, n, all) && TextMeaning.CutAtBreaks(text, all)
  }

  predicate IsEndOf(lines: seq<seq<Code>>, n: nat, all: seq<seq<Code>>) {
    |lines| == (if |all| < n then |all| else n) && lines == all[|all| - |lines|..]
  }

  lemma {:induction false} LastLinesAreLast(text: seq<Code>, n: nat)
    ensures AreLast(LastLines(Lines(text), n), n, text)
  {
    TextMeaning.LinesAreCut(text);
    assert IsEndOf(LastLines(Lines(text), n), n, Lines(text));
  }

  // ---- the reader ----

  /** `b"".join(reversed(chunks))` */
  function JoinReversed(chunks: seq<seq<byte>>): seq<byte> {
    if chunks == [] then [] else chunks[|chunks| - 1] + JoinReversed(chunks[..|chunks| - 1])
  }

  /** `reverse_tail`: reads blocks from the end until enough line feeds have been seen. */
  method ReverseTail(file: seq<byte>, n: int, blockSize: nat) returns (lines: seq<seq<Code>>)
    requires blockSize > 0
    ensures n <= 0 ==> lines == []
    ensures n > 0 ==> lines == LastLines(Lines(Decode(file)), n)
    ensures n > 0 ==> AreLast(lines, n, Decode(file))
  {
    if n <= 0 {
      return [];
    }
    var chunks: seq<seq<byte>> := [];
    var newlines := 0;
    var position := |file|;
    while position > 0 && newlines <= n
      invariant 0 <= position <= |file|
      invariant JoinReversed(chunks) == file[position..]
      invariant newlines == CountLineFeeds(file[position..])
    {
      var size := if blockSize < position then blockSize else position;
      ghost var before := file[position..];
      position := position - size;
      var chunk := file[position..position + size];
      assert (chunks + [chunk])[..|chunks|] == chunks;
      assert file[position..] == chunk + before;
      CountConcat(chunk, before);
      chunks := chunks + [chunk];
      newlines := newlines + CountLineFeeds(chunk);
    }
    SuffixSuffices(file, position, n);
    lines := LastLines(Lines(Decode(JoinReversed(chunks))), n);
    LastLinesAreLast(Decode(file), n);
  }

  // ---- rotation ----

  /** Log generations by number, 0 the current one. */
  type Generations = map<nat, seq<byte>>

  function At(files: Generations, g: nat): Option<seq<byte>> {
    if g in files then Some(files[g]) else None
  }

  /** Every generation moves up by one, the oldest kept one falls off, and nothing else changes. A generation whose
      predecessor is missing is moved away, except the oldest, which then stays. */
  ghost predicate Rotated(before: Generations, after: Generations, backups: nat) {
    && 0 !in after && (0 in before ==> 1 in after && after[1] == before[0])
    && (forall g: nat :: 2 <= g <= backups && g - 1 in before ==> g in after && after[g] == before[g - 1])
    && (forall g: nat :: 2 <= g < backups && g - 1 !in before ==> g !in after)
    && (forall g: nat :: g > backups || (2 <= g == backups && g - 1 !in before) ==> At(after, g) == At(before, g))
  }

  /** Generation `g` once all generations from `m` up have been handled, from the oldest down. */
  function MovedTo(before: Generations, backups: nat, m: nat, g: nat): Option<seq<byte>> {
    if g > backups || g < m || m == backups then At(before, g)
    else if g == m then None
    else if g == backups && g - 1 !in before then At(before, g)
    else At(before, g - 1)
  }

  ghost predicate MovedDownTo(before: Generations, files: Generations, backups: nat, m: nat) {
    forall g: nat :: At(files, g) == MovedTo(before, backups, m, g)
  }

  function Renamed(files: Generations, g: nat): Generations {
    if g - 1 in files then (files - {g - 1})[g := files[g - 1]] else files
  }

  /** One rename moves the boundary down by one. */
  lemma {:induction false} OneRename(before: Generations, files: Generations, backups: nat, m: nat)
    requires 1 < m <= backups && MovedDownTo(before, files, backups, m)
    ensures MovedDownTo(before, Renamed(files, m), backups, m - 1)
  {
    assert At(files, m - 1) == MovedTo(before, backups, m, m - 1) && At(files, m) == MovedTo(before, backups, m, m);
    forall g: nat ensures At(Renamed(files, m), g) == MovedTo(before, backups, m - 1, g) {
      assert At(files, g) == MovedTo(before, backups, m, g);
    }
  }

  lemma {:induction false} LastRename(before: Generations, files: Generations, backups: nat)
    requires 1 <= backups && 0 in before && MovedDownTo(before, files, backups, 1)
    ensures 0 in files && Rotated(before, (files - {0})[1 := files[0]], backups)
  {
    assert At(files, 0) == MovedTo(before, backups, 1, 0);
    assert files[0] == before[0];
    var after := (files - {0})[1 := files[0]];
    forall g: nat | g > 1 ensures At(after, g) == MovedTo(before, backups, 1, g) {
      assert At(files, g) == MovedTo(before, backups, 1, g);
    }
    forall g: nat | 2 <= g <= backups && g - 1 in before ensures g in after && after[g] == before[g - 1] {
      assert At(after, g) == MovedTo(before, backups, 1, g);
    }
    forall g: nat | 2 <= g < backups && g - 1 !in before ensures g !in after {
      assert At(after, g) == MovedTo(before, backups, 1, g);
    }
  }

  /** `rotate_if_needed` */
  method RotateIfNeeded(before: Generations, maxBytes: nat, backups: nat) returns (files: Generations)
    ensures 0 in before && |before[0]| >= maxBytes && backups >= 1 ==> Rotated(before, files, backups)
    ensures !(0 in before && |before[0]| >= maxBytes && backups >= 1) ==> files == before
  {
    files := before;
    if 0 !in files || |files[0]| < maxBytes || backups < 1 {
      return;
    }
    var generation := backups;
    while generation > 1
      invariant 1 <= generation <= backups && MovedDownTo(before, files, backups, generation)
    {
      OneRename(before, files, backups, generation);
      if generation - 1 in files {
        files := (files - {generation - 1})[generation := files[generation - 1]];
      }
      generation := generation - 1;
    }
    LastRename(before, files, backups);
    files := (files - {0})[1 := files[0]];
  }
}
