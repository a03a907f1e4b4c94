/** The log viewer's polling protocol: each poll returns the complete lines after the
    offset of the previous poll, within a capped window. */
module LogTail {
  import opened Bytes

  const NEWLINE: Byte := 10
  const LOG_TAIL_CAP: nat := 0x40000

  datatype Tail = Tail(lines: seq<Text>, nextOffset: nat, size: nat)

  datatype LogFile = Missing | Present(content: Text)

  // ----- lines of a block -----

  /** The pieces between newlines; a text without newline is one piece. */
  function Split(data: Text): (pieces: seq<Text>)
    decreases |data|
  {
    var i := IndexByte(data, NEWLINE);
    if i < 0 then [data] else [data[..i]] + Split(data[i + 1..])
  }

  function TrimNewline(data: Text): Text {
    if |data| > 0 && data[|data| - 1] == NEWLINE then data[..|data| - 1] else data
  }

  function Lines(data: Text): seq<Text> {
    if |data| > 0 then Split(TrimNewline(data)) else []
  }

  /** Every line followed by its newline: the inverse of `Lines` on whole blocks. */
  function Unlines(lines: seq<Text>): Text {
    if lines == [] then [] else lines[0] + [NEWLINE] + Unlines(lines[1..])
  }

  /** A block is whole when it is empty or ends in a newline. */
  predicate WholeLines(data: Text) {
    |data| > 0 ==> data[|data| - 1] == NEWLINE
  }

  lemma CutText(data: Text, i: nat)
    requires i < |data| && data[i] == NEWLINE
    ensures data + [NEWLINE] == data[..i] + [NEWLINE] + (data[i + 1..] + [NEWLINE])
  {
  }

  /** A text with a newline is cut behind its first line. */
  lemma CutAtNewline(data: Text, i: nat)
    requires i < |data| && i == IndexByte(data, NEWLINE)
    ensures data + [NEWLINE] == data[..i] + [NEWLINE] + (data[i + 1..] + [NEWLINE])
    ensures Split(data) == [data[..i]] + Split(data[i + 1..])
    ensures NEWLINE !in data[..i]
  {
    hide IndexByte;
    assert forall k :: 0 <= k < i ==> data[..i][k] == data[k];
    hide Split;
    CutText(data, i);
    SplitTurn(data, i);
  }

  lemma SplitTurn(data: Text, i: nat)
    requires i < |data| && i == IndexByte(data, NEWLINE)
    ensures Split(data) == [data[..i]] + Split(data[i + 1..])
  {
    hide IndexByte;
  }

  lemma {:induction false} SplitJoins(data: Text)
    ensures Unlines(Split(data)) == data + [NEWLINE]
    ensures forall line :: line in Split(data) ==> NEWLINE !in line
    decreases |data|
  {
    var i := IndexByte(data, NEWLINE);
    if i < 0 {
      FirstLine(data, []);
      assert [data] + [] == [data];
    } else {
      hide Split, Unlines, IndexByte;
      CutAtNewline(data, i);
      SplitJoins(data[i + 1..]);
      FirstLine(data[..i], Split(data[i + 1..]));
    }
  }

  lemma FirstLine(line: Text, rest: seq<Text>)
    ensures Unlines([line] + rest) == line + [NEWLINE] + Unlines(rest)
  {
    assert ([line] + rest)[1..] == rest;
  }

  /** The returned lines carry exactly the bytes of the block, and each is one line. */
  lemma LinesRoundTrip(data: Text)
    requires WholeLines(data)
    ensures Unlines(Lines(data)) == data
    ensures forall line :: line in Lines(data) ==> NEWLINE !in line
  {
    if |data| > 0 {
      SplitJoins(TrimNewline(data));
      assert TrimNewline(data) + [NEWLINE] == data;
    }
  }

  lemma {:induction false} UnlinesAppend(a: seq<Text>, b: seq<Text>)
    ensures Unlines(a + b) == Unlines(a) + Unlines(b)
  {
    if a == [] {
      assert a + b == b;
    } else {
      assert (a + b)[1..] == a[1..] + b;
      UnlinesAppend(a[1..], b);
    }
  }

  // ----- one poll -----

  /** The offset a poll starts from: anything outside the file restarts at zero. */
  function Resume(size: nat, offset: int): nat {
    if offset > size || offset < 0 then 0 else offset
  }

  predicate Capped(file: Text, offset: int) {
    |file| - Resume(|file|, offset) > LOG_TAIL_CAP
  }

  /** First byte of the block a poll returns. */
  function KeptFrom(file: Text, offset: int): (from: nat)
    ensures Resume(|file|, offset) <= from <= |file|
  {
    var o := Resume(|file|, offset);
    if !Capped(file, offset) then o
    else
      var start := |file| - LOG_TAIL_CAP;
      var i := IndexByte(file[start..], NEWLINE);
      if i >= 0 then start + i + 1 else |file|
  }

  /** One past the last byte of the block a poll returns. */
  function KeptTo(file: Text, offset: int): (to: nat)
    ensures KeptFrom(file, offset) <= to <= |file|
  {
    var from := KeptFrom(file, offset);
    from + LastIndexByte(file[from..], NEWLINE) + 1
  }

  /** The bytes a poll returns. */
  function Block(file: Text, offset: int): Text {
    file[KeptFrom(file, offset)..KeptTo(file, offset)]
  }

  /** The window of one poll: the unread bytes, capped, with a cut line's head skipped. */
  method ReadWindow(file: Text, offset: int) returns (start: nat, data: Text)
    ensures start == KeptFrom(file, offset) && data == file[start..]
  {
    var size := |file|;
    var from := offset;
    if from > size || from < 0 {
      from := 0;
    }
    start := from;
    if size - start > LOG_TAIL_CAP {
      start := size - LOG_TAIL_CAP;
    }
    data := file[start..];
    if start != from {
      var i := IndexByte(data, NEWLINE);
      if i >= 0 {
        start := start + i + 1;
        data := data[i + 1..];
      } else {
        data, start := [], size;
      }
    }
  }

  /** One poll of a file, without naming how it computes: it resumes at the offset, or at zero
      when that lies outside the file; with up to 256 KiB unread it returns every complete line
      from there on, with more only those behind the first newline of the last 256 KiB. */
  ghost predicate IsPoll(file: Text, offset: int, tail: Tail) {
    var start := if 0 <= offset <= |file| then offset else 0;
    var next := tail.nextOffset;
    && tail.size == |file| && start <= next <= |file|
    && (forall line :: line in tail.lines ==> 10 !in line)
    && (forall k :: next <= k < |file| ==> file[k] != 10)
    && (if |file| - start <= 262144 then
          Unlines(tail.lines) == file[start..next] && (next > start ==> file[next - 1] == 10)
        else if forall k :: |file| - 262144 <= k < |file| ==> file[k] != 10 then
          tail.lines == [] && next == |file|
        else
          exists from :: |file| - 262144 < from <= next && file[from - 1] == 10
            && (forall k :: |file| - 262144 <= k < from - 1 ==> file[k] != 10)
            && Unlines(tail.lines) == file[from..next] && file[next - 1] == 10)
  }

  lemma PollEnds(file: Text, offset: int)
    ensures Unlines(Lines(Block(file, offset))) == Block(file, offset)
    ensures forall line :: line in Lines(Block(file, offset)) ==> 10 !in line
    ensures forall k :: KeptTo(file, offset) <= k < |file| ==> file[k] != 10
    ensures KeptTo(file, offset) > KeptFrom(file, offset) ==> file[KeptTo(file, offset) - 1] == 10
  {
    KeptToFacts(file, offset);
    LinesRoundTrip(Block(file, offset));
  }

  lemma PollMeans(file: Text, offset: int)
    ensures IsPoll(file, offset, Tail(Lines(Block(file, offset)), KeptTo(file, offset), |file|))
  {
    if Capped(file, offset) {
      CappedPollMeans(file, offset);
    } else {
      hide KeptTo, Lines, Unlines;
      PollEnds(file, offset);
    }
  }

  lemma CappedPollMeans(file: Text, offset: int)
    requires Capped(file, offset)
    ensures IsPoll(file, offset, Tail(Lines(Block(file, offset)), KeptTo(file, offset), |file|))
  {
    if NoNewline(file, |file| - LOG_TAIL_CAP, |file|) {
      BlindPollMeans(file, offset);
    } else {
      hide KeptFrom, KeptTo, Lines, Unlines, NoNewline;
      PollEnds(file, offset);
      SnappedFrom(file, offset);
      var from := KeptFrom(file, offset);
      assert |file| - 262144 < from <= KeptTo(file, offset) && file[from - 1] == 10;
      assert Block(file, offset) == file[from..KeptTo(file, offset)];
    }
  }

  lemma SnappedFrom(file: Text, offset: int)
    requires Capped(file, offset) && !NoNewline(file, |file| - LOG_TAIL_CAP, |file|)
    ensures |file| - 262144 < KeptFrom(file, offset) && file[KeptFrom(file, offset) - 1] == 10
    ensures forall k :: |file| - 262144 <= k < KeptFrom(file, offset) - 1 ==> file[k] != 10
    ensures exists k :: |file| - 262144 <= k < |file| && file[k] == 10
  {
    CappedFrom(file, offset);
    hide KeptFrom;
  }

  lemma BlindPollMeans(file: Text, offset: int)
    requires Capped(file, offset) && NoNewline(file, |file| - LOG_TAIL_CAP, |file|)
    ensures IsPoll(file, offset, Tail(Lines(Block(file, offset)), KeptTo(file, offset), |file|))
  {
    assert Lines([]) == [];
    hide KeptFrom, KeptTo, Lines, Unlines;
    CappedFrom(file, offset);
    PollEnds(file, offset);
    assert Block(file, offset) == [];
  }

  /** readLogTail: one poll, the trailing partial line held back. */
  method ReadLogTail(log: LogFile, offset: int) returns (tail: Tail)
    ensures log.Missing? ==> tail == Tail([], 0, 0)
    ensures log.Present? ==>
      && tail.size == |log.content|
      && tail.nextOffset == KeptTo(log.content, offset)
      && tail.lines == Lines(Block(log.content, offset))
    ensures log.Present? ==> IsPoll(log.content, offset, tail)
  {
    if log.Missing? {
      return Tail([], 0, 0);
    }
    var start, data := ReadWindow(log.content, offset);
    var cut := LastIndexByte(data, NEWLINE) + 1;
    if cut != |data| {
      data := data[..cut];
    }
    assert data == Block(log.content, offset);
    tail := Tail(Lines(data), start + |data|, |log.content|);
    PollMeans(log.content, offset);
  }

  // ----- line boundaries -----

  predicate Boundary(file: Text, o: int) {
    0 <= o <= |file| && (o > 0 ==> file[o - 1] == NEWLINE)
  }

  predicate NoNewline(file: Text, i: nat, j: nat)
    requires i <= j <= |file|
  {
    forall k :: i <= k < j ==> file[k] != NEWLINE
  }

  /** Every line of the file, the unfinished last one included, is shorter than the cap. */
  ghost predicate ShortLines(file: Text) {
    forall i, j :: 0 <= i <= j <= |file| && Boundary(file, i) && NoNewline(file, i, j) ==> j - i < LOG_TAIL_CAP
  }

  /** The last byte a poll returns is the last newline after the block's start. */
  lemma KeptToFacts(file: Text, offset: int)
    ensures KeptTo(file, offset) > KeptFrom(file, offset) ==> file[KeptTo(file, offset) - 1] == NEWLINE
    ensures NoNewline(file, KeptTo(file, offset), |file|)
  {
    var from, to := KeptFrom(file, offset), KeptTo(file, offset);
    var rest := file[from..];
    assert forall k :: to <= k < |file| ==> file[k] == rest[k - from];
  }

  /** With short lines the capped window always holds a newline to snap to. */
  lemma WindowHasNewline(file: Text)
    requires ShortLines(file) && |file| >= LOG_TAIL_CAP
    ensures !NoNewline(file, |file| - LOG_TAIL_CAP, |file|)
  {
    var last := LastIndexByte(file, NEWLINE);
    assert Boundary(file, last + 1) && NoNewline(file, last + 1, |file|);
    assert file[last] == NEWLINE;
  }

  lemma CappedFrom(file: Text, offset: int)
    requires Capped(file, offset)
    ensures var start := |file| - LOG_TAIL_CAP;
            && (NoNewline(file, start, |file|) ==> KeptFrom(file, offset) == |file|)
            && (!NoNewline(file, start, |file|) ==>
              && start < KeptFrom(file, offset)
              && file[KeptFrom(file, offset) - 1] == NEWLINE
              && NoNewline(file, start, KeptFrom(file, offset) - 1))
  {
    var start := |file| - LOG_TAIL_CAP;
    var window := file[start..];
    assert forall k :: start <= k < |file| ==> file[k] == window[k - start];
  }

  /** A poll hands out a line boundary exactly when its window is uncapped or holds a newline. */
  lemma NextOffsetIsBoundaryIff(file: Text, offset: int)
    requires Boundary(file, Resume(|file|, offset))
    ensures Boundary(file, KeptTo(file, offset))
      <==> (!Capped(file, offset) || !NoNewline(file, |file| - LOG_TAIL_CAP, |file|))
  {
    KeptToFacts(file, offset);
    if Capped(file, offset) {
      CappedFrom(file, offset);
    }
  }

  /** The boundary promise does fail: one unbroken line past the cap. */
  lemma LongLineBreaksBoundary(file: Text)
    requires |file| == LOG_TAIL_CAP + 1 && NoNewline(file, 0, |file|)
    ensures Boundary(file, 0) && KeptTo(file, 0) == |file| && !Boundary(file, KeptTo(file, 0))
  {
    CappedFrom(file, 0);
  }

  /** A capped poll skips one contiguous run of whole lines and nothing else. */
  lemma PollOnShortLines(file: Text, offset: int)
    requires ShortLines(file) && Boundary(file, Resume(|file|, offset))
    ensures Boundary(file, KeptFrom(file, offset)) && Boundary(file, KeptTo(file, offset))
    ensures NoNewline(file, KeptTo(file, offset), |file|)
    ensures !Capped(file, offset) ==> KeptFrom(file, offset) == Resume(|file|, offset)
    ensures Capped(file, offset) ==>
      |file| - LOG_TAIL_CAP < KeptFrom(file, offset)
      && NoNewline(file, |file| - LOG_TAIL_CAP, KeptFrom(file, offset) - 1)
  {
    KeptToFacts(file, offset);
    NextOffsetIsBoundaryIff(file, offset);
    if Capped(file, offset) {
      WindowHasNewline(file);
      CappedFrom(file, offset);
    }
  }

  // ----- a whole run of polls over a growing file -----

  /** Snapshots of one append-only log of short lines, in the order the polls saw them. */
  ghost predicate AppendOnly(files: seq<Text>) {
    && (forall i, j :: 0 <= i <= j < |files| ==> files[i] <= files[j])
    && (forall i :: 0 <= i < |files| ==> ShortLines(files[i]))
  }

  /** The offset the viewer holds before poll `k`. */
  function OffsetBefore(files: seq<Text>, k: nat): nat
    requires k <= |files|
  {
    if k == 0 then 0 else KeptTo(files[k - 1], OffsetBefore(files, k - 1))
  }

  /** The first byte poll `k` returns. */
  function From(files: seq<Text>, k: nat): nat
    requires k < |files|
  {
    KeptFrom(files[k], OffsetBefore(files, k))
  }

  /** All lines handed out by the first `k` polls. */
  function Shown(files: seq<Text>, k: nat): seq<Text>
    requires k <= |files|
  {
    if k == 0 then [] else Shown(files, k - 1) + Lines(Block(files[k - 1], OffsetBefore(files, k - 1)))
  }

  /** Along an append-only log no poll ever resets: each offset is a boundary of the snapshot
      it came from, hence of every later one. */
  lemma {:induction false} OffsetsStayBoundaries(files: seq<Text>, k: nat)
    requires AppendOnly(files) && k < |files|
    ensures Boundary(files[k], OffsetBefore(files, k))
    ensures OffsetBefore(files, k) <= From(files, k) <= OffsetBefore(files, k + 1) <= |files[k]|
    ensures Boundary(files[k], From(files, k)) && Boundary(files[k], OffsetBefore(files, k + 1))
    ensures !Capped(files[k], OffsetBefore(files, k)) ==> From(files, k) == OffsetBefore(files, k)
  {
    hide KeptFrom, KeptTo, ShortLines, NoNewline, Capped;
    if k > 0 {
      OffsetsStayBoundaries(files, k - 1);
      assert files[k - 1] <= files[k];
    }
    PollOnShortLines(files[k], OffsetBefore(files, k));
  }

  /** Blocks come out in file order and never overlap, however many polls lie between. */
  lemma {:induction false} BlocksAscend(files: seq<Text>, j: nat, k: nat)
    requires AppendOnly(files) && j < k < |files|
    ensures OffsetBefore(files, j + 1) <= OffsetBefore(files, k) <= From(files, k)
    decreases k
  {
    hide KeptFrom, KeptTo, Capped, AppendOnly, OffsetBefore, From, Boundary;
    OffsetsStayBoundaries(files, k);
    if j + 1 < k {
      BlocksAscend(files, j, k - 1);
      OffsetsStayBoundaries(files, k - 1);
    }
  }

  lemma ExtendPrefix(before: Text, file: Text, o: nat, to: nat)
    requires before <= file && o <= |before| && o <= to <= |file|
    ensures before[..o] + file[o..to] == file[..to]
  {
  }

  /** The block of one poll that starts and ends on a boundary survives being split into lines. */
  lemma BlockRoundTrip(file: Text, o: nat, to: nat)
    requires o <= to <= |file| && Boundary(file, to)
    ensures Unlines(Lines(file[o..to])) == file[o..to]
  {
    LinesRoundTrip(file[o..to]);
  }

  // ----- runs with capped polls -----

  /** What poll `k` passes over without showing it. */
  function Gap(files: seq<Text>, k: nat): Text
    requires k < |files|
  {
    files[k][Resume(|files[k]|, OffsetBefore(files, k))..From(files, k)]
  }

  /** The blocks of the first `k` polls, one after the other. */
  function Blocks(files: seq<Text>, k: nat): Text
    requires k <= |files|
  {
    if k == 0 then [] else Blocks(files, k - 1) + Block(files[k - 1], OffsetBefore(files, k - 1))
  }

  /** The blocks of the first `k` polls, each behind what its poll passed over. */
  function Woven(files: seq<Text>, k: nat): Text
    requires k <= |files|
  {
    if k == 0 then []
    else Woven(files, k - 1) + (Gap(files, k - 1) + Block(files[k - 1], OffsetBefore(files, k - 1)))
  }

  lemma PollParts(files: seq<Text>, k: nat)
    requires AppendOnly(files) && k < |files|
    ensures var o, from, to := OffsetBefore(files, k), From(files, k), OffsetBefore(files, k + 1);
      && o <= from <= to <= |files[k]|
      && Gap(files, k) == files[k][o..from] && Block(files[k], o) == files[k][from..to]
      && Unlines(Lines(Block(files[k], o))) == Block(files[k], o)
  {
    hide KeptFrom, KeptTo;
    OffsetsStayBoundaries(files, k);
    BlockRoundTrip(files[k], From(files, k), OffsetBefore(files, k + 1));
  }

  lemma {:induction false} ShownIsBlocks(files: seq<Text>, k: nat)
    requires AppendOnly(files) && k <= |files|
    ensures Unlines(Shown(files, k)) == Blocks(files, k)
  {
    hide KeptFrom, KeptTo, Lines, Block, OffsetBefore, AppendOnly, ShortLines;
    if k > 0 {
      var block := Block(files[k - 1], OffsetBefore(files, k - 1));
      PollParts(files, k - 1);
      ShownIsBlocks(files, k - 1);
      JoinLines(Shown(files, k - 1), Blocks(files, k - 1), Lines(block), block);
    }
  }

  lemma JoinLines(a: seq<Text>, x: Text, b: seq<Text>, y: Text)
    requires Unlines(a) == x && Unlines(b) == y
    ensures Unlines(a + b) == x + y
  {
    UnlinesAppend(a, b);
  }

  lemma WovenTurn(files: seq<Text>, k: nat)
    requires AppendOnly(files) && 0 < k <= |files|
    ensures OffsetBefore(files, k - 1) <= OffsetBefore(files, k) <= |files[k - 1]|
    ensures Woven(files, k)
      == Woven(files, k - 1) + files[k - 1][OffsetBefore(files, k - 1)..OffsetBefore(files, k)]
    ensures Woven(files, 0) == []
  {
    hide KeptFrom, KeptTo, Lines, Unlines, Block, Gap, From, OffsetBefore, AppendOnly;
    PollParts(files, k - 1);
    SlicesJoin(files[k - 1], OffsetBefore(files, k - 1), From(files, k - 1), OffsetBefore(files, k));
  }

  lemma SlicesJoin(file: Text, o: nat, from: nat, to: nat)
    requires o <= from <= to <= |file|
    ensures file[o..from] + file[from..to] == file[o..to]
  {
  }

  lemma {:induction false} WovenIsPrefix(files: seq<Text>, k: nat)
    requires AppendOnly(files) && 0 < k <= |files|
    ensures OffsetBefore(files, k) <= |files[k - 1]| && Woven(files, k) == files[k - 1][..OffsetBefore(files, k)]
  {
    hide KeptFrom, KeptTo, Lines, Block, Gap, From, ShortLines;
    var file, o, to := files[k - 1], OffsetBefore(files, k - 1), OffsetBefore(files, k);
    WovenTurn(files, k);
    hide Woven;
    if k == 1 {
      assert Woven(files, 0) == [] && o == 0;
    } else {
      WovenIsPrefix(files, k - 1);
      ExtendPrefix(files[k - 2], file, o, to);
    }
  }

  /** Any run over an append-only log of short lines shows the complete lines of the last
      snapshot, in order and once each, except for one contiguous run of whole lines per capped
      poll. */
  lemma RunShowsAllButTheGaps(files: seq<Text>)
    requires AppendOnly(files) && |files| > 0
    ensures var n := |files|;
      var file, offset := files[n - 1], OffsetBefore(files, n);
      && Unlines(Shown(files, n)) == Blocks(files, n)
      && offset <= |file| && Woven(files, n) == file[..offset] && NoNewline(file, offset, |file|)
      && forall k :: 0 <= k < n ==>
           WholeLines(Gap(files, k)) && (!Capped(files[k], OffsetBefore(files, k)) ==> Gap(files, k) == [])
  {
    hide KeptFrom, KeptTo, Lines, Unlines, Block, Blocks, Shown, Woven, ShortLines;
    ShownIsBlocks(files, |files|);
    WovenIsPrefix(files, |files|);
    KeptToFacts(files[|files| - 1], OffsetBefore(files, |files| - 1));
    forall k | 0 <= k < |files|
      ensures WholeLines(Gap(files, k)) && (!Capped(files[k], OffsetBefore(files, k)) ==> Gap(files, k) == [])
    {
      OffsetsStayBoundaries(files, k);
    }
  }

  lemma {:induction false} NoGaps(files: seq<Text>, k: nat)
    requires k <= |files| && forall i :: 0 <= i < k ==> Gap(files, i) == []
    ensures Woven(files, k) == Blocks(files, k)
  {
    hide Gap, Block, OffsetBefore;
    if k > 0 {
      NoGaps(files, k - 1);
    }
  }

  /** While no poll is capped the viewer has seen every complete line of the log, exactly once. */
  lemma UncappedRunLosesNothing(files: seq<Text>)
    requires AppendOnly(files) && |files| > 0
    requires forall i :: 0 <= i < |files| ==> !Capped(files[i], OffsetBefore(files, i))
    ensures OffsetBefore(files, |files|) <= |files[|files| - 1]|
    ensures Unlines(Shown(files, |files|)) == files[|files| - 1][..OffsetBefore(files, |files|)]
    ensures NoNewline(files[|files| - 1], OffsetBefore(files, |files|), |files[|files| - 1]|)
  {
    hide Gap, Block, OffsetBefore, Capped, Woven, Blocks, Shown, Unlines, AppendOnly;
    RunShowsAllButTheGaps(files);
    NoGaps(files, |files|);
  }
}
