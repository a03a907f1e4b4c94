/** Waiting until the pieces under a file range are complete. */
module Pieces {
  import opened Wrappers
  import opened Manifest

  const COMPLETE: int := 2

  /** One answer of the engine: the piece states and the piece size it reports. */
  datatype Poll = Engine(states: seq<int>, pieceSize: int) | EngineFailed

  datatype Wait = Ready | OutsideFile | PollFailed | NoPieceSize | TimedOut

  /** The engine's piece size, or the download row's when the engine reports none. */
  function SizeUsed(poll: Poll, rowPieceSize: int): int
    requires poll.Engine?
  {
    if poll.pieceSize <= 0 then rowPieceSize else poll.pieceSize
  }

  /** Byte `t` of the torrent lies in a completed piece. */
  predicate ByteReady(poll: Poll, rowPieceSize: int, t: nat) {
    poll.Engine? && SizeUsed(poll, rowPieceSize) > 0 &&
    var piece := t / SizeUsed(poll, rowPieceSize);
    piece < |poll.states| && poll.states[piece] == COMPLETE
  }

  /** Every byte of the half-open range lies in a completed piece. */
  ghost predicate RangeReady(poll: Poll, rowPieceSize: int, from: nat, to: nat) {
    forall t :: from <= t < to ==> ByteReady(poll, rowPieceSize, t)
  }

  /** The piece under byte `t`, by the engine's piece size or else the row's, is in state 2. */
  predicate PieceComplete(poll: Poll, rowPieceSize: int, t: int) {
    && poll.Engine? && (poll.pieceSize > 0 || rowPieceSize > 0)
    && var piece := t / (if poll.pieceSize > 0 then poll.pieceSize else rowPieceSize);
    0 <= piece < |poll.states| && poll.states[piece] == 2
  }

  /** What the readiness of a range comes down to. */
  lemma RangeMeans(poll: Poll, rowPieceSize: int, from: nat, to: nat)
    ensures RangeReady(poll, rowPieceSize, from, to)
      <==> forall t :: from <= t < to ==> PieceComplete(poll, rowPieceSize, t)
  {
    forall t | from <= t < to ensures ByteReady(poll, rowPieceSize, t) <==> PieceComplete(poll, rowPieceSize, t) {
    }
    hide ByteReady, PieceComplete;
  }

  lemma DivisionIsMonotone(a: nat, b: nat, d: nat)
    requires a <= b && d > 0
    ensures a / d <= b / d
  {
    var x, y := a / d, b / d;
    assert a == x * d + a % d;
    assert b == y * d + b % d;
    if x > y {
      ProductIsMonotone(y + 1, x, d);
    }
  }

  lemma Quotient(t: nat, size: nat, q: nat)
    requires size > 0 && q * size <= t < q * size + size
    ensures t / size == q
  {
    var d := t / size;
    assert t == d * size + t % size;
    if d < q {
      ProductIsMonotone(d + 1, q, size);
    } else if d > q {
      ProductIsMonotone(q + 1, d, size);
    }
  }

  lemma ProductIsMonotone(a: nat, b: nat, size: nat)
    requires a <= b
    ensures a * size <= b * size
  {
  }

  /** Each piece between the first and the last one holds a byte of the range. */
  lemma PieceHasByte(from: nat, to: nat, size: nat, piece: nat) returns (t: nat)
    requires from < to && size > 0 && from / size <= piece <= (to - 1) / size
    ensures from <= t < to && t / size == piece
  {
    if piece == from / size {
      t := from;
    } else {
      t := piece * size;
      Quotient(t, size, piece);
      ProductIsMonotone(piece, (to - 1) / size, size);
      ProductIsMonotone(from / size + 1, piece, size);
      assert from == (from / size) * size + from % size;
      assert to - 1 == ((to - 1) / size) * size + (to - 1) % size;
    }
  }

  /** The pieces from the one under the first byte to the one under the last are complete. */
  predicate PiecesReady(poll: Poll, size: nat, from: nat, to: nat)
    requires poll.Engine? && size > 0 && from < to
  {
    (to - 1) / size < |poll.states| &&
    forall i :: from / size <= i <= (to - 1) / size ==> poll.states[i] == COMPLETE
  }

  lemma PiecesThenRange(poll: Poll, rowPieceSize: int, from: nat, to: nat, t: nat)
    requires poll.Engine? && SizeUsed(poll, rowPieceSize) > 0 && from <= t < to
    requires PiecesReady(poll, SizeUsed(poll, rowPieceSize), from, to)
    ensures ByteReady(poll, rowPieceSize, t)
  {
    var size := SizeUsed(poll, rowPieceSize);
    DivisionIsMonotone(from, t, size);
    DivisionIsMonotone(t, to - 1, size);
  }

  lemma RangeThenPieces(poll: Poll, rowPieceSize: int, from: nat, to: nat, i: nat)
    requires poll.Engine? && SizeUsed(poll, rowPieceSize) > 0 && from < to
    requires RangeReady(poll, rowPieceSize, from, to)
    requires from / SizeUsed(poll, rowPieceSize) <= i <= (to - 1) / SizeUsed(poll, rowPieceSize)
    ensures i < |poll.states| && poll.states[i] == COMPLETE
  {
    var t := PieceHasByte(from, to, SizeUsed(poll, rowPieceSize), i);
    hide SizeUsed;
    assert ByteReady(poll, rowPieceSize, t);
  }

  /** The division arithmetic is exact: the pieces are complete iff every byte is. */
  lemma PiecesCoverRange(poll: Poll, rowPieceSize: int, from: nat, to: nat)
    requires poll.Engine? && SizeUsed(poll, rowPieceSize) > 0 && from < to
    ensures PiecesReady(poll, SizeUsed(poll, rowPieceSize), from, to) <==> RangeReady(poll, rowPieceSize, from, to)
  {
    hide ByteReady, SizeUsed;
    var size := SizeUsed(poll, rowPieceSize);
    DivisionIsMonotone(from, to - 1, size);
    if PiecesReady(poll, size, from, to) {
      hide PiecesReady;
      forall t | from <= t < to ensures ByteReady(poll, rowPieceSize, t) {
        PiecesThenRange(poll, rowPieceSize, from, to, t);
      }
    }
    if RangeReady(poll, rowPieceSize, from, to) {
      hide RangeReady;
      var first, last := from / size, (to - 1) / size;
      forall i | first <= i <= last ensures i < |poll.states| && poll.states[i] == COMPLETE {
        RangeThenPieces(poll, rowPieceSize, from, to, i);
      }
      RangeThenPieces(poll, rowPieceSize, from, to, last);
    }
  }

  /** The readiness check of one poll. */
  method CheckPieces(poll: Poll, rowPieceSize: int, from: nat, to: nat) returns (ready: bool)
    requires poll.Engine? && SizeUsed(poll, rowPieceSize) > 0 && from < to
    ensures ready <==> RangeReady(poll, rowPieceSize, from, to)
    ensures ready <==> forall t :: from <= t < to ==> PieceComplete(poll, rowPieceSize, t)
  {
    RangeMeans(poll, rowPieceSize, from, to);
    hide RangeReady, PiecesReady, PieceComplete;
    PiecesCoverRange(poll, rowPieceSize, from, to);
    ready := ScanPieces(poll, SizeUsed(poll, rowPieceSize), from, to);
  }

  method ScanPieces(poll: Poll, pieceSize: nat, from: nat, to: nat) returns (ready: bool)
    requires poll.Engine? && pieceSize > 0 && from < to
    ensures ready <==> PiecesReady(poll, pieceSize, from, to)
  {
    DivisionIsMonotone(from, to - 1, pieceSize);
    var first, last := from / pieceSize, (to - 1) / pieceSize;
    ready := first >= 0 && last < |poll.states|;
    if ready {
      for i := first to last + 1
        invariant forall k :: first <= k < i ==> poll.states[k] == COMPLETE
      {
        if poll.states[i] != COMPLETE {
          return false;
        }
      }
    }
  }

  /** A poll that ends the wait, one way or the other. */
  ghost predicate Decides(poll: Poll, rowPieceSize: int, from: nat, to: nat) {
    poll.EngineFailed? || SizeUsed(poll, rowPieceSize) <= 0 || RangeReady(poll, rowPieceSize, from, to)
  }

  /** WaitRange over the polls made before the deadline or the caller's cancellation: the
      outcome is that of the first deciding poll. */
  method WaitRange(polls: seq<Poll>, rowPieceSize: int, fileOffset: nat, start: nat, count: nat)
    returns (r: Wait, at: nat)
    requires count > 0
    ensures at <= |polls| && (r == TimedOut <==> at == |polls|) && r != OutsideFile
    ensures forall k :: 0 <= k < at ==> !Decides(polls[k], rowPieceSize, fileOffset + start, fileOffset + start + count)
    ensures at < |polls| ==> Decides(polls[at], rowPieceSize, fileOffset + start, fileOffset + start + count)
    ensures r == Ready <==>
      at < |polls| && RangeReady(polls[at], rowPieceSize, fileOffset + start, fileOffset + start + count)
    ensures r == PollFailed <==> at < |polls| && polls[at].EngineFailed?
    ensures r == NoPieceSize <==> at < |polls| && polls[at].Engine? && polls[at].pieceSize <= 0 && rowPieceSize <= 0
  {
    var from, to := fileOffset + start, fileOffset + start + count;
    at := 0;
    while at < |polls|
      invariant at <= |polls|
      invariant forall k :: 0 <= k < at ==> !Decides(polls[k], rowPieceSize, from, to)
    {
      assert RangeReady(polls[at], rowPieceSize, from, to) ==> ByteReady(polls[at], rowPieceSize, from);
      if polls[at].EngineFailed? {
        return PollFailed, at;
      }
      if SizeUsed(polls[at], rowPieceSize) <= 0 {
        return NoPieceSize, at;
      }
      var ready := CheckPieces(polls[at], rowPieceSize, from, to);
      if ready {
        return Ready, at;
      }
      at := at + 1;
    }
    return TimedOut, at;
  }

  /** The range guard in front of the wait. For a file of a tiling manifest
      success means that every requested byte of that very file is complete, and a poll at
      which they all are is never missed. */
  method WaitReadable(files: seq<File>, which: nat, polls: seq<Poll>, rowPieceSize: int, start: int, count: int)
    returns (r: Wait, at: nat)
    requires Tiles(files) && which < |files|
    ensures r == OutsideFile <==> count <= 0 || start < 0 || start + count > files[which].size
    ensures r == Ready ==>
      && at < |polls|
      && forall t :: files[which].offset + start <= t < files[which].offset + start + count ==>
           Covers(files[which], t) && ByteReady(polls[at], rowPieceSize, t)
    ensures r == TimedOut ==> forall k :: 0 <= k < |polls| ==>
      !RangeReady(polls[k], rowPieceSize, files[which].offset + start, files[which].offset + start + count)
    ensures r != OutsideFile && r != Ready ==> forall k :: 0 <= k <= at && k < |polls| ==>
      !RangeReady(polls[k], rowPieceSize, files[which].offset + start, files[which].offset + start + count)
  {
    if count <= 0 || start < 0 || start + count > files[which].size {
      return OutsideFile, 0;
    }
    r, at := WaitRange(polls, rowPieceSize, files[which].offset, start, count);
  }

  // ----- opening the completed range -----

  /** One attempt to read the last byte asked for: the paths at which it can be read, and the
      engine's current path if it answers. */
  datatype Attempt = Attempt(readable: set<string>, current: Option<string>)

  /** The path tried at attempt `k`: the engine's latest answer before it. */
  function PathAt(first: string, attempts: seq<Attempt>, k: nat): string
    requires k <= |attempts|
  {
    if k == 0 then first
    else if attempts[k - 1].current.Some? then attempts[k - 1].current.value
    else PathAt(first, attempts, k - 1)
  }

  /** The closing loop of waitReadablePath over the attempts made before its deadline. */
  method OpenReadable(first: string, attempts: seq<Attempt>) returns (path: Option<string>, at: nat)
    ensures at <= |attempts| && (path.Some? <==> at < |attempts|)
    ensures path.Some? ==> path.value == PathAt(first, attempts, at) && path.value in attempts[at].readable
    ensures path.Some? ==>
      || (path.value == first && forall k :: 0 <= k < at ==> attempts[k].current.None?)
      || exists k :: 0 <= k < at && attempts[k].current == path
                     && (forall j :: k < j < at ==> attempts[j].current.None?)
    ensures forall k :: 0 <= k < at ==> PathAt(first, attempts, k) !in attempts[k].readable
  {
    var current := first;
    at := 0;
    while at < |attempts|
      invariant at <= |attempts| && current == PathAt(first, attempts, at)
      invariant forall k :: 0 <= k < at ==> PathAt(first, attempts, k) !in attempts[k].readable
      invariant
        || (current == first && forall k :: 0 <= k < at ==> attempts[k].current.None?)
        || exists k :: 0 <= k < at && attempts[k].current == Some(current)
                       && (forall j :: k < j < at ==> attempts[j].current.None?)
    {
      if current in attempts[at].readable {
        return Some(current), at;
      }
      if attempts[at].current.Some? {
        current := attempts[at].current.value;
      }
      at := at + 1;
    }
    path := None;
  }

  datatype Reply = Path(path: string) | Outside | NotPrepared | NotComplete(wait: Wait) | NotReadable

  /** waitReadablePath: `prepared` is the path the engine gave when the range was asked for, if
      all of that succeeded. A path is handed out only when every requested byte of that very
      file is complete and the last one could be read there. */
  method WaitReadablePath(files: seq<File>, which: nat, prepared: Option<string>, polls: seq<Poll>, rowPieceSize: int,
      attempts: seq<Attempt>, start: int, count: int)
    returns (r: Reply, poll: nat, attempt: nat)
    requires Tiles(files) && which < |files|
    ensures r == Outside <==> count <= 0 || start < 0 || start + count > files[which].size
    ensures r == NotPrepared <==> r != Outside && prepared.None?
    ensures r.Path? ==>
      && prepared.Some? && poll < |polls| && attempt < |attempts|
      && (forall t :: files[which].offset + start <= t < files[which].offset + start + count ==>
            Covers(files[which], t) && ByteReady(polls[poll], rowPieceSize, t))
      && r.path == PathAt(prepared.value, attempts, attempt) && r.path in attempts[attempt].readable
    ensures r.Path? ==> forall t :: files[which].offset + start <= t < files[which].offset + start + count ==>
      PieceComplete(polls[poll], rowPieceSize, t)
    ensures r.NotComplete? ==> forall k :: 0 <= k <= poll && k < |polls| ==>
      !RangeReady(polls[k], rowPieceSize, files[which].offset + start, files[which].offset + start + count)
    ensures r == NotReadable ==> prepared.Some?
    ensures r == NotReadable ==>
      forall k :: 0 <= k < |attempts| ==> PathAt(prepared.value, attempts, k) !in attempts[k].readable
  {
    poll, attempt := 0, 0;
    if count <= 0 || start < 0 || start + count > files[which].size {
      return Outside, poll, attempt;
    }
    if prepared.None? {
      return NotPrepared, poll, attempt;
    }
    var wait, at := WaitReadable(files, which, polls, rowPieceSize, start, count);
    poll := at;
    if wait != Ready {
      return NotComplete(wait), poll, attempt;
    }
    var path, a := OpenReadable(prepared.value, attempts);
    attempt := a;
    if path.None? {
      return NotReadable, poll, attempt;
    }
    RangeMeans(polls[poll], rowPieceSize, files[which].offset + start, files[which].offset + start + count);
    return Path(path.value), poll, attempt;
  }
}
