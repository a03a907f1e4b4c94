/** The bencode reader (BEP 3, section "bencoding"): a recursive reader over positions, an
    encoder as its independent reference, and the round trip between them. */
module Bencode {
  import opened Wrappers
  import opened Bytes

  const CHAR_E: Byte := 101
  const CHAR_I: Byte := 105
  const CHAR_L: Byte := 108
  const CHAR_D: Byte := 100
  const COLON: Byte := 58
  const PLUS: Byte := 43
  const MINUS: Byte := 45

  const TWO_TO_THE_63: int := 0x8000_0000_0000_0000

  /** What the reader builds. Integers are kept as their digits, like strings. */
  datatype Node = Leaf(value: Text) | List(items: seq<Node>) | Dict(entries: map<Text, Node>)

  /** A reading, an error, or a slice out of bounds, which aborts a Go program. */
  datatype Parse<+T> = Ok(value: T, next: nat) | Fail | Panic {
    /** What a caller passes on when it got no reading. */
    function Without<U>(): Parse<U>
      requires !Ok?
    {
      if Panic? then Panic else Fail
    }
  }

  // ----- decimal numbers as strconv reads them -----

  predicate IsDigit(b: Byte) {
    48 <= b <= 57
  }

  function DigitOf(b: Byte): nat
    requires IsDigit(b)
  {
    var code: int := b;
    code - 48
  }

  function DigitsValue(t: Text): nat
    requires forall k :: 0 <= k < |t| ==> IsDigit(t[k])
  {
    if t == [] then 0 else DigitsValue(t[..|t| - 1]) * 10 + DigitOf(t[|t| - 1])
  }

  predicate AllDigits(t: Text) {
    |t| > 0 && forall k :: 0 <= k < |t| ==> IsDigit(t[k])
  }

  /** strconv.Atoi and ParseInt(_, 10, 64): an optional sign, digits, a 64-bit range. */
  function Atoi(t: Text): Option<int> {
    var signed := |t| > 0 && (t[0] == PLUS || t[0] == MINUS);
    var digits := if signed then t[1..] else t;
    if !AllDigits(digits) then None
    else
      var n: int := if signed && t[0] == MINUS then 0 - DigitsValue(digits) else DigitsValue(digits);
      if -TWO_TO_THE_63 <= n < TWO_TO_THE_63 then Some(n) else None
  }

  // ----- the reader -----

  function ValueOf(n: Node): Text {
    if n.Leaf? then n.value else []
  }

  /** First colon at or after `pos`, or the end of the data. */
  function ColonFrom(data: Text, pos: nat): (colon: nat)
    requires pos <= |data|
    ensures pos <= colon <= |data|
    ensures colon < |data| ==> data[colon] == COLON
    ensures forall k :: pos <= k < colon ==> data[k] != COLON
    decreases |data| - pos
  {
    if pos < |data| && data[pos] != COLON then ColonFrom(data, pos + 1) else pos
  }

  function ReadInteger(data: Text, pos: nat): (r: Parse<Node>)
    requires pos < |data|
    ensures r.Ok? ==> pos < r.next <= |data|
  {
    var i := IndexByte(data[pos + 1..], CHAR_E);
    if i < 0 then Fail else Ok(Leaf(data[pos + 1..pos + 1 + i]), pos + i + 2)
  }

  /** The sum of two 64-bit integers that are not negative. */
  function Wrapped(n: int): int {
    if n < TWO_TO_THE_63 then n else n - 2 * TWO_TO_THE_63
  }

  /** The `length` bytes behind the colon. */
  function ReadCounted(data: Text, colon: nat, length: Option<int>): (r: Parse<Node>)
    requires colon < |data|
    ensures r.Ok? ==> colon < r.next <= |data|
  {
    if length.None? || length.value < 0 then Fail
    else
      var end := Wrapped(colon + 1 + length.value);
      if end > |data| then Fail
      else if end < colon + 1 then Panic
      else Ok(Leaf(data[colon + 1..end]), end)
  }

  function ReadString(data: Text, pos: nat): (r: Parse<Node>)
    requires pos < |data|
    ensures r.Ok? ==> pos < r.next <= |data|
  {
    var colon := ColonFrom(data, pos);
    if colon >= |data| then Fail else ReadCounted(data, colon, Atoi(data[pos..colon]))
  }

  function Read(data: Text, pos: int): (r: Parse<Node>)
    ensures r.Ok? ==> 0 <= pos < r.next <= |data|
    decreases |data| - pos, 0
  {
    if pos < 0 || pos >= |data| then Fail
    else if data[pos] == CHAR_I then ReadInteger(data, pos)
    else if data[pos] == CHAR_L then ReadItems(data, pos + 1, [])
    else if data[pos] == CHAR_D then ReadEntries(data, pos + 1, map[])
    else ReadString(data, pos)
  }

  function ReadItems(data: Text, pos: nat, items: seq<Node>): (r: Parse<Node>)
    requires pos <= |data|
    ensures r.Ok? ==> pos < r.next <= |data|
    decreases |data| - pos, 1
  {
    if pos >= |data| then Fail
    else if data[pos] == CHAR_E then Ok(List(items), pos + 1)
    else
      var child := Read(data, pos);
      if !child.Ok? then child.Without() else ReadItems(data, child.next, items + [child.value])
  }

  /** One key and its value. */
  function ReadEntry(data: Text, pos: nat): (r: Parse<(Text, Node)>)
    requires pos < |data|
    ensures r.Ok? ==> pos < r.next <= |data|
    decreases |data| - pos, 1
  {
    var key := Read(data, pos);
    if !key.Ok? then key.Without()
    else
      var value := Read(data, key.next);
      if !value.Ok? then value.Without() else Ok((ValueOf(key.value), value.value), value.next)
  }

  /** A later entry with the same key replaces the earlier one. */
  function ReadEntries(data: Text, pos: nat, entries: map<Text, Node>): (r: Parse<Node>)
    requires pos <= |data|
    ensures r.Ok? ==> pos < r.next <= |data|
    decreases |data| - pos, 2
  {
    if pos >= |data| then Fail
    else if data[pos] == CHAR_E then Ok(Dict(entries), pos + 1)
    else
      var entry := ReadEntry(data, pos);
      if !entry.Ok? then entry.Without()
      else ReadEntries(data, entry.next, entries[entry.value.0 := entry.value.1])
  }

  /** readBNode as the code runs it: recursion for a child, loops over positions for the
      elements of a list or dictionary. */
  method ReadBNode(data: Text, start: int) returns (r: Parse<Node>)
    ensures r == Read(data, start)
    decreases |data| - start
  {
    var pos := start;
    if pos < 0 || pos >= |data| {
      return Fail;
    }
    if data[pos] == CHAR_I {
      var end := IndexByte(data[pos + 1..], CHAR_E);
      if end < 0 {
        return Fail;
      }
      end := end + pos + 1;
      return Ok(Leaf(data[pos + 1..end]), end + 1);
    }
    if data[pos] == CHAR_L {
      r := ReadBList(data, pos);
      return;
    }
    if data[pos] == CHAR_D {
      r := ReadBDict(data, pos);
      return;
    }
    r := ReadBString(data, pos);
  }

  method ReadBString(data: Text, pos: nat) returns (r: Parse<Node>)
    requires pos < |data|
    ensures r == ReadString(data, pos)
    decreases |data| - pos, 0
  {
    var colon := pos;
    while colon < |data| && data[colon] != COLON
      invariant pos <= colon <= |data| && ColonFrom(data, pos) == ColonFrom(data, colon)
    {
      colon := colon + 1;
    }
    if colon >= |data| {
      return Fail;
    }
    var length := Atoi(data[pos..colon]);
    if length.None? || length.value < 0 || Wrapped(colon + 1 + length.value) > |data| {
      return Fail;
    }
    var end := Wrapped(colon + 1 + length.value);
    return if end < colon + 1 then Panic else Ok(Leaf(data[colon + 1..end]), end);
  }

  method ReadBList(data: Text, start: nat) returns (r: Parse<Node>)
    requires start < |data| && data[start] == CHAR_L
    ensures r == ReadItems(data, start + 1, [])
    decreases |data| - start, 0
  {
    var items: seq<Node> := [];
    var pos := start + 1;
    while pos < |data| && data[pos] != CHAR_E
      invariant start < pos <= |data| && ReadItems(data, start + 1, []) == ReadItems(data, pos, items)
      decreases |data| - pos
    {
      var child := ReadBNode(data, pos);
      if !child.Ok? {
        return child;
      }
      items := items + [child.value];
      pos := child.next;
    }
    return if pos >= |data| then Fail else Ok(List(items), pos + 1);
  }

  method ReadBDict(data: Text, start: nat) returns (r: Parse<Node>)
    requires start < |data| && data[start] == CHAR_D
    ensures r == ReadEntries(data, start + 1, map[])
    decreases |data| - start, 0
  {
    var entries: map<Text, Node> := map[];
    var pos := start + 1;
    while pos < |data| && data[pos] != CHAR_E
      invariant start < pos <= |data| && ReadEntries(data, start + 1, map[]) == ReadEntries(data, pos, entries)
      decreases |data| - pos
    {
      var key := ReadBNode(data, pos);
      if !key.Ok? {
        return key;
      }
      var value := ReadBNode(data, key.next);
      if !value.Ok? {
        return value;
      }
      entries := entries[ValueOf(key.value) := value.value];
      pos := value.next;
    }
    return if pos >= |data| then Fail else Ok(Dict(entries), pos + 1);
  }

  // ----- locality: the reader depends on the bytes it consumes and on nothing else -----

  /** The bytes from `p` to `e` in `a` stand `d` places further along in `b`, which is no longer
      than a Go slice can be. */
  ghost predicate Same(a: Text, b: Text, d: int, p: nat, e: nat) {
    && p <= e <= |a| && 0 <= p + d && e + d <= |b| < TWO_TO_THE_63
    && forall k :: p <= k < e ==> b[k + d] == a[k]
  }

  /** Any part of what stands elsewhere stands there too. */
  lemma SamePart(a: Text, b: Text, d: int, p: nat, q: nat, r: nat, e: nat)
    requires Same(a, b, d, p, e) && p <= q <= r <= e
    ensures Same(a, b, d, q, r)
  {
  }

  lemma SameByte(a: Text, b: Text, d: int, p: nat, e: nat)
    requires Same(a, b, d, p, e) && p < e
    ensures 0 <= p + d < |b| && p < |a| && a[p] == b[p + d]
  {
  }

  lemma SameSlice(a: Text, b: Text, d: int, p: nat, e: nat)
    requires Same(a, b, d, p, e)
    ensures b[p + d..e + d] == a[p..e]
  {
    forall i | 0 <= i < e - p ensures b[p + d..e + d][i] == a[p..e][i] {
      assert a[p..e][i] == a[p + i];
    }
  }

  lemma ColonIs(data: Text, pos: nat, colon: nat)
    requires pos <= colon < |data| && data[colon] == COLON
    requires forall k :: pos <= k < colon ==> data[k] != COLON
    ensures ColonFrom(data, pos) == colon
    decreases colon - pos
  {
  }

  lemma IndexIs(data: Text, c: Byte, i: nat)
    requires i < |data| && data[i] == c
    requires forall k :: 0 <= k < i ==> data[k] != c
    ensures IndexByte(data, c) == i
  {
  }

  lemma IntegerIsLocal(a: Text, b: Text, d: int, p: nat)
    requires p < |a| && ReadInteger(a, p).Ok? && Same(a, b, d, p, ReadInteger(a, p).next)
    ensures ReadInteger(b, p + d) == Ok(ReadInteger(a, p).value, ReadInteger(a, p).next + d)
  {
    var i := IndexByte(a[p + 1..], CHAR_E);
    var rest := b[p + d + 1..];
    assert a[p + 1 + i] == CHAR_E;
    forall k | 0 <= k < i ensures rest[k] != CHAR_E {
      assert a[p + 1..][k] == a[p + 1 + k] == b[p + 1 + k + d];
    }
    IndexIs(rest, CHAR_E, i);
    SameSlice(a, b, d, p + 1, p + 1 + i);
  }

  lemma ColonIsLocal(a: Text, b: Text, d: int, p: nat)
    requires p <= |a| && ColonFrom(a, p) < |a| && Same(a, b, d, p, ColonFrom(a, p) + 1)
    ensures ColonFrom(b, p + d) == ColonFrom(a, p) + d
  {
    var colon := ColonFrom(a, p);
    assert a[colon] == b[colon + d];
    forall k | p + d <= k < colon + d ensures b[k] != COLON {
      assert a[k - d] == b[k - d + d];
    }
    ColonIs(b, p + d, colon + d);
  }

  lemma CountedIsLocal(a: Text, b: Text, d: int, colon: nat, length: Option<int>)
    requires colon < |a| && ReadCounted(a, colon, length).Ok? && length.value < TWO_TO_THE_63
    requires Same(a, b, d, colon, ReadCounted(a, colon, length).next)
    ensures ReadCounted(b, colon + d, length)
      == Ok(ReadCounted(a, colon, length).value, ReadCounted(a, colon, length).next + d)
  {
    SameSlice(a, b, d, colon + 1, ReadCounted(a, colon, length).next);
  }

  lemma StringLength(data: Text, pos: nat)
    requires pos < |data| && ReadString(data, pos).Ok?
    ensures var colon := ColonFrom(data, pos);
      && colon < |data| && colon < ReadString(data, pos).next
      && Atoi(data[pos..colon]).Some? && Atoi(data[pos..colon]).value < TWO_TO_THE_63
  {
  }

  lemma StringIsLocal(a: Text, b: Text, d: int, p: nat)
    requires p < |a| && ReadString(a, p).Ok? && Same(a, b, d, p, ReadString(a, p).next)
    ensures ReadString(b, p + d) == Ok(ReadString(a, p).value, ReadString(a, p).next + d)
  {
    hide Same, Atoi, ReadCounted;
    var colon, end := ColonFrom(a, p), ReadString(a, p).next;
    StringLength(a, p);
    SamePart(a, b, d, p, p, colon + 1, end);
    SamePart(a, b, d, p, p, colon, end);
    SamePart(a, b, d, p, colon, end, end);
    ColonIsLocal(a, b, d, p);
    SameSlice(a, b, d, p, colon);
    CountedIsLocal(a, b, d, colon, Atoi(a[p..colon]));
  }

  /** Whatever the reader accepts, it accepts with the same result wherever the consumed
      bytes stand and whatever surrounds them. */
  lemma {:induction false} ReadIsLocal(a: Text, b: Text, d: int, p: nat)
    requires Read(a, p).Ok? && Same(a, b, d, p, Read(a, p).next)
    ensures Read(b, p + d) == Ok(Read(a, p).value, Read(a, p).next + d)
    decreases |a| - p, 0
  {
    hide Same, ReadInteger, ReadString, ReadItems, ReadEntries;
    var end := Read(a, p).next;
    SameByte(a, b, d, p, end);
    SamePart(a, b, d, p, p + 1, end, end);
    if a[p] == CHAR_L {
      ItemsAreLocal(a, b, d, p + 1, []);
    } else if a[p] == CHAR_D {
      EntriesAreLocal(a, b, d, p + 1, map[]);
    } else if a[p] == CHAR_I {
      IntegerIsLocal(a, b, d, p);
    } else {
      StringIsLocal(a, b, d, p);
    }
  }

  lemma {:induction false} ItemsAreLocal(a: Text, b: Text, d: int, p: nat, items: seq<Node>)
    requires p <= |a| && ReadItems(a, p, items).Ok? && Same(a, b, d, p, ReadItems(a, p, items).next)
    ensures ReadItems(b, p + d, items) == Ok(ReadItems(a, p, items).value, ReadItems(a, p, items).next + d)
    decreases |a| - p, 1
  {
    hide Same, Read;
    var end := ReadItems(a, p, items).next;
    SameByte(a, b, d, p, end);
    if a[p] != CHAR_E {
      var child := Read(a, p);
      SamePart(a, b, d, p, p, child.next, end);
      SamePart(a, b, d, p, child.next, end, end);
      ReadIsLocal(a, b, d, p);
      ItemsAreLocal(a, b, d, child.next, items + [child.value]);
    }
  }

  lemma {:induction false} EntryIsLocal(a: Text, b: Text, d: int, p: nat)
    requires p < |a| && ReadEntry(a, p).Ok? && Same(a, b, d, p, ReadEntry(a, p).next)
    ensures ReadEntry(b, p + d) == Ok(ReadEntry(a, p).value, ReadEntry(a, p).next + d)
    decreases |a| - p, 1
  {
    hide Same, Read;
    var mid, end := Read(a, p).next, ReadEntry(a, p).next;
    SamePart(a, b, d, p, p, mid, end);
    SamePart(a, b, d, p, mid, end, end);
    ReadIsLocal(a, b, d, p);
    ReadIsLocal(a, b, d, mid);
  }

  lemma EntriesTurn(data: Text, pos: nat, before: map<Text, Node>, key: Text, value: Node, next: nat)
    requires pos < |data| && data[pos] != CHAR_E && ReadEntry(data, pos) == Ok((key, value), next)
    ensures ReadEntries(data, pos, before) == ReadEntries(data, next, before[key := value])
  {
  }

  lemma {:induction false} EntriesAreLocal(a: Text, b: Text, d: int, p: nat, entries: map<Text, Node>)
    requires p <= |a| && ReadEntries(a, p, entries).Ok? && Same(a, b, d, p, ReadEntries(a, p, entries).next)
    ensures ReadEntries(b, p + d, entries) == Ok(ReadEntries(a, p, entries).value, ReadEntries(a, p, entries).next + d)
    decreases |a| - p, 2
  {
    hide Same, Read, ReadEntry;
    var end := ReadEntries(a, p, entries).next;
    SameByte(a, b, d, p, end);
    if a[p] != CHAR_E {
      var entry := ReadEntry(a, p);
      SamePart(a, b, d, p, p, entry.next, end);
      SamePart(a, b, d, p, entry.next, end, end);
      var (key, value) := entry.value;
      EntriesTurn(a, p, entries, key, value, entry.next);
      EntryIsLocal(a, b, d, p);
      EntriesTurn(b, p + d, entries, key, value, entry.next + d);
      EntriesAreLocal(a, b, d, entry.next, entries[key := value]);
    }
  }
}
