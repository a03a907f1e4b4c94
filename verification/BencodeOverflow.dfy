/** When the bencode reader panics: a string whose end does not fit in a 64-bit integer. */
module BencodeOverflow {
  import opened Wrappers
  import opened Bytes
  import opened Bencode
  import opened BencodeRoundTrip

  /** A length at `pos` with which the end of the string wraps around. */
  predicate StringOverflows(data: Text, pos: nat)
    requires pos < |data|
  {
    var colon := ColonFrom(data, pos);
    colon < |data| &&
    var length := Atoi(data[pos..colon]);
    length.Some? && length.value >= 0 && colon + 1 + length.value >= TWO_TO_THE_63
  }

  /** The exact condition for one string. */
  lemma StringPanicsIff(data: Text, pos: nat)
    requires |data| < TWO_TO_THE_63 && pos < |data|
    ensures ReadString(data, pos).Panic? <==> StringOverflows(data, pos)
  {
  }

  // ----- the positions the reader comes to -----

  /** Where the reader started at `pos` starts reading a value, up to its first error. */
  function Visited(data: Text, pos: nat): set<nat>
    decreases |data| - pos, 0
  {
    if pos >= |data| then {}
    else if data[pos] == CHAR_L then {pos} + VisitedItems(data, pos + 1)
    else if data[pos] == CHAR_D then {pos} + VisitedEntries(data, pos + 1)
    else {pos}
  }

  function VisitedItems(data: Text, pos: nat): set<nat>
    requires pos <= |data|
    decreases |data| - pos, 1
  {
    if pos >= |data| || data[pos] == CHAR_E then {}
    else
      var child := Read(data, pos);
      Visited(data, pos) + if child.Ok? then VisitedItems(data, child.next) else {}
  }

  function VisitedEntry(data: Text, pos: nat): set<nat>
    requires pos < |data|
    decreases |data| - pos, 1
  {
    var key := Read(data, pos);
    Visited(data, pos) + if key.Ok? then Visited(data, key.next) else {}
  }

  function VisitedEntries(data: Text, pos: nat): set<nat>
    requires pos <= |data|
    decreases |data| - pos, 2
  {
    if pos >= |data| || data[pos] == CHAR_E then {}
    else
      var entry := ReadEntry(data, pos);
      VisitedEntry(data, pos) + if entry.Ok? then VisitedEntries(data, entry.next) else {}
  }

  /** The value at `p` is a string whose end wraps around. */
  predicate Overflows(data: Text, p: nat) {
    && p < |data|
    && data[p] != CHAR_I && data[p] != CHAR_L && data[p] != CHAR_D
    && StringOverflows(data, p)
  }

  predicate AnyOverflows(data: Text, visited: set<nat>) {
    exists p :: p in visited && Overflows(data, p)
  }

  lemma AnyOfBoth(data: Text, a: set<nat>, b: set<nat>)
    ensures AnyOverflows(data, a + b) <==> AnyOverflows(data, a) || AnyOverflows(data, b)
  {
    if p :| p in a && Overflows(data, p) {
      assert p in a + b;
    }
    if p :| p in b && Overflows(data, p) {
      assert p in a + b;
    }
  }

  /** The reader panics exactly when it comes to a string whose end wraps around. */
  lemma {:induction false} PanicsIff(data: Text, pos: nat)
    requires |data| < TWO_TO_THE_63
    ensures Read(data, pos).Panic? <==> AnyOverflows(data, Visited(data, pos))
    decreases |data| - pos, 0
  {
    if pos < |data| {
      if data[pos] == CHAR_L {
        ItemsPanicIff(data, pos + 1, []);
        AnyOfBoth(data, {pos}, VisitedItems(data, pos + 1));
      } else if data[pos] == CHAR_D {
        EntriesPanicIff(data, pos + 1, map[]);
        AnyOfBoth(data, {pos}, VisitedEntries(data, pos + 1));
      } else if data[pos] != CHAR_I {
        StringPanicsIff(data, pos);
        assert pos in Visited(data, pos);
      }
    }
  }

  lemma {:induction false} ItemsPanicIff(data: Text, pos: nat, items: seq<Node>)
    requires |data| < TWO_TO_THE_63 && pos <= |data|
    ensures ReadItems(data, pos, items).Panic? <==> AnyOverflows(data, VisitedItems(data, pos))
    decreases |data| - pos, 1
  {
    hide Overflows;
    if pos < |data| && data[pos] != CHAR_E {
      var child := Read(data, pos);
      PanicsIff(data, pos);
      if child.Ok? {
        ItemsPanicIff(data, child.next, items + [child.value]);
        AnyOfBoth(data, Visited(data, pos), VisitedItems(data, child.next));
      } else {
        AnyOfBoth(data, Visited(data, pos), {});
      }
    }
  }

  lemma {:induction false} EntryPanicsIff(data: Text, pos: nat)
    requires |data| < TWO_TO_THE_63 && pos < |data|
    ensures ReadEntry(data, pos).Panic? <==> AnyOverflows(data, VisitedEntry(data, pos))
    decreases |data| - pos, 1
  {
    hide Overflows;
    var key := Read(data, pos);
    PanicsIff(data, pos);
    if key.Ok? {
      PanicsIff(data, key.next);
      AnyOfBoth(data, Visited(data, pos), Visited(data, key.next));
    } else {
      AnyOfBoth(data, Visited(data, pos), {});
    }
  }

  lemma {:induction false} EntriesPanicIff(data: Text, pos: nat, entries: map<Text, Node>)
    requires |data| < TWO_TO_THE_63 && pos <= |data|
    ensures ReadEntries(data, pos, entries).Panic? <==> AnyOverflows(data, VisitedEntries(data, pos))
    decreases |data| - pos, 2
  {
    hide Overflows, Read;
    if pos < |data| && data[pos] != CHAR_E {
      var entry := ReadEntry(data, pos);
      EntryPanicsIff(data, pos);
      if entry.Ok? {
        EntriesPanicIff(data, entry.next, entries[entry.value.0 := entry.value.1]);
        AnyOfBoth(data, VisitedEntry(data, pos), VisitedEntries(data, entry.next));
      } else {
        AnyOfBoth(data, VisitedEntry(data, pos), {});
      }
    }
  }

  // ----- the input -----

  /** The largest 64-bit length followed by a colon makes the reader panic, whatever follows. */
  lemma HugeLengthPanics(rest: Text)
    requires |DecimalDigits(TWO_TO_THE_63 - 1) + [COLON] + rest| < TWO_TO_THE_63
    ensures Read(DecimalDigits(TWO_TO_THE_63 - 1) + [COLON] + rest, 0).Panic?
  {
    var digits := DecimalDigits(TWO_TO_THE_63 - 1);
    var data, colon := digits + [COLON] + rest, |digits|;
    DigitsFacts(TWO_TO_THE_63 - 1);
    AtoiDecimal(TWO_TO_THE_63 - 1);
    assert data[0..colon] == digits;
    DigitsThenColon(data, 0, colon);
    StringPanicsIff(data, 0);
  }
}
