/** The encoder of BEP 3 as the reference for the reader, and the round trip. */
module BencodeRoundTrip {
  import opened Wrappers
  import opened Bytes
  import opened Bencode

  datatype Value =
    | Int(n: int)
    | Str(text: Text)
    | Items(items: seq<Value>)
    | Pairs(pairs: seq<Pair>)

  datatype Pair = Pair(key: Text, value: Value)

  // ----- the encoder -----

  function DecimalDigits(n: nat): Text {
    var last: Byte := 48 + n % 10;
    if n < 10 then [last] else DecimalDigits(n / 10) + [last]
  }

  function Decimal(n: int): Text {
    if n < 0 then [MINUS] + DecimalDigits(-n) else DecimalDigits(n)
  }

  function EncodeString(t: Text): Text {
    DecimalDigits(|t|) + [COLON] + t
  }

  function Encode(v: Value): Text
    decreases v, 0
  {
    match v
    case Int(n) => [CHAR_I] + Decimal(n) + [CHAR_E]
    case Str(text) => EncodeString(text)
    case Items(items) => [CHAR_L] + EncodeItems(items)
    case Pairs(pairs) => [CHAR_D] + EncodePairs(pairs)
  }

  /** The elements and the closing mark. */
  function EncodeItems(items: seq<Value>): Text
    decreases items, 1
  {
    if items == [] then [CHAR_E] else Encode(items[0]) + EncodeItems(items[1..])
  }

  function EncodePairs(pairs: seq<Pair>): Text
    decreases pairs, 1
  {
    if pairs == [] then [CHAR_E]
    else EncodePair(pairs[0]) + EncodePairs(pairs[1..])
  }

  function EncodePair(p: Pair): Text
    decreases p, 1
  {
    EncodeString(p.key) + Encode(p.value)
  }

  // ----- the tree a value denotes -----

  function Tree(v: Value): Node
    decreases v, 0
  {
    match v
    case Int(n) => Leaf(Decimal(n))
    case Str(text) => Leaf(text)
    case Items(items) => List(Trees(items))
    case Pairs(pairs) => Dict(Entries(pairs, map[]))
  }

  function Trees(items: seq<Value>): seq<Node>
    decreases items, 1
  {
    if items == [] then [] else [Tree(items[0])] + Trees(items[1..])
  }

  /** Later pairs win, as in the reader. */
  function Entries(pairs: seq<Pair>, entries: map<Text, Node>): map<Text, Node>
    decreases pairs, 1
  {
    if pairs == [] then entries else Entries(pairs[1..], AddPair(pairs[0], entries))
  }

  function AddPair(p: Pair, entries: map<Text, Node>): map<Text, Node>
    decreases p, 1
  {
    entries[p.key := Tree(p.value)]
  }

  // ----- decimal digits -----

  lemma {:induction false} DigitsFacts(n: nat)
    ensures AllDigits(DecimalDigits(n)) && DigitsValue(DecimalDigits(n)) == n
  {
    var t := DecimalDigits(n);
    if n < 10 {
      assert t[..|t| - 1] == [];
    } else {
      DigitsFacts(n / 10);
      assert t[..|t| - 1] == DecimalDigits(n / 10);
    }
  }

  /** Reading a rendered 64-bit number gives the number back. */
  lemma AtoiDecimal(n: int)
    requires -TWO_TO_THE_63 <= n < TWO_TO_THE_63
    ensures Atoi(Decimal(n)) == Some(n)
  {
    if n < 0 {
      DigitsFacts(-n);
      assert Decimal(n)[1..] == DecimalDigits(-n);
    } else {
      DigitsFacts(n);
      assert IsDigit(Decimal(n)[0]);
    }
  }

  /** A leading plus is read over; anything else but digits behind an optional sign is refused. */
  lemma AtoiAcceptsPlus(n: nat)
    requires n < TWO_TO_THE_63
    ensures Atoi([43] + DecimalDigits(n)) == Some(n)
  {
    DigitsFacts(n);
    assert ([43] + DecimalDigits(n))[1..] == DecimalDigits(n);
  }

  lemma AtoiRefusesText(t: Text, k: nat)
    requires k < |t| && !(48 <= t[k] <= 57) && (k > 0 || (t[k] != 43 && t[k] != 45))
    ensures Atoi(t) == None && Atoi([]) == None && Atoi([43]) == None && Atoi([45]) == None
  {
    if t[0] == 43 || t[0] == 45 {
      assert t[1..][k - 1] == t[k];
    }
  }

  lemma DecimalHasNoMark(n: int)
    ensures |Decimal(n)| > 0 && forall k :: 0 <= k < |Decimal(n)| ==> Decimal(n)[k] != CHAR_E
  {
    DigitsFacts(if n < 0 then -n else n);
  }

  // ----- text at a position -----

  ghost predicate Holds(data: Text, pos: nat, t: Text) {
    pos + |t| <= |data| && data[pos..pos + |t|] == t
  }

  lemma SliceParts(data: Text, pos: nat, mid: nat, end: nat)
    requires pos <= mid <= end <= |data|
    ensures data[pos..mid] == data[pos..end][..mid - pos]
    ensures data[mid..end] == data[pos..end][mid - pos..]
  {
  }

  lemma HoldsText(data: Text, pos: nat, t: Text)
    requires Holds(data, pos, t)
    ensures pos + |t| <= |data| && data[pos..pos + |t|] == t
  {
  }

  lemma HoldsSplit(data: Text, pos: nat, x: Text, y: Text)
    requires Holds(data, pos, x + y)
    ensures Holds(data, pos, x) && Holds(data, pos + |x|, y)
  {
    SliceParts(data, pos, pos + |x|, pos + |x| + |y|);
    assert (x + y)[..|x|] == x && (x + y)[|x|..] == y;
  }

  lemma HoldsAt(data: Text, pos: nat, t: Text, i: nat)
    requires Holds(data, pos, t) && i < |t|
    ensures data[pos + i] == t[i]
  {
    assert data[pos + i] == data[pos..pos + |t|][i];
  }

  // ----- reading what was encoded -----

  lemma MarkAfter(data: Text, pos: nat, t: Text, mark: Byte)
    requires Holds(data, pos, t) && pos + |t| < |data| && data[pos + |t|] == mark
    requires forall k :: 0 <= k < |t| ==> t[k] != mark
    ensures IndexByte(data[pos..], mark) == |t|
  {
    var rest := data[pos..];
    forall k | 0 <= k < |t| ensures rest[k] != mark {
      HoldsAt(data, pos, t, k);
    }
    IndexIs(rest, mark, |t|);
  }

  lemma ReadIntegerAt(data: Text, pos: nat, t: Text)
    requires pos < |data| && data[pos] == CHAR_I && Holds(data, pos + 1, t) && Holds(data, pos + 1 + |t|, [CHAR_E])
    requires forall k :: 0 <= k < |t| ==> t[k] != CHAR_E
    ensures Read(data, pos) == Ok(Leaf(t), pos + |t| + 2)
  {
    hide ReadString, ReadItems, ReadEntries, IndexByte, Holds;
    HoldsText(data, pos + 1 + |t|, [CHAR_E]);
    HoldsAt(data, pos + 1 + |t|, [CHAR_E], 0);
    MarkAfter(data, pos + 1, t, CHAR_E);
    HoldsText(data, pos + 1, t);
  }

  lemma ReadInt(data: Text, pos: nat, n: int)
    requires Holds(data, pos, Encode(Int(n)))
    ensures Read(data, pos) == Ok(Tree(Int(n)), pos + |Encode(Int(n))|)
  {
    var t := Decimal(n);
    HoldsSplit(data, pos, [CHAR_I] + t, [CHAR_E]);
    HoldsSplit(data, pos, [CHAR_I], t);
    HoldsAt(data, pos, [CHAR_I], 0);
    DecimalHasNoMark(n);
    ReadIntegerAt(data, pos, t);
  }

  lemma DigitsThenColon(data: Text, pos: nat, colon: nat)
    requires pos <= colon < |data| && data[colon] == COLON && AllDigits(data[pos..colon])
    ensures ColonFrom(data, pos) == colon && IsDigit(data[pos])
  {
    forall k | pos <= k < colon ensures IsDigit(data[k]) {
      assert IsDigit(data[pos..colon][k - pos]);
    }
    ColonIs(data, pos, colon);
  }

  lemma StringBranch(data: Text, pos: nat, colon: nat, t: Text)
    requires pos <= colon < |data| && ColonFrom(data, pos) == colon && IsDigit(data[pos])
    requires Holds(data, colon + 1, t) && Atoi(data[pos..colon]) == Some(|t|)
    ensures Read(data, pos) == ReadString(data, pos) == ReadCounted(data, colon, Some(|t|))
  {
  }

  lemma StringParts(data: Text, pos: nat, t: Text)
    requires |data| < TWO_TO_THE_63 && Holds(data, pos, EncodeString(t))
    ensures var colon := pos + |DecimalDigits(|t|)|;
      colon < |data| && data[colon] == COLON && data[pos..colon] == DecimalDigits(|t|) && Holds(data, colon + 1, t)
  {
    var digits := DecimalDigits(|t|);
    HoldsSplit(data, pos, digits + [COLON], t);
    HoldsSplit(data, pos, digits, [COLON]);
    HoldsAt(data, pos + |digits|, [COLON], 0);
  }

  lemma ReadStr(data: Text, pos: nat, t: Text)
    requires |data| < TWO_TO_THE_63 && Holds(data, pos, EncodeString(t))
    ensures Read(data, pos) == Ok(Leaf(t), pos + |EncodeString(t)|)
    ensures data[pos] != CHAR_E
  {
    hide Read, ReadString, Atoi, DigitsValue, DecimalDigits, AllDigits, ColonFrom, Holds;
    StringParts(data, pos, t);
    DigitsFacts(|t|);
    AtoiDecimal(|t|);
    DigitsThenColon(data, pos, pos + |DecimalDigits(|t|)|);
    StringBranch(data, pos, pos + |DecimalDigits(|t|)|, t);
  }

  /** No encoding starts with the closing mark. */
  lemma FirstByte(v: Value)
    ensures |Encode(v)| > 0 && Encode(v)[0] != CHAR_E
  {
    if v.Str? {
      DigitsFacts(|v.text|);
      assert IsDigit(Encode(v)[0]);
    }
  }

  lemma ReadMark(data: Text, pos: nat, mark: Byte, body: Text)
    requires Holds(data, pos, [mark] + body)
    ensures data[pos] == mark && Holds(data, pos + 1, body)
  {
    HoldsSplit(data, pos, [mark], body);
    HoldsAt(data, pos, [mark], 0);
  }

  /** Round trip: an encoded value, placed anywhere and followed by anything, is read back as
      its tree, and the reader stops exactly behind it. */
  lemma {:induction false} ReadEncoded(data: Text, pos: nat, v: Value)
    requires |data| < TWO_TO_THE_63 && Holds(data, pos, Encode(v))
    ensures Read(data, pos) == Ok(Tree(v), pos + |Encode(v)|)
    decreases v, 0
  {
    match v
    case Int(n) => ReadInt(data, pos, n);
    case Str(text) => ReadStr(data, pos, text);
    case Items(items) =>
      ReadMark(data, pos, CHAR_L, EncodeItems(items));
      ReadEncodedItems(data, pos + 1, items, []);
      assert [] + Trees(items) == Trees(items);
    case Pairs(pairs) =>
      ReadMark(data, pos, CHAR_D, EncodePairs(pairs));
      ReadEncodedPairs(data, pos + 1, pairs, map[]);
  }

  /** One turn of the reader's list loop. */
  lemma ItemsTurn(data: Text, pos: nat, before: seq<Node>, child: Node, next: nat)
    requires pos < |data| && data[pos] != CHAR_E && Read(data, pos) == Ok(child, next)
    ensures ReadItems(data, pos, before) == ReadItems(data, next, before + [child])
  {
  }

  lemma ItemsEnd(data: Text, pos: nat, before: seq<Node>)
    requires Holds(data, pos, EncodeItems([]))
    ensures ReadItems(data, pos, before) == Ok(List(before + Trees([])), pos + |EncodeItems([])|)
  {
    hide Read;
    HoldsAt(data, pos, [CHAR_E], 0);
    assert before + Trees([]) == before;
  }

  /** The first item, and where the others start. */
  lemma {:induction false} ItemsStart(data: Text, pos: nat, items: seq<Value>, before: seq<Node>)
    requires |data| < TWO_TO_THE_63 && Holds(data, pos, EncodeItems(items)) && items != []
    ensures var next := pos + |Encode(items[0])|;
      && next <= |data| && Holds(data, next, EncodeItems(items[1..]))
      && ReadItems(data, pos, before) == ReadItems(data, next, before + [Tree(items[0])])
      && |EncodeItems(items)| == |Encode(items[0])| + |EncodeItems(items[1..])|
    decreases items, 0
  {
    hide Read, ReadItems, Tree, Encode, Holds;
    ReadEncodedFirst(data, pos, items[0], EncodeItems(items[1..]));
    HoldsText(data, pos, EncodeItems(items));
    ItemsTurn(data, pos, before, Tree(items[0]), pos + |Encode(items[0])|);
  }

  lemma {:induction false} ReadEncodedItems(data: Text, pos: nat, items: seq<Value>, before: seq<Node>)
    requires |data| < TWO_TO_THE_63 && Holds(data, pos, EncodeItems(items))
    ensures ReadItems(data, pos, before) == Ok(List(before + Trees(items)), pos + |EncodeItems(items)|)
    decreases items, 1
  {
    hide ReadItems, Tree, Trees, Encode, EncodeItems, Holds;
    if items == [] {
      ItemsEnd(data, pos, before);
    } else {
      ItemsStart(data, pos, items, before);
      ReadEncodedItems(data, pos + |Encode(items[0])|, items[1..], before + [Tree(items[0])]);
      TreesTurn(before, items);
    }
  }

  lemma TreesTurn(before: seq<Node>, items: seq<Value>)
    requires items != []
    ensures before + [Tree(items[0])] + Trees(items[1..]) == before + Trees(items)
  {
  }

  lemma {:induction false} ReadEncodedFirst(data: Text, pos: nat, v: Value, rest: Text)
    requires |data| < TWO_TO_THE_63 && Holds(data, pos, Encode(v) + rest)
    ensures pos < |data| && data[pos] != CHAR_E
    ensures Read(data, pos) == Ok(Tree(v), pos + |Encode(v)|) && Holds(data, pos + |Encode(v)|, rest)
    decreases v, 1
  {
    HoldsSplit(data, pos, Encode(v), rest);
    FirstByte(v);
    HoldsAt(data, pos, Encode(v), 0);
    ReadEncoded(data, pos, v);
  }

  lemma EntryTurn(data: Text, pos: nat, key: Text, mid: nat, value: Node, next: nat)
    requires pos < |data| && Read(data, pos) == Ok(Leaf(key), mid) && Read(data, mid) == Ok(value, next)
    ensures ReadEntry(data, pos) == Ok((key, value), next)
  {
  }

  lemma {:induction false} ReadEncodedPair(data: Text, pos: nat, p: Pair)
    requires |data| < TWO_TO_THE_63 && Holds(data, pos, EncodePair(p))
    ensures |EncodePair(p)| > 0 && data[pos] != CHAR_E
    ensures ReadEntry(data, pos) == Ok((p.key, Tree(p.value)), pos + |EncodePair(p)|)
    decreases p, 1
  {
    hide Read, ReadEntry;
    var key, value := EncodeString(p.key), Encode(p.value);
    HoldsSplit(data, pos, key, value);
    ReadStr(data, pos, p.key);
    ReadEncoded(data, pos + |key|, p.value);
    EntryTurn(data, pos, p.key, pos + |key|, Tree(p.value), pos + |key| + |value|);
  }

  /** One turn of the reader's dictionary loop. */
  lemma {:induction false} PairsTurn(data: Text, pos: nat, pairs: seq<Pair>, before: map<Text, Node>)
    requires |data| < TWO_TO_THE_63 && Holds(data, pos, EncodePairs(pairs)) && pairs != []
    ensures pos + |EncodePair(pairs[0])| <= |data|
    ensures ReadEntries(data, pos, before)
      == ReadEntries(data, pos + |EncodePair(pairs[0])|, AddPair(pairs[0], before))
    ensures Holds(data, pos + |EncodePair(pairs[0])|, EncodePairs(pairs[1..]))
    ensures |EncodePairs(pairs)| == |EncodePair(pairs[0])| + |EncodePairs(pairs[1..])|
    decreases pairs, 0
  {
    hide Read, ReadEntry, ReadEntries, EncodePair, Tree, Holds;
    var next := pos + |EncodePair(pairs[0])|;
    HoldsSplit(data, pos, EncodePair(pairs[0]), EncodePairs(pairs[1..]));
    ReadEncodedPair(data, pos, pairs[0]);
    HoldsText(data, pos, EncodePairs(pairs));
    EntriesTurn(data, pos, before, pairs[0].key, Tree(pairs[0].value), next);
  }

  lemma PairsEnd(data: Text, pos: nat, before: map<Text, Node>)
    requires Holds(data, pos, EncodePairs([]))
    ensures ReadEntries(data, pos, before) == Ok(Dict(before), pos + |EncodePairs([])|)
  {
    hide ReadEntry;
    HoldsAt(data, pos, [CHAR_E], 0);
  }

  lemma {:induction false} ReadEncodedPairs(data: Text, pos: nat, pairs: seq<Pair>, before: map<Text, Node>)
    requires |data| < TWO_TO_THE_63 && Holds(data, pos, EncodePairs(pairs))
    ensures ReadEntries(data, pos, before) == Ok(Dict(Entries(pairs, before)), pos + |EncodePairs(pairs)|)
    decreases pairs, 1
  {
    hide ReadEntries, EncodePair, EncodePairs, AddPair, Tree, Holds;
    if pairs == [] {
      PairsEnd(data, pos, before);
    } else {
      PairsTurn(data, pos, pairs, before);
      ReadEncodedPairs(data, pos + |EncodePair(pairs[0])|, pairs[1..], AddPair(pairs[0], before));
    }
  }

  // ----- what a dictionary holds -----

  ghost predicate DistinctKeys(pairs: seq<Pair>) {
    forall i, j :: 0 <= i < j < |pairs| ==> pairs[i].key != pairs[j].key
  }

  lemma {:induction false} EntriesKeep(pairs: seq<Pair>, before: map<Text, Node>, key: Text)
    requires forall i :: 0 <= i < |pairs| ==> pairs[i].key != key
    ensures key in Entries(pairs, before) <==> key in before
    ensures key in before ==> Entries(pairs, before)[key] == before[key]
    decreases |pairs|
  {
    if pairs != [] {
      EntriesKeep(pairs[1..], AddPair(pairs[0], before), key);
    }
  }

  lemma {:induction false} DictHoldsPairs(pairs: seq<Pair>, before: map<Text, Node>, i: nat)
    requires DistinctKeys(pairs) && i < |pairs|
    ensures pairs[i].key in Entries(pairs, before) && Entries(pairs, before)[pairs[i].key] == Tree(pairs[i].value)
    decreases |pairs|
  {
    var more := AddPair(pairs[0], before);
    if i == 0 {
      EntriesKeep(pairs[1..], more, pairs[0].key);
    } else {
      DictHoldsPairs(pairs[1..], more, i - 1);
    }
  }

  /** With distinct keys the dictionary that is read back holds exactly the encoded pairs. */
  lemma DictIsExact(pairs: seq<Pair>)
    requires DistinctKeys(pairs)
    ensures forall key :: key in Entries(pairs, map[]) <==> exists i :: 0 <= i < |pairs| && pairs[i].key == key
    ensures forall i :: 0 <= i < |pairs| ==>
      pairs[i].key in Entries(pairs, map[]) && Entries(pairs, map[])[pairs[i].key] == Tree(pairs[i].value)
  {
    forall i | 0 <= i < |pairs|
      ensures pairs[i].key in Entries(pairs, map[]) && Entries(pairs, map[])[pairs[i].key] == Tree(pairs[i].value)
    {
      DictHoldsPairs(pairs, map[], i);
    }
    forall key ensures key in Entries(pairs, map[]) <==> exists i :: 0 <= i < |pairs| && pairs[i].key == key {
      if forall i :: 0 <= i < |pairs| ==> pairs[i].key != key {
        EntriesKeep(pairs, map[], key);
      }
    }
  }

  /** No encoding is a proper prefix of another, and equal encodings denote equal trees. */
  lemma PrefixFree(v: Value, w: Value)
    requires |Encode(w)| < TWO_TO_THE_63 && Encode(v) <= Encode(w)
    ensures Encode(v) == Encode(w) && Tree(v) == Tree(w)
  {
    ReadEncoded(Encode(w), 0, v);
    ReadEncoded(Encode(w), 0, w);
  }
}
