/** From an encoded metainfo to its files: the parser applied to what the encoder wrote. Keys
    are written out as their bytes. */
module ManifestRoundTrip {
  import opened Wrappers
  import opened Bytes
  import opened Bencode
  import opened BencodeRoundTrip
  import opened Manifest

  /** A row of a files list: its length, and the parts of its path. */
  datatype Listed = Listed(length: int, parts: seq<Text>)

  // ----- lengths -----

  /** Every natural number is a length, zero included; a negative one is not. */
  lemma LengthOfDecimal(n: int)
    requires -TWO_TO_THE_63 <= n < TWO_TO_THE_63
    ensures Length(Leaf(Decimal(n))) == if n >= 0 then Some(n) else None
  {
    AtoiDecimal(n);
  }

  // ----- dictionaries -----

  ghost predicate HasPair(v: Value, key: Text, value: Value) {
    v.Pairs? && DistinctKeys(v.pairs) && exists i :: 0 <= i < |v.pairs| && v.pairs[i] == Pair(key, value)
  }

  ghost predicate LacksKey(v: Value, key: Text) {
    v.Pairs? && DistinctKeys(v.pairs) && forall i :: 0 <= i < |v.pairs| ==> v.pairs[i].key != key
  }

  lemma FieldOfPair(v: Value, key: Text, value: Value)
    requires HasPair(v, key, value)
    ensures HasField(Tree(v), key) && Field(Tree(v), key) == Tree(value)
  {
    DictIsExact(v.pairs);
    var i :| 0 <= i < |v.pairs| && v.pairs[i] == Pair(key, value);
    assert v.pairs[i].key == key;
  }

  lemma FieldOfNone(v: Value, key: Text)
    requires LacksKey(v, key)
    ensures !HasField(Tree(v), key) && Field(Tree(v), key) == Leaf([])
  {
    DictIsExact(v.pairs);
  }

  // ----- paths -----

  function Strs(parts: seq<Text>): seq<Value> {
    if parts == [] then [] else [Str(parts[0])] + Strs(parts[1..])
  }

  /** The parts with a slash between each two. */
  function Slashed(parts: seq<Text>): Text {
    if parts == [] then []
    else if |parts| == 1 then parts[0]
    else Slashed(parts[..|parts| - 1]) + [47] + parts[|parts| - 1]
  }

  lemma {:induction false} SlashedFront(parts: seq<Text>)
    requires |parts| >= 2
    ensures Slashed(parts) == parts[0] + [47] + Slashed(parts[1..])
    decreases |parts|
  {
    if |parts| == 2 {
      assert parts[..1] == [parts[0]] && parts[1..] == [parts[1]];
    } else {
      var init, last := parts[..|parts| - 1], parts[|parts| - 1];
      SlashedFront(init);
      assert parts[1..][..|parts| - 2] == init[1..] && parts[1..][|parts| - 2] == last;
      RegroupText(parts[0] + [47], Slashed(init[1..]), [47] + last);
    }
  }

  lemma RegroupText(a: Text, b: Text, c: Text)
    ensures (a + b) + c == a + (b + c)
  {
  }

  lemma {:induction false} JoinIsSlashed(parts: seq<Text>)
    ensures |Trees(Strs(parts))| == |parts| && JoinPath(Trees(Strs(parts))) == Slashed(parts)
    decreases |parts|
  {
    if parts != [] {
      var rest := Trees(Strs(parts[1..]));
      assert Strs(parts)[1..] == Strs(parts[1..]);
      assert Trees(Strs(parts)) == [Leaf(parts[0])] + rest;
      JoinIsSlashed(parts[1..]);
      assert Trees(Strs(parts))[1..] == rest;
      if |parts| >= 2 {
        SlashedFront(parts);
      }
    }
  }

  // ----- rows -----

  /** The encoded row says "length" and "path". */
  ghost predicate Describes(v: Value, f: Listed) {
    && HasPair(v, [108, 101, 110, 103, 116, 104], Int(f.length))
    && HasPair(v, [112, 97, 116, 104], Items(Strs(f.parts)))
    && -TWO_TO_THE_63 <= f.length < TWO_TO_THE_63
  }

  lemma RowOfDescribed(v: Value, f: Listed, safe: PathCheck)
    requires Describes(v, f)
    ensures RowLength(Tree(v)) == if f.length >= 0 then Some(f.length) else None
    ensures RowPath(Tree(v), safe) == safe(Slashed(f.parts))
  {
    FieldOfPair(v, [108, 101, 110, 103, 116, 104], Int(f.length));
    FieldOfPair(v, [112, 97, 116, 104], Items(Strs(f.parts)));
    LengthOfDecimal(f.length);
    JoinIsSlashed(f.parts);
    hide JoinPath, Length, Slashed;
  }

  lemma {:induction false} TreesAt(rows: seq<Value>, k: nat)
    requires k < |rows|
    ensures |Trees(rows)| == |rows| && Trees(rows)[k] == Tree(rows[k])
    decreases |rows|
  {
    if k > 0 {
      TreesAt(rows[1..], k - 1);
    } else {
      TreesLength(rows[1..]);
    }
  }

  lemma {:induction false} TreesLength(rows: seq<Value>)
    ensures |Trees(rows)| == |rows|
    decreases |rows|
  {
    if rows != [] {
      TreesLength(rows[1..]);
    }
  }

  function SumLengths(files: seq<Listed>): int {
    if files == [] then 0 else SumLengths(files[..|files| - 1]) + files[|files| - 1].length
  }

  lemma {:induction false} TotalIsSum(files: seq<File>, listed: seq<Listed>)
    requires |files| == |listed| && forall k :: 0 <= k < |files| ==> files[k].size == listed[k].length
    ensures TotalSize(files) == SumLengths(listed)
    decreases |files|
  {
    if files != [] {
      TotalIsSum(files[..|files| - 1], listed[..|listed| - 1]);
    }
  }

  ghost predicate AllFit(listed: seq<Listed>, safe: PathCheck) {
    forall k :: 0 <= k < |listed| ==> listed[k].length >= 0 && safe(Slashed(listed[k].parts)).Some?
  }

  /** One file per row: its place, its length, its cleaned path, and the sum of the earlier
      lengths as its offset. */
  ghost predicate AreTheFiles(files: seq<File>, listed: seq<Listed>, safe: PathCheck) {
    && |files| == |listed|
    && forall k :: 0 <= k < |files| ==>
         && files[k].index == k && files[k].size == listed[k].length
         && safe(Slashed(listed[k].parts)) == Some(files[k].path)
         && files[k].offset == SumLengths(listed[..k])
  }

  lemma RowsFit(rows: seq<Value>, listed: seq<Listed>, safe: PathCheck)
    requires |rows| == |listed| && forall k :: 0 <= k < |rows| ==> Describes(rows[k], listed[k])
    ensures |Trees(rows)| == |rows|
    ensures forall k :: 0 <= k < |rows| ==>
      && RowLength(Trees(rows)[k]) == (if listed[k].length >= 0 then Some(listed[k].length) else None)
      && RowPath(Trees(rows)[k], safe) == safe(Slashed(listed[k].parts))
  {
    hide Describes, RowLength, RowPath, Slashed, Trees;
    TreesLength(rows);
    forall k | 0 <= k < |rows|
      ensures RowLength(Trees(rows)[k]) == if listed[k].length >= 0 then Some(listed[k].length) else None
      ensures RowPath(Trees(rows)[k], safe) == safe(Slashed(listed[k].parts))
    {
      TreesAt(rows, k);
      RowOfDescribed(rows[k], listed[k], safe);
    }
  }

  lemma FileIsListed(files: seq<File>, trees: seq<Node>, listed: seq<Listed>, safe: PathCheck, k: nat)
    requires |files| == |trees| == |listed| && k < |files| && ListsRow(files[k], trees[k], safe)
    requires RowLength(trees[k]) == if listed[k].length >= 0 then Some(listed[k].length) else None
    requires RowPath(trees[k], safe) == safe(Slashed(listed[k].parts))
    ensures files[k].size == listed[k].length && safe(Slashed(listed[k].parts)) == Some(files[k].path)
  {
    hide RowLength, RowPath, Slashed;
  }

  lemma ListedFacts(files: seq<File>, rows: seq<Value>, listed: seq<Listed>, safe: PathCheck, k: nat)
    requires |rows| == |listed| && forall k :: 0 <= k < |rows| ==> Describes(rows[k], listed[k])
    requires Lists(files, Trees(rows), safe) && k < |files|
    ensures |files| == |listed|
    ensures files[k].size == listed[k].length && safe(Slashed(listed[k].parts)) == Some(files[k].path)
  {
    TreesLength(rows);
    TreesAt(rows, k);
    RowOfDescribed(rows[k], listed[k], safe);
    hide Describes, RowLength, RowPath, Slashed, Trees, ListsRow;
    FileIsListed(files, Trees(rows), listed, safe, k);
  }

  lemma OffsetsAreSums(files: seq<File>, listed: seq<Listed>, k: nat)
    requires |files| == |listed| && Tiles(files) && k < |files|
    requires forall k :: 0 <= k < |files| ==> files[k].size == listed[k].length
    ensures files[k].index == k && files[k].offset == SumLengths(listed[..k])
  {
    hide TotalSize, SumLengths;
    TotalIsSum(files[..k], listed[..k]);
  }

  lemma ListsAreTheFiles(files: seq<File>, rows: seq<Value>, listed: seq<Listed>, safe: PathCheck)
    requires |rows| == |listed| && forall k :: 0 <= k < |rows| ==> Describes(rows[k], listed[k])
    requires Tiles(files) && Lists(files, Trees(rows), safe)
    ensures AreTheFiles(files, listed, safe)
  {
    TreesLength(rows);
    assert |files| == |Trees(rows)|;
    hide Describes, Slashed, Trees, Lists, SumLengths, Tiles;
    forall k | 0 <= k < |files|
      ensures files[k].size == listed[k].length && safe(Slashed(listed[k].parts)) == Some(files[k].path)
    {
      ListedFacts(files, rows, listed, safe, k);
    }
    forall k | 0 <= k < |files| ensures files[k].index == k && files[k].offset == SumLengths(listed[..k]) {
      OffsetsAreSums(files, listed, k);
    }
  }

  // ----- the round trip -----

  lemma InfoOfEncoded(meta: Value, info: Value)
    requires HasPair(meta, [105, 110, 102, 111], info) && |Encode(meta)| < 16777216
    ensures Read(Encode(meta), 0) == Ok(Tree(meta), |Encode(meta)|) && |Encode(meta)| > 0
    ensures HasField(Tree(meta), INFO) && Field(Tree(meta), INFO) == Tree(info)
  {
    ReadEncoded(Encode(meta), 0, meta);
    FieldOfPair(meta, [105, 110, 102, 111], info);
    assert INFO == [105, 110, 102, 111];
  }

  lemma FilesOfEncoded(info: Value, rows: seq<Value>, listed: seq<Listed>, safe: PathCheck)
    requires HasPair(info, [102, 105, 108, 101, 115], Items(rows))
    requires |rows| == |listed| && forall k :: 0 <= k < |rows| ==> Describes(rows[k], listed[k])
    ensures HasField(Tree(info), FILES) && Elements(Field(Tree(info), FILES)) == Trees(rows)
    ensures InfoFits(Tree(info), safe) <==> AllFit(listed, safe)
  {
    FieldOfPair(info, [102, 105, 108, 101, 115], Items(rows));
    RowsFit(rows, listed, safe);
    hide Describes, RowLength, RowPath, Slashed, Trees;
    assert FILES == [102, 105, 108, 101, 115];
    var trees := Trees(rows);
    assert forall k :: 0 <= k < |rows| ==>
      (RowFits(trees[k], safe) <==> listed[k].length >= 0 && safe(Slashed(listed[k].parts)).Some?);
  }

  /** The first row that does not fit gives the error. */
  ghost predicate IsFirstMisfit(r: Result, listed: seq<Listed>, safe: PathCheck, k: nat)
    requires k < |listed|
  {
    && (forall j :: 0 <= j < k ==> listed[j].length >= 0 && safe(Slashed(listed[j].parts)).Some?)
    && (listed[k].length < 0 || safe(Slashed(listed[k].parts)).None?)
    && r == Error(if listed[k].length < 0 then BadLength else UnsafePath)
  }

  lemma MisfitOfEncoded(rows: seq<Value>, listed: seq<Listed>, safe: PathCheck, e: Manifest.Error, k: nat)
    requires |rows| == |listed| && forall k :: 0 <= k < |rows| ==> Describes(rows[k], listed[k])
    requires k < |Trees(rows)| && FirstUnfit(Trees(rows), safe, k) && e == RowError(Trees(rows)[k])
    ensures k < |listed| && IsFirstMisfit(Error(e), listed, safe, k)
  {
    RowsFit(rows, listed, safe);
    hide Describes, RowLength, RowPath, Slashed, Trees;
    assert forall j :: 0 <= j < k ==> RowFits(Trees(rows)[j], safe);
  }

  lemma ResultOfEncoded(r: Result, info: Value, rows: seq<Value>, listed: seq<Listed>, safe: PathCheck)
    requires HasPair(info, [102, 105, 108, 101, 115], Items(rows))
    requires |rows| == |listed| && forall k :: 0 <= k < |rows| ==> Describes(rows[k], listed[k])
    requires r.Manifest? <==> InfoFits(Tree(info), safe)
    requires r.Manifest? ==> Tiles(r.files) && FilesOf(r.files, Tree(info), safe)
    requires !r.Manifest? ==> r.Error? && IsInfoError(r.error, Tree(info), safe)
    ensures r.Manifest? <==> AllFit(listed, safe)
    ensures r.Manifest? ==> AreTheFiles(r.files, listed, safe)
    ensures !r.Manifest? ==> exists k :: 0 <= k < |listed| && IsFirstMisfit(r, listed, safe, k)
  {
    FilesOfEncoded(info, rows, listed, safe);
    hide HasPair, Describes, Tree, Trees, Tiles, Slashed, AllFit, Lists, AreTheFiles;
    hide FirstUnfit, RowError, IsFirstMisfit;
    if r.Manifest? {
      ListsAreTheFiles(r.files, rows, listed, safe);
    } else {
      var trees := Trees(rows);
      var k :| 0 <= k < |trees| && FirstUnfit(trees, safe, k) && r.error == RowError(trees[k]);
      MisfitOfEncoded(rows, listed, safe, r.error, k);
    }
  }

  /** A metainfo with a files list, whatever else its dictionaries hold, is accepted exactly when
      no length is negative and every path is safe, and then it is parsed into exactly its files;
      otherwise the first row that does not fit gives the error. */
  method ParseEncoded(meta: Value, ghost info: Value, ghost rows: seq<Value>, listed: seq<Listed>, safe: PathCheck)
    returns (r: Result)
    requires |Encode(meta)| < 16777216
    requires HasPair(meta, [105, 110, 102, 111], info)
    requires HasPair(info, [102, 105, 108, 101, 115], Items(rows))
    requires |rows| == |listed| && forall k :: 0 <= k < |rows| ==> Describes(rows[k], listed[k])
    ensures r.Manifest? <==>
      forall k :: 0 <= k < |listed| ==> listed[k].length >= 0 && safe(Slashed(listed[k].parts)).Some?
    ensures r.Manifest? ==> |r.files| == |listed| && forall k :: 0 <= k < |listed| ==>
      && r.files[k].index == k && r.files[k].size == listed[k].length
      && safe(Slashed(listed[k].parts)) == Some(r.files[k].path)
      && r.files[k].offset == SumLengths(listed[..k])
    ensures !r.Manifest? ==> exists k :: 0 <= k < |listed| && IsFirstMisfit(r, listed, safe, k)
  {
    InfoOfEncoded(meta, info);
    hide HasPair, Describes, Read, Encode, Tree, Tiles, Slashed, SumLengths, InfoFits, FilesOf, IsInfoError;
    hide IsFirstMisfit;
    r := ParseTorrentManifest(Encode(meta), safe);
    ResultOfEncoded(r, info, rows, listed, safe);
  }

  /** The name of a single file; without one it is "content". */
  ghost predicate Named(info: Value, name: Text) {
    HasPair(info, [110, 97, 109, 101], Str(name)) || (LacksKey(info, [110, 97, 109, 101]) && name == [])
  }

  lemma NameOfEncoded(info: Value, name: Text)
    requires Named(info, name)
    ensures SingleName(Tree(info)) == if name == [] then [99, 111, 110, 116, 101, 110, 116] else name
  {
    assert NAME == [110, 97, 109, 101] && CONTENT == [99, 111, 110, 116, 101, 110, 116];
    if HasPair(info, [110, 97, 109, 101], Str(name)) {
      FieldOfPair(info, [110, 97, 109, 101], Str(name));
    } else {
      FieldOfNone(info, [110, 97, 109, 101]);
    }
  }

  /** A metainfo without a files list is one file: its length, and its name or "content". */
  method ParseEncodedSingle(meta: Value, ghost info: Value, length: int, name: Text, safe: PathCheck)
    returns (r: Result)
    requires |Encode(meta)| < 16777216
    requires HasPair(meta, [105, 110, 102, 111], info)
    requires LacksKey(info, [102, 105, 108, 101, 115]) && Named(info, name)
    requires HasPair(info, [108, 101, 110, 103, 116, 104], Int(length)) && -TWO_TO_THE_63 <= length < TWO_TO_THE_63
    ensures var path := safe(if name == [] then [99, 111, 110, 116, 101, 110, 116] else name);
      && (r.Manifest? <==> length >= 0 && path.Some?)
      && (r.Manifest? ==> r.files == [File(0, path.value, length, 0)])
      && (!r.Manifest? ==> r == Error(if length < 0 then BadLength else UnsafePath))
  {
    InfoOfEncoded(meta, info);
    FieldOfNone(info, [102, 105, 108, 101, 115]);
    FieldOfPair(info, [108, 101, 110, 103, 116, 104], Int(length));
    NameOfEncoded(info, name);
    LengthOfDecimal(length);
    assert FILES == [102, 105, 108, 101, 115] && LENGTH == [108, 101, 110, 103, 116, 104];
    assert Tree(Int(length)) == Leaf(Decimal(length));
    hide HasPair, LacksKey, Read, Encode, Tree, Length, SingleName;
    r := ParseTorrentManifest(Encode(meta), safe);
  }
}
