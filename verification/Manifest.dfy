/** The torrent manifest built from the metainfo tree, and the wait for a file's pieces. */
module Manifest {
  import opened Wrappers
  import opened Bytes
  import opened Bencode

  const SLASH: Byte := 47
  const MAX_METAINFO: nat := 0x100_0000

  /** Keys of the metainfo dictionaries, as their bytes. */
  const INFO: Text := [105, 110, 102, 111]
  const FILES: Text := [102, 105, 108, 101, 115]
  const LENGTH: Text := [108, 101, 110, 103, 116, 104]
  const PATH: Text := [112, 97, 116, 104]
  const NAME: Text := [110, 97, 109, 101]
  const CONTENT: Text := [99, 111, 110, 116, 101, 110, 116]

  datatype File = File(index: nat, path: Text, size: nat, offset: nat)

  datatype Error = BadSize | BadMetainfo | NoInfo | BadLength | UnsafePath

  /** `Panicked` when the bencode reader panics; nothing after it does. */
  datatype Result = Manifest(files: seq<File>) | Error(error: Error) | Panicked

  /** The path check is a parameter: it decides which joined paths are safe and cleans them. */
  type PathCheck = Text -> Option<Text>

  // ----- reading the tree -----

  /** A missing entry reads as the zero node, as in a Go map. */
  function Field(n: Node, key: Text): Node {
    if n.Dict? && key in n.entries then n.entries[key] else Leaf([])
  }

  predicate HasField(n: Node, key: Text) {
    n.Dict? && key in n.entries
  }

  function Elements(n: Node): seq<Node> {
    if n.List? then n.items else []
  }

  /** bint: a decimal length, never negative. */
  function Length(n: Node): Option<nat> {
    var v := Atoi(ValueOf(n));
    if v.Some? && v.value >= 0 then Some(v.value) else None
  }

  function JoinPath(parts: seq<Node>): Text {
    if parts == [] then []
    else if |parts| == 1 then ValueOf(parts[0])
    else ValueOf(parts[0]) + [SLASH] + JoinPath(parts[1..])
  }

  function RowLength(row: Node): Option<nat> {
    Length(Field(row, LENGTH))
  }

  function RowPath(row: Node, safe: PathCheck): Option<Text> {
    safe(JoinPath(Elements(Field(row, PATH))))
  }

  /** The rows of the files list that both checks accept. */
  predicate RowFits(row: Node, safe: PathCheck) {
    RowLength(row).Some? && RowPath(row, safe).Some?
  }

  // ----- tiling -----

  function TotalSize(files: seq<File>): nat {
    if files == [] then 0 else TotalSize(files[..|files| - 1]) + files[|files| - 1].size
  }

  /** Every file starts where the files before it end. */
  predicate Tiles(files: seq<File>) {
    forall i :: 0 <= i < |files| ==> files[i].index == i && files[i].offset == TotalSize(files[..i])
  }

  predicate ListsRow(file: File, row: Node, safe: PathCheck) {
    && RowFits(row, safe)
    && file.size == RowLength(row).value
    && file.path == RowPath(row, safe).value
  }

  /** `files` lists the first rows one for one. */
  predicate ListsPrefix(files: seq<File>, rows: seq<Node>, safe: PathCheck) {
    && |files| <= |rows|
    && forall i :: 0 <= i < |files| ==> ListsRow(files[i], rows[i], safe)
  }

  predicate Lists(files: seq<File>, rows: seq<Node>, safe: PathCheck) {
    |files| == |rows| && ListsPrefix(files, rows, safe)
  }

  /** Every row before row `i` is accepted, and row `i` is not. */
  predicate FirstUnfit(rows: seq<Node>, safe: PathCheck, i: nat)
    requires i < |rows|
  {
    !RowFits(rows[i], safe) && forall j :: 0 <= j < i ==> RowFits(rows[j], safe)
  }

  /** The length is looked at before the path. */
  function RowError(row: Node): Error {
    if RowLength(row).None? then BadLength else UnsafePath
  }

  /** The rows of the files list: refused at the first row with a bad length or path. */
  method ParseFiles(rows: seq<Node>, safe: PathCheck) returns (r: Result)
    ensures r.Manifest? ==> Tiles(r.files) && Lists(r.files, rows, safe)
    ensures r.Error? ==> exists i :: 0 <= i < |rows| && FirstUnfit(rows, safe, i) && r.error == RowError(rows[i])
    ensures !r.Panicked?
  {
    hide Tiles, ListsPrefix, TotalSize, Length, JoinPath;
    var files: seq<File> := [];
    var offset: nat := 0;
    NoFiles(rows, safe);
    for index := 0 to |rows|
      invariant |files| == index && offset == TotalSize(files)
      invariant Tiles(files) && ListsPrefix(files, rows, safe)
      invariant forall j :: 0 <= j < index ==> RowFits(rows[j], safe)
    {
      var length := Length(Field(rows[index], LENGTH));
      if length.None? {
        assert FirstUnfit(rows, safe, index);
        return Error(BadLength);
      }
      var path := safe(JoinPath(Elements(Field(rows[index], PATH))));
      if path.None? {
        assert FirstUnfit(rows, safe, index);
        return Error(UnsafePath);
      }
      var file := File(index, path.value, length.value, offset);
      AppendTiles(files, file);
      AppendRow(files, file, rows, safe);
      files := files + [file];
      offset := offset + length.value;
    }
    return Manifest(files);
  }

  lemma NoFiles(rows: seq<Node>, safe: PathCheck)
    ensures Tiles([]) && TotalSize([]) == 0 && ListsPrefix([], rows, safe)
  {
  }

  lemma AppendRow(files: seq<File>, file: File, rows: seq<Node>, safe: PathCheck)
    requires ListsPrefix(files, rows, safe) && |files| < |rows| && ListsRow(file, rows[|files|], safe)
    ensures ListsPrefix(files + [file], rows, safe)
  {
  }

  lemma AppendTiles(files: seq<File>, file: File)
    requires Tiles(files) && file.index == |files| && file.offset == TotalSize(files)
    ensures Tiles(files + [file]) && TotalSize(files + [file]) == TotalSize(files) + file.size
  {
    var more := files + [file];
    assert more[..|more| - 1] == files;
    forall i | 0 <= i < |more| ensures more[i].offset == TotalSize(more[..i]) {
      assert i < |files| ==> more[..i] == files[..i];
    }
  }

  function SingleName(info: Node): Text {
    if ValueOf(Field(info, NAME)) == [] then CONTENT else ValueOf(Field(info, NAME))
  }

  /** The info dictionaries that yield a manifest. */
  predicate InfoFits(info: Node, safe: PathCheck) {
    if HasField(info, FILES) then
      var rows := Elements(Field(info, FILES));
      forall i :: 0 <= i < |rows| ==> RowFits(rows[i], safe)
    else Length(Field(info, LENGTH)).Some? && safe(SingleName(info)).Some?
  }

  /** The files an accepted info dictionary stands for. */
  predicate FilesOf(files: seq<File>, info: Node, safe: PathCheck)
    requires InfoFits(info, safe)
  {
    if HasField(info, FILES) then Lists(files, Elements(Field(info, FILES)), safe)
    else files == [File(0, safe(SingleName(info)).value, Length(Field(info, LENGTH)).value, 0)]
  }

  /** The error of a refused info dictionary: that of its first unfit row, or of the single file. */
  predicate IsInfoError(e: Error, info: Node, safe: PathCheck) {
    if HasField(info, FILES) then
      var rows := Elements(Field(info, FILES));
      exists i :: 0 <= i < |rows| && FirstUnfit(rows, safe, i) && e == RowError(rows[i])
    else e == RowError(info) && (Length(Field(info, LENGTH)).None? || safe(SingleName(info)).None?)
  }

  /** parseTorrentManifest: the metainfo's files, in order, with their offsets. */
  method ParseTorrentManifest(data: Text, safe: PathCheck) returns (r: Result)
    ensures r == Error(BadSize) <==> |data| == 0 || |data| >= 16777216
    ensures r == Error(BadSize) <==> !(0 < |data| < MAX_METAINFO)
    ensures r == Panicked <==> 0 < |data| < MAX_METAINFO && Read(data, 0).Panic?
    ensures r == Error(BadMetainfo) <==> 0 < |data| < MAX_METAINFO && Read(data, 0).Fail?
    ensures r == Error(NoInfo) <==>
      0 < |data| < MAX_METAINFO && Read(data, 0).Ok? && !HasField(Read(data, 0).value, INFO)
    ensures 0 < |data| < MAX_METAINFO && Read(data, 0).Ok? && HasField(Read(data, 0).value, INFO) ==>
      (r.Manifest? <==> InfoFits(Field(Read(data, 0).value, INFO), safe))
    ensures r.Manifest? ==> Tiles(r.files) && FilesOf(r.files, Field(Read(data, 0).value, INFO), safe)
    ensures r.Error? && 0 < |data| < MAX_METAINFO && Read(data, 0).Ok? && HasField(Read(data, 0).value, INFO) ==>
      IsInfoError(r.error, Field(Read(data, 0).value, INFO), safe)
  {
    if |data| == 0 || |data| >= MAX_METAINFO {
      return Error(BadSize);
    }
    var root := ReadBNode(data, 0);
    if root.Panic? {
      return Panicked;
    }
    if root.Fail? {
      return Error(BadMetainfo);
    }
    if !HasField(root.value, INFO) {
      return Error(NoInfo);
    }
    r := ParseInfo(Field(root.value, INFO), safe);
  }

  method ParseInfo(info: Node, safe: PathCheck) returns (r: Result)
    ensures r.Manifest? <==> InfoFits(info, safe)
    ensures r.Manifest? ==> Tiles(r.files) && FilesOf(r.files, info, safe)
    ensures r.Error? ==> IsInfoError(r.error, info, safe)
    ensures !r.Panicked?
  {
    if HasField(info, FILES) {
      r := ParseFiles(Elements(Field(info, FILES)), safe);
    } else {
      r := ParseSingle(info, safe);
    }
  }

  method ParseSingle(info: Node, safe: PathCheck) returns (r: Result)
    ensures var path, length := safe(SingleName(info)), Length(Field(info, LENGTH));
      r == if length.None? then Error(BadLength)
           else if path.None? then Error(UnsafePath)
           else Manifest([File(0, path.value, length.value, 0)])
    ensures r.Manifest? ==> Tiles(r.files)
  {
    var length := Length(Field(info, LENGTH));
    if length.None? {
      return Error(BadLength);
    }
    var name := ValueOf(Field(info, NAME));
    if name == [] {
      name := CONTENT;
    }
    var path := safe(name);
    if path.None? {
      return Error(UnsafePath);
    }
    return Manifest([File(0, path.value, length.value, 0)]);
  }

  // ----- consequences of tiling -----

  lemma {:induction false} TotalIsMonotone(files: seq<File>, i: nat, j: nat)
    requires i <= j <= |files|
    ensures TotalSize(files[..i]) <= TotalSize(files[..j])
    decreases j
  {
    if i < j {
      assert files[..j][..j - 1] == files[..j - 1];
      TotalIsMonotone(files, i, j - 1);
    }
  }

  lemma PrefixStep(files: seq<File>, i: nat)
    requires i < |files|
    ensures TotalSize(files[..i + 1]) == TotalSize(files[..i]) + files[i].size
  {
    assert files[..i + 1][..i] == files[..i];
  }

  /** The file that holds byte `t` of the torrent. */
  predicate Covers(f: File, t: nat) {
    f.offset <= t < f.offset + f.size
  }

  /** The files partition the torrent: every byte of it lies in exactly one file, and no file
      reaches past its end. */
  lemma FilesPartition(files: seq<File>, t: nat)
    requires Tiles(files)
    ensures t < TotalSize(files) <==> exists i :: 0 <= i < |files| && Covers(files[i], t)
    ensures forall i, j :: 0 <= i < j < |files| ==> !(Covers(files[i], t) && Covers(files[j], t))
  {
    forall i | 0 <= i < |files|
      ensures files[i].offset + files[i].size <= TotalSize(files)
    {
      PrefixStep(files, i);
      TotalIsMonotone(files, i + 1, |files|);
      assert files[..|files|] == files;
    }
    forall i, j | 0 <= i < j < |files| ensures !(Covers(files[i], t) && Covers(files[j], t)) {
      PrefixStep(files, i);
      TotalIsMonotone(files, i + 1, j);
    }
    if t < TotalSize(files) {
      assert files[..|files|] == files;
      var _ := FindFile(files, t, |files|);
    }
  }

  lemma {:induction false} FindFile(files: seq<File>, t: nat, n: nat) returns (i: nat)
    requires Tiles(files) && n <= |files|
    requires t < TotalSize(files[..n])
    ensures i < n && Covers(files[i], t)
    decreases n
  {
    assert n > 0;
    PrefixStep(files, n - 1);
    if t < TotalSize(files[..n - 1]) {
      i := FindFile(files, t, n - 1);
    } else {
      i := n - 1;
    }
  }
}
