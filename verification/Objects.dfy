/** The object store: keys and bytes. */
module Objects {
  import opened Basics
  import opened Ranges

  type Files = map<string, Bytes>

  function Zeros(n: nat): Bytes {
    seq(n, _ => 0)
  }

  /** A write of one byte: past the end of the file the hole reads as zeros. */
  function Poked(file: Bytes, pos: nat, b: byte): Bytes {
    if pos < |file| then file[pos := b] else file + Zeros(pos - |file|) + [b]
  }

  /** The file after writing `data` at `offset`; writing nothing does not extend it. */
  function Spliced(file: Bytes, offset: nat, data: Bytes): Bytes {
    if data == [] then file
    else
      var size := Max(|file|, offset + |data|);
      seq(size, i requires 0 <= i < size =>
        if offset <= i < offset + |data| then data[i - offset]
        else if i < |file| then file[i] else 0)
  }

  function FileAt(files: Files, key: string): Bytes {
    if key in files then files[key] else []
  }

  /** The file is created before its offset is looked at. */
  function WrittenAt(files: Files, key: string, offset: int, data: Bytes): Files {
    files[key := if offset < 0 then FileAt(files, key) else Spliced(FileAt(files, key), offset, data)]
  }

  function Opened(files: Files, key: string, r: ByteRange): Result<Bytes> {
    if key !in files then Failure(NoSuchObject)
    else if r.start < 0 || r.end >= |files[key]| || r.end < r.start then Failure(InvalidRange)
    else Success(files[key][r.start..r.end + 1])
  }

  function Moved(files: Files, from: string, to: string): Result<Files> {
    if from !in files then Failure(NoSuchObject)
    else Success((files - {from})[to := files[from]])
  }

  lemma SplicedOneMore(file: Bytes, offset: nat, data: Bytes, b: byte)
    ensures Poked(Spliced(file, offset, data), offset + |data|, b) == Spliced(file, offset, data + [b])
  {
    var before, after := Spliced(file, offset, data), Spliced(file, offset, data + [b]);
    var poked := Poked(before, offset + |data|, b);
    assert |poked| == |after|;
    forall i | 0 <= i < |after| ensures poked[i] == after[i] {
    }
  }

  /** Reading back what was written at an offset gives it, and a hole in front of it reads as zeros. */
  lemma WrittenReadsBack(files: Files, key: string, offset: nat, data: Bytes)
    requires data != []
    ensures
      var after, before := WrittenAt(files, key, offset, data), FileAt(files, key);
      && Opened(after, key, ByteRange(offset, offset + |data| - 1)) == Success(data)
      && (forall o :: 0 <= o < |before| && !(offset <= o < offset + |data|) ==> after[key][o] == before[o])
      && (forall o :: |before| <= o < offset ==> after[key][o] == 0)
      && |after[key]| == Max(|before|, offset + |data|)
      && after - {key} == files - {key}
  {
    var file := Spliced(FileAt(files, key), offset, data);
    assert file[offset..offset + |data|] == data;
  }

  /** An object is read exactly when it is there and the range lies in it; the bytes are those of the range. */
  lemma OpenAnswers(files: Files, key: string, r: ByteRange)
    ensures
      var o := Opened(files, key, r);
      && (o.Success? <==> key in files && 0 <= r.start <= r.end < |files[key]|)
      && (o.Success? ==> |o.value| == r.end - r.start + 1)
      && (o.Success? ==> forall i :: 0 <= i < |o.value| ==> o.value[i] == files[key][r.start + i])
      && (o.Failure? ==> o.error == if key in files then InvalidRange else NoSuchObject)
  {
  }

  /** A move takes the object, and only that, to its new key. */
  lemma MoveAnswers(files: Files, from: string, to: string)
    ensures
      var o := Moved(files, from, to);
      && (o.Success? <==> from in files)
      && (o.Failure? ==> o.error == NoSuchObject)
      && (o.Success? ==> to in o.value && o.value[to] == files[from])
      && (o.Success? ==> forall k :: k != to ==> (k in o.value <==> k in files && k != from))
      && (o.Success? ==> forall k :: k != to && k in o.value ==> o.value[k] == files[k])
  {
  }

  class LocalObjectStore {
    var files: Files

    constructor ()
      ensures files == map[]
    {
      files := map[];
    }

    method Put(key: string, data: Bytes)
      modifies this
      ensures files == old(files)[key := data]
    {
      files := files[key := data];
    }

    method WriteAt(key: string, offset: int, data: Bytes) returns (n: Result<nat>)
      modifies this
      ensures files == WrittenAt(old(files), key, offset, data)
      ensures n == if offset < 0 then Failure(NegativeOffset) else Success(|data|)
    {
      var file := if key in files then files[key] else [];
      if offset < 0 {
        files := files[key := file];
        return Failure(NegativeOffset);
      }
      ghost var start := file;
      for i := 0 to |data|
        invariant file == Spliced(start, offset, data[..i])
        invariant files == old(files)
      {
        SplicedOneMore(start, offset, data[..i], data[i]);
        assert data[..i + 1] == data[..i] + [data[i]];
        file := Poked(file, offset + i, data[i]);
      }
      assert data[..|data|] == data;
      files := files[key := file];
      return Success(|data|);
    }

    method Open(key: string, r: ByteRange) returns (data: Result<Bytes>)
      ensures data == Opened(files, key, r)
    {
      if key !in files { return Failure(NoSuchObject); }
      var size := |files[key]|;
      if r.start < 0 || r.end >= size || r.end < r.start { return Failure(InvalidRange); }
      return Success(files[key][r.start..r.end + 1]);
    }

    method Size(key: string) returns (size: Result<nat>)
      ensures size == if key in files then Success(|files[key]|) else Failure(NoSuchObject)
    {
      if key !in files { return Failure(NoSuchObject); }
      return Success(|files[key]|);
    }

    method Move(from: string, to: string) returns (o: Outcome)
      modifies this
      ensures match Moved(old(files), from, to)
              case Success(moved) => o.Pass? && files == moved
              case Failure(e) => o == Fail(e) && files == old(files)
    {
      if from !in files { return Fail(NoSuchObject); }
      var data := files[from];
      files := files - {from};
      files := files[to := data];
      return Pass;
    }

    method Delete(key: string)
      modifies this
      ensures files == old(files) - {key}
    {
      files := files - {key};
    }

    method Exists(key: string) returns (b: bool)
      ensures b <==> key in files
    {
      return key in files;
    }
  }
}
