/** Puffin files: `PuffinFileBuilder::Build`, `PuffinFile::Make` and `GetBlob`.  The JSON codec of
    the footer is a parameter; `None` stands for a raised error. */
module Puffin {
  import opened Order
  import opened Plan
  import opened Cells

  datatype Blob = Blob(data: seq<byte>, properties: map<string, string>, fields: seq<int>, blobType: string)

  datatype BlobMetadata = BlobMetadata(
    blobType: string,
    fields: seq<int>,
    snapshotId: int,
    sequenceNumber: int,
    offset: int,
    length: int,
    compressionCodec: Option<string>,
    properties: map<string, string>)

  datatype Footer = Footer(blobs: seq<BlobMetadata>, properties: map<string, string>)

  /** Serialisation of the footer and its inverse. */
  datatype Codec = Codec(encode: Footer -> seq<byte>, decode: seq<byte> -> Option<Footer>)

  datatype PuffinFile = PuffinFile(data: seq<byte>, payload: seq<byte>)

  const Magic: seq<byte> := [0x50, 0x46, 0x41, 0x31]

  /** The four characters '0', whose lowest bit says "not compressed". */
  const Flags: seq<byte> := [0x30, 0x30, 0x30, 0x30]

  function FromLittleEndian(s: seq<byte>): nat
  {
    if s == [] then 0 else s[0] as int + 256 * FromLittleEndian(s[1..])
  }

  lemma {:induction false} LittleEndianRoundTrip(n: nat, width: nat)
    requires n < Pow2(8 * width)
    ensures FromLittleEndian(LittleEndian(n, width)) == n
  {
    if width > 0 {
      ShiftByte(n, width);
      LittleEndianRoundTrip(n / 256, width - 1);
      assert LittleEndian(n, width)[1..] == LittleEndian(n / 256, width - 1);
    }
  }

  /** The 32 bits as a signed number. */
  function Signed(n: nat): int
  {
    if n < 0x8000_0000 then n else n - 0x1_0000_0000
  }

  // ----- Parsing -----

  function ParseTrailerView(trailer: seq<byte>): Option<int>
  {
    if |trailer| < 12 || trailer[8..12] != Magic || trailer[4] % 2 == 1 then None
    else Some(Signed(FromLittleEndian(trailer[..4])))
  }

  function ExtractPayload(view: seq<byte>): Option<seq<byte>>
  {
    if |view| < 4 || view[..4] != Magic then None else Some(view[4..])
  }

  /** `substr`: a count that is negative before its conversion, or too large, means the rest. */
  function Substr(data: seq<byte>, pos: nat, count: int): seq<byte>
    requires pos <= |data|
  {
    if count < 0 || pos + count > |data| then data[pos..] else data[pos..pos + count]
  }

  /** The greatest size to which 16 can be added in 32 bits. */
  const MaxFooter: int := 0x7FFF_FFEF

  /** The size is compared as an unsigned 64-bit number, so that sizes from -16 to -1 pass; the
      position behind it is computed in 32 bits, and one that overflows lies outside the file. */
  function MakeFooter(data: seq<byte>): Option<seq<byte>>
  {
    if |data| < 16 then None else
      match ParseTrailerView(data[|data| - 12..])
      case None => None
      case Some(n) =>
        if n < -16 || n > MaxFooter || |data| < 16 + n then None
        else ExtractPayload(Substr(data, |data| - (16 + n), 4 + n))
  }

  function Make(data: seq<byte>): Option<PuffinFile>
  {
    if |data| < 4 || data[..4] != Magic then None else
      match MakeFooter(data)
      case None => None
      case Some(payload) => Some(PuffinFile(data, payload))
  }

  function GetBlob(file: PuffinFile, codec: Codec, i: nat): Option<seq<byte>>
  {
    match codec.decode(file.payload)
    case None => None
    case Some(footer) =>
      if i >= |footer.blobs| then None else
        var offset, length := footer.blobs[i].offset, footer.blobs[i].length;
        if offset >= 0 && length >= 0 && offset + length < |file.data| then Some(file.data[offset..offset + length])
        else None
  }

  function GetBlobMetadata(file: PuffinFile, codec: Codec, i: nat): Option<BlobMetadata>
  {
    match codec.decode(file.payload)
    case None => None
    case Some(footer) => if i < |footer.blobs| then Some(footer.blobs[i]) else None
  }

  // ----- Building -----

  /** All blobs one after another. */
  function Data(blobs: seq<Blob>): seq<byte>
  {
    if blobs == [] then [] else Data(blobs[..|blobs|-1]) + blobs[|blobs|-1].data
  }

  /** Where blob `i` starts: behind the magic and the blobs before it. */
  function Offset(blobs: seq<Blob>, i: nat): nat
    requires i <= |blobs|
  {
    4 + |Data(blobs[..i])|
  }

  function Describe(b: Blob, offset: int, sequenceNumber: int, snapshotId: int): BlobMetadata
  {
    BlobMetadata(b.blobType, b.fields, snapshotId, sequenceNumber, offset, |b.data|, None, b.properties)
  }

  /** The metadata of all blobs, each with the offset where its data begins. */
  function Described(blobs: seq<Blob>, sequenceNumber: int, snapshotId: int): (r: seq<BlobMetadata>)
    ensures |r| == |blobs|
  {
    if blobs == [] then [] else
      var init := blobs[..|blobs|-1];
      Described(init, sequenceNumber, snapshotId)
      + [Describe(blobs[|blobs|-1], 4 + |Data(init)|, sequenceNumber, snapshotId)]
  }

  lemma {:induction false} DescribedAt(blobs: seq<Blob>, sequenceNumber: int, snapshotId: int, i: nat)
    requires i < |blobs|
    ensures Described(blobs, sequenceNumber, snapshotId)[i]
            == Describe(blobs[i], Offset(blobs, i), sequenceNumber, snapshotId)
  {
    if i < |blobs| - 1 {
      DescribedAt(blobs[..|blobs|-1], sequenceNumber, snapshotId, i);
      assert blobs[..|blobs|-1][..i] == blobs[..i];
    }
  }

  function FooterOf(blobs: seq<Blob>, sequenceNumber: int, snapshotId: int): Footer
  {
    Footer(Described(blobs, sequenceNumber, snapshotId), map["created-by" := "iceberg-cpp"])
  }

  /** The footer size is cut to 32 bits. */
  function Trailer(size: nat): (r: seq<byte>)
    ensures |r| == 12
  {
    LittleEndian(size % 0x1_0000_0000, 4) + Flags + Magic
  }

  /** The file around the blobs. */
  function Assemble(data: seq<byte>, footer: seq<byte>): (r: seq<byte>)
    ensures |r| == 20 + |data| + |footer|
  {
    (Magic + data) + (Magic + footer) + Trailer(|footer|)
  }

  lemma {:induction false} DataSnoc(blobs: seq<Blob>, i: nat)
    requires i < |blobs|
    ensures Data(blobs[..i+1]) == Data(blobs[..i]) + blobs[i].data
  {
    assert blobs[..i+1][..i] == blobs[..i];
  }

  lemma {:induction false} DescribedSnoc(blobs: seq<Blob>, sequenceNumber: int, snapshotId: int, i: nat)
    requires i < |blobs|
    ensures Described(blobs[..i+1], sequenceNumber, snapshotId)
            == Described(blobs[..i], sequenceNumber, snapshotId)
               + [Describe(blobs[i], Offset(blobs, i), sequenceNumber, snapshotId)]
  {
    assert blobs[..i+1][..i] == blobs[..i];
  }

  class PuffinFileBuilder {
    var blobs: seq<Blob>
    var sequenceNumber: Option<int>
    var snapshotId: Option<int>

    constructor ()
      ensures blobs == [] && sequenceNumber == None && snapshotId == None
    {
      blobs, sequenceNumber, snapshotId := [], None, None;
    }

    method SetSequenceNumber(n: int)
      modifies this`sequenceNumber
      ensures sequenceNumber == Some(n)
    {
      sequenceNumber := Some(n);
    }

    method SetSnapshotId(n: int)
      modifies this`snapshotId
      ensures snapshotId == Some(n)
    {
      snapshotId := Some(n);
    }

    method AppendBlob(blob: Blob)
      modifies this`blobs
      ensures blobs == old(blobs) + [blob]
    {
      blobs := blobs + [blob];
    }

    /** Fails without blobs, sequence number or snapshot id; otherwise the assembled file is
        parsed back. */
    method Build(codec: Codec) returns (r: Option<PuffinFile>)
      ensures blobs == [] || sequenceNumber.None? || snapshotId.None? ==> r == None
      ensures blobs != [] && sequenceNumber.Some? && snapshotId.Some? ==>
                r == Make(Assemble(Data(blobs), codec.encode(FooterOf(blobs, sequenceNumber.value, snapshotId.value))))
    {
      if blobs == [] || sequenceNumber.None? || snapshotId.None? {
        return None;
      }
      var metas: seq<BlobMetadata> := [];
      var result := Magic;
      for i := 0 to |blobs|
        invariant result == Magic + Data(blobs[..i])
        invariant metas == Described(blobs[..i], sequenceNumber.value, snapshotId.value)
      {
        DescribedSnoc(blobs, sequenceNumber.value, snapshotId.value, i);
        DataSnoc(blobs, i);
        metas := metas + [Describe(blobs[i], |result|, sequenceNumber.value, snapshotId.value)];
        SeqAssociative(Magic, Data(blobs[..i]), blobs[i].data);
        result := result + blobs[i].data;
      }
      assert blobs[..|blobs|] == blobs;
      var footer := codec.encode(Footer(metas, map["created-by" := "iceberg-cpp"]));
      ghost var before := result;
      result := result + Magic;
      result := result + footer;
      result := result + LittleEndian(|footer| % 0x1_0000_0000, 4);
      result := result + Flags;
      result := result + Magic;
      Appended(before, footer);
      r := Make(result);
    }
  }

  lemma {:induction false} Appended(before: seq<byte>, footer: seq<byte>)
    ensures ((((before + Magic) + footer) + LittleEndian(|footer| % 0x1_0000_0000, 4)) + Flags) + Magic
            == before + (Magic + footer) + Trailer(|footer|)
  {
    SeqAssociative(before, Magic, footer);
    var head, size := before + (Magic + footer), LittleEndian(|footer| % 0x1_0000_0000, 4);
    SeqAssociative(head, size, Flags);
    SeqAssociative(head, size + Flags, Magic);
  }

  // ----- Round trip -----

  lemma {:induction false} Middle(a: seq<byte>, b: seq<byte>, c: seq<byte>)
    ensures |a + b + c| == |a| + |b| + |c|
    ensures (a + b + c)[|a|..|a| + |b|] == b && (a + b + c)[|a| + |b|..] == c && (a + b + c)[..|a|] == a
  {
  }

  /** The trailer carries the footer size as a signed 32-bit number. */
  lemma {:induction false} TrailerParses(size: nat)
    ensures ParseTrailerView(Trailer(size)) == Some(Signed(size % 0x1_0000_0000))
  {
    var n := size % 0x1_0000_0000;
    var trailer := Trailer(size);
    assert trailer[8..12] == Magic && trailer[..4] == LittleEndian(n, 4) && trailer[4] == 0x30;
    Pow2Values();
    LittleEndianRoundTrip(n, 4);
  }

  lemma {:induction false} TrailerFound(data: seq<byte>, footer: seq<byte>)
    ensures Assemble(data, footer)[8 + |data| + |footer|..] == Trailer(|footer|)
    ensures Assemble(data, footer)[..4] == Magic
  {
    Middle(Magic + data, Magic + footer, Trailer(|footer|));
    assert Assemble(data, footer)[..4] == (Magic + data)[..4];
  }

  /** A footer that is not too long is found again. */
  lemma {:induction false} FooterFound(data: seq<byte>, footer: seq<byte>)
    requires |footer| <= MaxFooter
    ensures MakeFooter(Assemble(data, footer)) == Some(footer)
  {
    SizeFound(data, footer);
    PayloadFound(data, footer);
  }

  lemma {:induction false} SizeFound(data: seq<byte>, footer: seq<byte>)
    requires |footer| < 0x8000_0000
    ensures ParseTrailerView(Assemble(data, footer)[8 + |data| + |footer|..]) == Some(|footer|)
  {
    TrailerFound(data, footer);
    TrailerParses(|footer|);
    RightSize(|footer|);
  }

  lemma {:induction false} RightSize(size: nat)
    requires size < 0x8000_0000
    ensures Signed(size % 0x1_0000_0000) == size
  {
  }

  lemma {:induction false} PayloadFound(data: seq<byte>, footer: seq<byte>)
    ensures Substr(Assemble(data, footer), 4 + |data|, 4 + |footer|) == Magic + footer
    ensures ExtractPayload(Magic + footer) == Some(footer)
  {
    Middle(Magic + data, Magic + footer, Trailer(|footer|));
    assert (Magic + footer)[4..] == footer && (Magic + footer)[..4] == Magic;
  }

  lemma {:induction false} PayloadLength(file: seq<byte>, n: int)
    requires |file| >= 16 && ParseTrailerView(file[|file| - 12..]) == Some(n) && MakeFooter(file).Some?
    ensures |MakeFooter(file).value| == n || |MakeFooter(file).value| < 8
  {
  }

  /** The footer written is the one read exactly up to 0x7FFF_FFEF bytes. */
  lemma {:induction false} FooterFoundExactly(data: seq<byte>, footer: seq<byte>)
    ensures MakeFooter(Assemble(data, footer)) == Some(footer) <==> |footer| <= 0x7FFF_FFEF
  {
    if |footer| <= MaxFooter {
      FooterFound(data, footer);
    } else if |footer| < 0x8000_0000 {
      SizeFound(data, footer);
    } else if MakeFooter(Assemble(data, footer)).Some? {
      TrailerFound(data, footer);
      TrailerParses(|footer|);
      WrongSize(|footer|);
      PayloadLength(Assemble(data, footer), Signed(|footer| % 0x1_0000_0000));
    }
  }

  lemma {:induction false} WrongSize(size: nat)
    requires size >= 0x8000_0000
    ensures Signed(size % 0x1_0000_0000) != size
  {
  }

  /** Blobs follow each other without gap or overlap, from behind the first magic up to the
      second. */
  lemma {:induction false} BlobsTile(blobs: seq<Blob>, i: nat)
    requires i < |blobs|
    ensures Offset(blobs, 0) == 4 && Offset(blobs, |blobs|) == 4 + |Data(blobs)|
    ensures Offset(blobs, i) + |blobs[i].data| == Offset(blobs, i + 1) <= 4 + |Data(blobs)|
  {
    DataSnoc(blobs, i);
    DataSplit(blobs, i + 1);
    assert blobs[..|blobs|] == blobs;
  }

  lemma {:induction false} MagicBehindBlobs(blobs: seq<Blob>, footer: seq<byte>)
    ensures Assemble(Data(blobs), footer)[4 + |Data(blobs)|..8 + |Data(blobs)|] == Magic
  {
    Middle(Magic + Data(blobs), Magic + footer, Trailer(|footer|));
    var file, n := Assemble(Data(blobs), footer), 4 + |Data(blobs)|;
    assert file[n..n + 4] == file[n..n + 4 + |footer|][..4];
  }

  lemma {:induction false} DataSplit(blobs: seq<Blob>, k: nat)
    requires k <= |blobs|
    ensures Data(blobs) == Data(blobs[..k]) + Data(blobs[k..])
  {
    if k == |blobs| {
      assert blobs[..k] == blobs;
    } else {
      var n := |blobs| - 1;
      DataSplit(blobs[..n], k);
      assert blobs[..n][..k] == blobs[..k] && blobs[..n][k..] == blobs[k..][..n-k];
      SeqAssociative(Data(blobs[..k]), Data(blobs[k..][..n-k]), blobs[n].data);
    }
  }

  lemma {:induction false} BlobInData(blobs: seq<Blob>, i: nat)
    requires i < |blobs|
    ensures Data(blobs) == Data(blobs[..i]) + blobs[i].data + Data(blobs[i+1..])
  {
    DataSnoc(blobs, i);
    DataSplit(blobs, i + 1);
  }

  lemma {:induction false} BlobInFile(blobs: seq<Blob>, footer: seq<byte>, i: nat)
    requires i < |blobs|
    ensures Offset(blobs, i) + |blobs[i].data| <= |Assemble(Data(blobs), footer)|
    ensures Assemble(Data(blobs), footer)[Offset(blobs, i)..Offset(blobs, i) + |blobs[i].data|] == blobs[i].data
  {
    BlobInData(blobs, i);
    var before, after := Data(blobs[..i]), Data(blobs[i+1..]);
    Regroup(before, blobs[i].data, after, Magic + footer, Trailer(|footer|));
    Middle(Magic + before, blobs[i].data, after + (Magic + footer) + Trailer(|footer|));
  }

  lemma {:induction false} Regroup(a: seq<byte>, b: seq<byte>, c: seq<byte>, d: seq<byte>, e: seq<byte>)
    ensures (Magic + (a + b + c)) + d + e == (Magic + a) + b + (c + d + e)
  {
  }

  /** What was appended is what is read: for every blob list, any invertible footer codec and a
      footer of at most 0x7FFF_FFEF bytes. */
  lemma {:induction false} BlobsRoundTrip(blobs: seq<Blob>, sequenceNumber: int, snapshotId: int, codec: Codec, i: nat)
    requires i < |blobs|
    requires codec.decode(codec.encode(FooterOf(blobs, sequenceNumber, snapshotId)))
            == Some(FooterOf(blobs, sequenceNumber, snapshotId))
    requires |codec.encode(FooterOf(blobs, sequenceNumber, snapshotId))| <= 0x7FFF_FFEF
    ensures var file := Make(Assemble(Data(blobs), codec.encode(FooterOf(blobs, sequenceNumber, snapshotId))));
      file.Some? && GetBlob(file.value, codec, i) == Some(blobs[i].data)
  {
    var footer := codec.encode(FooterOf(blobs, sequenceNumber, snapshotId));
    MakeAssembled(Data(blobs), footer);
    BlobRead(blobs, sequenceNumber, snapshotId, codec, footer, i);
  }

  lemma {:induction false} MakeAssembled(data: seq<byte>, footer: seq<byte>)
    requires |footer| <= MaxFooter
    ensures Make(Assemble(data, footer)) == Some(PuffinFile(Assemble(data, footer), footer))
  {
    FooterFound(data, footer);
    TrailerFound(data, footer);
  }

  lemma {:induction false} BlobRead(blobs: seq<Blob>, sequenceNumber: int, snapshotId: int, codec: Codec,
        footer: seq<byte>, i: nat)
    requires i < |blobs| && codec.decode(footer) == Some(FooterOf(blobs, sequenceNumber, snapshotId))
    ensures GetBlob(PuffinFile(Assemble(Data(blobs), footer), footer), codec, i) == Some(blobs[i].data)
  {
    var meta := Described(blobs, sequenceNumber, snapshotId)[i];
    DescribedAt(blobs, sequenceNumber, snapshotId, i);
    assert meta.offset == Offset(blobs, i) && meta.length == |blobs[i].data|;
    BlobsTile(blobs, i);
    BlobInFile(blobs, footer, i);
  }

  /** The metadata of blob `i`: its own type, fields and properties, and the builder's numbers. */
  predicate Describes(meta: BlobMetadata, b: Blob, sequenceNumber: int, snapshotId: int)
  {
    && meta.blobType == b.blobType && meta.fields == b.fields && meta.properties == b.properties
    && meta.sequenceNumber == sequenceNumber && meta.snapshotId == snapshotId
    && meta.length == |b.data| && meta.compressionCodec == None
  }

  /** The metadata read back describe the blobs appended, and no others. */
  lemma {:induction false} MetadataRoundTrip(blobs: seq<Blob>, sequenceNumber: int, snapshotId: int, codec: Codec,
        i: nat)
    requires codec.decode(codec.encode(FooterOf(blobs, sequenceNumber, snapshotId)))
            == Some(FooterOf(blobs, sequenceNumber, snapshotId))
    requires |codec.encode(FooterOf(blobs, sequenceNumber, snapshotId))| <= 0x7FFF_FFEF
    ensures var file := Make(Assemble(Data(blobs), codec.encode(FooterOf(blobs, sequenceNumber, snapshotId))));
      && file.Some? && (GetBlobMetadata(file.value, codec, i).Some? <==> i < |blobs|)
      && (i < |blobs| ==>
          Describes(GetBlobMetadata(file.value, codec, i).value, blobs[i], sequenceNumber, snapshotId))
  {
    MakeAssembled(Data(blobs), codec.encode(FooterOf(blobs, sequenceNumber, snapshotId)));
    if i < |blobs| { DescribedAt(blobs, sequenceNumber, snapshotId, i); }
  }

  // ----- Foreign files -----

  /** The end of a file with this footer: magic, footer, its size, flags that say "not compressed",
      and the magic again. */
  ghost predicate EndsInFooter(data: seq<byte>, footer: seq<byte>, flags: seq<byte>)
  {
    && |flags| == 4 && flags[0] % 2 == 0 && |data| >= 16 + |footer|
    && data[|data| - (16 + |footer|)..] == Magic + footer + (LittleEndian(|footer|, 4) + flags + Magic)
  }

  lemma {:induction false} LowByte(b: nat, n: nat, limit: nat)
    requires b < 256 && n < limit
    ensures (b + 256 * n) % 256 == b && (b + 256 * n) / 256 == n && b + 256 * n < 256 * limit
  {
  }

  lemma {:induction false} LittleEndianInverse(s: seq<byte>)
    ensures FromLittleEndian(s) < Pow2(8 * |s|) && LittleEndian(FromLittleEndian(s), |s|) == s
  {
    if s != [] {
      LittleEndianInverse(s[1..]);
      LowByte(s[0] as int, FromLittleEndian(s[1..]), Pow2(8 * (|s| - 1)));
      EightMore(|s| - 1);
      assert s == [s[0]] + s[1..];
    }
  }

  lemma {:induction false} EightMore(n: nat)
    ensures Pow2(8 * (n + 1)) == 256 * Pow2(8 * n)
  {
    Pow2Values();
    Pow2Add(8, 8 * n);
  }

  lemma {:induction false} TrailerOf(trailer: seq<byte>, size: nat)
    requires |trailer| == 12 && size < 0x8000_0000
    ensures ParseTrailerView(trailer) == Some(size) <==>
      trailer[4] % 2 == 0 && trailer[..4] == LittleEndian(size, 4) && trailer[8..] == Magic
  {
    Pow2Values();
    LittleEndianInverse(trailer[..4]);
    LittleEndianRoundTrip(size, 4);
    assert trailer[8..12] == trailer[8..];
  }

  lemma {:induction false} FooterEnds(data: seq<byte>, footer: seq<byte>, flags: seq<byte>)
    requires EndsInFooter(data, footer, flags)
    ensures data[|data| - 12..] == LittleEndian(|footer|, 4) + flags + Magic
    ensures data[|data| - (16 + |footer|)..|data| - 12] == Magic + footer
  {
    var tail, trailer := data[|data| - (16 + |footer|)..], LittleEndian(|footer|, 4) + flags + Magic;
    assert tail[4 + |footer|..] == trailer && tail[..4 + |footer|] == Magic + footer;
    assert data[|data| - 12..] == tail[4 + |footer|..];
  }

  /** Any file, whoever wrote it: with a size that is not negative the footer found is exactly the
      one the file ends in. */
  lemma {:induction false} FooterReadExactly(data: seq<byte>, footer: seq<byte>)
    requires |data| >= 16 && |footer| <= 0x7FFF_FFEF
    requires ParseTrailerView(data[|data| - 12..]).Some? ==> ParseTrailerView(data[|data| - 12..]).value >= 0
    ensures MakeFooter(data) == Some(footer) <==> exists flags :: EndsInFooter(data, footer, flags)
  {
    var trailer := data[|data| - 12..];
    if MakeFooter(data) == Some(footer) { ReadIsEnd(data, footer); }
    if flags :| EndsInFooter(data, footer, flags) {
      FooterEnds(data, footer, flags);
      assert trailer[..4] == LittleEndian(|footer|, 4) && trailer[4..8] == flags && trailer[8..] == Magic;
      assert trailer[4] == flags[0];
      TrailerOf(trailer, |footer|);
      assert (Magic + footer)[..4] == Magic && (Magic + footer)[4..] == footer;
    }
  }

  lemma {:induction false} ReadIsEnd(data: seq<byte>, footer: seq<byte>)
    requires |data| >= 16 && MakeFooter(data) == Some(footer)
    requires ParseTrailerView(data[|data| - 12..]).Some? && ParseTrailerView(data[|data| - 12..]).value >= 0
    ensures exists flags :: EndsInFooter(data, footer, flags)
  {
    var trailer := data[|data| - 12..];
    var n := ParseTrailerView(trailer).value;
    TrailerOf(trailer, n);
    var view := data[|data| - (16 + n)..|data| - 12];
    assert view == Substr(data, |data| - (16 + n), 4 + n);
    assert view == view[..4] + view[4..];
    TrailerParts(trailer);
    TailParts(data, 16 + n, 12);
    assert EndsInFooter(data, footer, trailer[4..8]);
  }

  lemma {:induction false} TrailerParts(trailer: seq<byte>)
    requires |trailer| == 12
    ensures trailer == trailer[..4] + trailer[4..8] + trailer[8..] && trailer[4..8][0] == trailer[4]
  {
  }

  lemma {:induction false} TailParts(data: seq<byte>, n: nat, m: nat)
    requires m <= n <= |data|
    ensures data[|data| - n..] == data[|data| - n..|data| - m] + data[|data| - m..]
  {
  }

  /** A blob is read exactly when the file holds it where its metadata say, with at least one byte
      behind it. */
  lemma {:induction false} BlobReadExactly(file: PuffinFile, codec: Codec, i: nat, blob: seq<byte>)
    ensures GetBlob(file, codec, i) == Some(blob) <==>
      && GetBlobMetadata(file, codec, i).Some? && GetBlobMetadata(file, codec, i).value.length == |blob|
      && exists before, after :: after != [] && file.data == before + blob + after
                                 && |before| == GetBlobMetadata(file, codec, i).value.offset
  {
    if GetBlob(file, codec, i) == Some(blob) {
      var offset, data := GetBlobMetadata(file, codec, i).value.offset, file.data;
      assert data == data[..offset] + data[offset..offset + |blob|] + data[offset + |blob|..];
    }
    if before, after :| after != [] && file.data == before + blob + after {
      Middle(before, blob, after);
    }
  }

  // ----- Negative footer sizes -----

  lemma {:induction false} NegativeSizeBytes(s: seq<byte>, n: int)
    requires |s| == 4 && Signed(FromLittleEndian(s)) == n && -16 <= n < 0
    ensures s[1] == 0xFF && s[2] == 0xFF && s[3] == 0xFF
  {
    assert s[1..][1..] == s[2..] && s[2..][1..] == s[3..] && s[3..][1..] == [];
    var a, b, c, d := s[0] as int, s[1] as int, s[2] as int, s[3] as int;
    assert FromLittleEndian(s[3..]) == d;
    assert FromLittleEndian(s[2..]) == c + 256 * d;
    assert FromLittleEndian(s) == a + 256 * (b + 256 * (c + 256 * d));
  }

  /** Where the payload is looked for when the size is negative: inside the trailer itself. */
  lemma {:induction false} NegativeView(data: seq<byte>, n: int)
    requires |data| >= 16 && -16 <= n < 0
    ensures n < -12 || n >= -4 ==> |Substr(data, |data| - (16 + n), 4 + n)| < 4
    ensures -12 <= n < -4 ==> Substr(data, |data| - (16 + n), 4 + n) == data[|data| - 12..][-4 - n..]
  {
  }

  /** A file with a negative footer size is accepted exactly if the size is -12, when the payload
      is empty, or -8 with flags that equal the magic, when the magic is the payload. */
  lemma {:induction false} NegativeSizesExactly(data: seq<byte>, n: int)
    requires |data| >= 16 && ParseTrailerView(data[|data| - 12..]) == Some(n) && n < 0
    ensures MakeFooter(data).Some? <==> n == -12 || (n == -8 && data[|data| - 8..|data| - 4] == Magic)
    ensures n == -12 ==> MakeFooter(data) == Some([])
    ensures n == -8 && data[|data| - 8..|data| - 4] == Magic ==> MakeFooter(data) == Some(Magic)
  {
    if n >= -16 {
      var trailer := data[|data| - 12..];
      NegativeView(data, n);
      NegativeSizeBytes(trailer[..4], n);
      if -12 <= n < -4 { TrailerAsFooter(trailer, n); }
      assert trailer[4..8] == data[|data| - 8..|data| - 4];
    }
  }

  lemma {:induction false} TrailerAsFooter(trailer: seq<byte>, n: int)
    requires |trailer| == 12 && trailer[8..12] == Magic && -12 <= n < -4
    requires trailer[1] == 0xFF && trailer[2] == 0xFF && trailer[3] == 0xFF
    ensures trailer[-4 - n..][..4] == Magic <==> n == -12 || (n == -8 && trailer[4..8] == Magic)
    ensures n == -12 ==> trailer[8..][4..] == []
    ensures n == -8 ==> trailer[4..][4..] == Magic
  {
    var view := trailer[-4 - n..][..4];
    assert trailer[8..12][0] == trailer[8] && trailer[8..12][1] == trailer[9] && trailer[8..12][2] == trailer[10];
    assert view[0] == trailer[-4 - n] && view[1] == trailer[-3 - n];
    assert view[2] == trailer[-2 - n] && view[3] == trailer[-1 - n];
    if n == -12 { assert view == trailer[8..12]; }
    if n == -8 { assert view == trailer[4..8]; }
  }

  /** Sixteen bytes without any footer that are taken for a file. */
  lemma {:induction false} NegativeSizeAccepted()
    ensures var data := Magic + Trailer(0xFFFF_FFF4); Make(data) == Some(PuffinFile(data, []))
  {
    var data := Magic + Trailer(0xFFFF_FFF4);
    TrailerParses(0xFFFF_FFF4);
    assert data[|data| - 12..] == Trailer(0xFFFF_FFF4) && data[..4] == Magic;
    NegativeSizesExactly(data, -12);
  }
}
