/** What the Blender canonicalizer does to files as Blender writes them: every pointer becomes zero and
    nothing else changes, for each header, pointer size and byte order. */
module BlendFiles {
  import opened Base
  import opened Blender

  // ---------------------------------------------------------------- a writer of .blend files

  /** The header of Blender 4.x, always with 64-bit pointers, and the one before with either size. */
  datatype Header =
    | Modern(littleEndian: bool, format: Bytes, version: Bytes)
    | Legacy(wide: bool, littleEndian: bool, version: Bytes)

  predicate HeaderOk(h: Header) {
    match h
    case Modern(_, format, version) => |format| == 3 && |version| == 4
    case Legacy(_, _, version) => |version| == 3
  }

  /** `BLENDER17-01v0405`, or `BLENDER-v280` with '-' for 64 bits and '_' for 32, 'v' for little-endian. */
  function WriteHeader(h: Header): (b: Bytes)
    requires HeaderOk(h)
    ensures |b| == if h.Modern? then 17 else 12
  {
    var name: Bytes := [66, 76, 69, 78, 68, 69, 82];
    var order: Bytes := if h.littleEndian then [118] else [86];
    match h
    case Modern(_, format, version) => name + [49, 55] + format + order + version
    case Legacy(wide, _, version) => name + (if wide then [45] else [95]) + order + version
  }

  function PointerSize(h: Header): nat {
    if h.Legacy? && !h.wide then 4 else 8
  }

  /** A file block; its size field is the length of the payload. */
  datatype FileBlock = FileBlock(code: Bytes, pointer: Bytes, sdna: Bytes, count: Bytes, payload: Bytes)

  predicate BlockOk(h: Header, b: FileBlock) {
    && |b.code| == 4 && b.code != [69, 78, 68, 66]
    && |b.pointer| == PointerSize(h) && |b.sdna| == 4 && |b.count| == 4
    && |b.payload| < 0x1_0000_0000
  }

  /** Four bytes of a number, lowest first or highest first. */
  function WriteU32(littleEndian: bool, n: nat): (b: Bytes)
    requires n < 0x1_0000_0000
    ensures |b| == 4
  {
    var b0, b1, b2, b3 := n % 256, n / 256 % 256, n / 65536 % 256, n / 16777216;
    if littleEndian then [b0 as byte, b1 as byte, b2 as byte, b3 as byte]
    else [b3 as byte, b2 as byte, b1 as byte, b0 as byte]
  }

  function WriteBlock(h: Header, b: FileBlock): (bytes: Bytes)
    requires BlockOk(h, b)
    ensures |bytes| == 16 + PointerSize(h) + |b.payload|
  {
    b.code + WriteU32(h.littleEndian, |b.payload|) + b.pointer + b.sdna + b.count + b.payload
  }

  predicate BlocksOk(h: Header, bs: seq<FileBlock>) {
    forall i :: 0 <= i < |bs| ==> BlockOk(h, bs[i])
  }

  function WriteBlocks(h: Header, bs: seq<FileBlock>): Bytes
    requires BlocksOk(h, bs)
  {
    if bs == [] then [] else WriteBlock(h, bs[0]) + WriteBlocks(h, bs[1..])
  }

  function Write(h: Header, bs: seq<FileBlock>, tail: Bytes): Bytes
    requires HeaderOk(h) && BlocksOk(h, bs)
  {
    WriteHeader(h) + WriteBlocks(h, bs) + tail
  }

  function WithoutPointers(h: Header, bs: seq<FileBlock>): (zs: seq<FileBlock>)
    ensures |zs| == |bs|
    ensures forall i :: 0 <= i < |bs| ==> zs[i] == bs[i].(pointer := seq(PointerSize(h), j => 0))
  {
    seq(|bs|, i requires 0 <= i < |bs| => bs[i].(pointer := seq(PointerSize(h), j => 0)))
  }

  /** Where the walk ends although bytes are left: the end marker with room for a whole block header, or a
      block that promises more payload than there is. */
  predicate StopsWithHeader(h: Header, tail: Bytes) {
    && |tail| >= 16 + PointerSize(h)
    && (|| tail[..4] == [69, 78, 68, 66]
        || exists n: nat :: n < 0x1_0000_0000 && tail[4..8] == WriteU32(h.littleEndian, n) && 16 + PointerSize(h) + n > |tail|)
  }

  /** A leftover too short for a block header. */
  predicate TooShort(h: Header, tail: Bytes) {
    |tail| < 16 + PointerSize(h)
  }

  // ---------------------------------------------------------------- reading back

  lemma ReadU32(littleEndian: bool, n: nat)
    requires n < 0x1_0000_0000
    ensures U32(littleEndian, WriteU32(littleEndian, n)) == n
  {
    var q1, q2 := n / 256, n / 65536;
    assert n / 65536 == q1 / 256 && n / 16777216 == q2 / 256 == q1 / 65536;
  }

  function AbiOf(h: Header): BlendAbi {
    BlendAbi(PointerSize(h), h.littleEndian, if h.Modern? then 17 else 12)
  }

  /** The header says which ABI the file has. */
  lemma HeaderAbi(h: Header, rest: Bytes)
    requires HeaderOk(h)
    ensures ParseAbi(WriteHeader(h) + rest) == Some(AbiOf(h))
  {
    var data := WriteHeader(h) + rest;
    assert data[..7] == MAGIC;
  }

  lemma BlockParts(h: Header, b: FileBlock, before: Bytes, rest: Bytes)
    requires BlockOk(h, b)
    ensures var data, o := before + WriteBlock(h, b) + rest, |before|;
            && |data| == o + 16 + PointerSize(h) + |b.payload| + |rest|
            && data[o..o + 4] == b.code && data[o + 4..o + 8] == WriteU32(h.littleEndian, |b.payload|)
            && data[o..o + 8] == b.code + WriteU32(h.littleEndian, |b.payload|)
            && data[o + 8 + PointerSize(h)..o + 16 + PointerSize(h) + |b.payload|] == b.sdna + b.count + b.payload
  {
    hide WriteU32;
    FieldsAt(before, b.code, WriteU32(h.littleEndian, |b.payload|), b.pointer, b.sdna + b.count + b.payload, rest);
    assert b.code + WriteU32(h.littleEndian, |b.payload|) + b.pointer + b.sdna + b.count + b.payload
        == b.code + WriteU32(h.littleEndian, |b.payload|) + b.pointer + (b.sdna + b.count + b.payload);
  }

  lemma FieldsAt(before: Bytes, a: Bytes, b: Bytes, c: Bytes, d: Bytes, rest: Bytes)
    ensures var data, o := before + (a + b + c + d) + rest, |before|;
            && |data| == o + |a| + |b| + |c| + |d| + |rest|
            && data[o..o + |a|] == a && data[o + |a|..o + |a| + |b|] == b && data[o..o + |a| + |b|] == a + b
            && data[o + |a| + |b| + |c|..o + |a| + |b| + |c| + |d|] == d
  {
  }

  /** A written block is walked, to its very end. */
  lemma BlockIsWalked(h: Header, b: FileBlock, before: Bytes, rest: Bytes)
    requires BlockOk(h, b)
    ensures var data, o := before + WriteBlock(h, b) + rest, |before|;
            IsBlock(data, AbiOf(h), o) && BlockTotal(data, AbiOf(h), o) == 16 + PointerSize(h) + |b.payload|
  {
    hide U32, WriteU32, WriteBlock;
    BlockParts(h, b, before, rest);
    ReadU32(h.littleEndian, |b.payload|);
  }

  lemma TailStops(h: Header, before: Bytes, tail: Bytes)
    requires StopsWithHeader(h, tail) || TooShort(h, tail)
    ensures !IsBlock(before + tail, AbiOf(h), |before|)
  {
    hide U32, WriteU32;
    var data, o := before + tail, |before|;
    if StopsWithHeader(h, tail) {
      assert data[o..o + 4] == tail[..4] && data[o + 4..o + 8] == tail[4..8];
      if tail[..4] != ENDB {
        var n: nat :| n < 0x1_0000_0000 && tail[4..8] == WriteU32(h.littleEndian, n) && 16 + PointerSize(h) + n > |tail|;
        ReadU32(h.littleEndian, n);
      }
    }
  }

  /** From any point of the walk on, the rest of the blocks are copied with their pointers zeroed. */
  lemma {:induction false} WalkBlocks(h: Header, before: Bytes, bs: seq<FileBlock>, tail: Bytes, done: seq<nat>, out: Bytes)
    requires BlocksOk(h, bs) && (StopsWithHeader(h, tail) || TooShort(h, tail))
    requires AbiOf(h).headerEnd <= |before|
    requires CopiedTo(before + WriteBlocks(h, bs) + tail, AbiOf(h), done, |before|, out)
    ensures var data := before + WriteBlocks(h, bs) + tail;
            && Zeroed(data, AbiOf(h))
               == out + WriteBlocks(h, WithoutPointers(h, bs)) + (if StopsWithHeader(h, tail) then tail else [])
            && |Blocks(data, AbiOf(h), AbiOf(h).headerEnd)| == |done| + |bs|
    decreases bs
  {
    hide *;
    if bs == [] {
      WalkEnds(h, before, tail, done, out);
    } else {
      NextBlock(h, before, bs, tail, done, out);
      FirstBlock(h, bs);
      ZeroBlocksStep(h, bs);
      AbiParts(h);
      var b, z := bs[0], WithoutPointers(h, bs)[0];
      WalkBlocks(h, before + WriteBlock(h, b), bs[1..], tail, done + [|before|], out + WriteBlock(h, z));
      Regroup(out, WriteBlock(h, z), WriteBlocks(h, WithoutPointers(h, bs[1..])), if StopsWithHeader(h, tail) then tail else []);
    }
  }

  lemma WalkEnds(h: Header, before: Bytes, tail: Bytes, done: seq<nat>, out: Bytes)
    requires StopsWithHeader(h, tail) || TooShort(h, tail)
    requires CopiedTo(before + WriteBlocks(h, []) + tail, AbiOf(h), done, |before|, out) && AbiOf(h).headerEnd <= |before|
    ensures var data := before + WriteBlocks(h, []) + tail;
            && Zeroed(data, AbiOf(h))
               == out + WriteBlocks(h, WithoutPointers(h, [])) + (if StopsWithHeader(h, tail) then tail else [])
            && |Blocks(data, AbiOf(h), AbiOf(h).headerEnd)| == |done|
  {
    hide CopiedTo, Zeroed, Blocks, IsBlock, WriteBlock, StopsWithHeader, BlockTotal, WithoutPointers;
    NoBlocks(h);
    var data := before + tail;
    assert before + [] + tail == data && data[|before|..] == tail && out + [] + tail == out + tail && out + [] + [] == out;
    TailStops(h, before, tail);
    CopiedAll(data, AbiOf(h), done, |before|, out);
    TailRoom(h, tail);
  }

  lemma TailRoom(h: Header, tail: Bytes)
    requires StopsWithHeader(h, tail) || TooShort(h, tail)
    ensures StopsWithHeader(h, tail) <==> FixedHeader(AbiOf(h)) <= |tail|
  {
  }

  lemma NoBlocks(h: Header)
    ensures WriteBlocks(h, []) == [] && WithoutPointers(h, []) == []
  {
  }

  lemma ZeroBlocksStep(h: Header, bs: seq<FileBlock>)
    requires BlocksOk(h, bs) && bs != []
    ensures BlocksOk(h, WithoutPointers(h, bs)) && BlocksOk(h, WithoutPointers(h, bs[1..])) && BlocksOk(h, bs[1..])
    ensures BlockOk(h, WithoutPointers(h, bs)[0])
    ensures WriteBlocks(h, WithoutPointers(h, bs))
         == WriteBlock(h, WithoutPointers(h, bs)[0]) + WriteBlocks(h, WithoutPointers(h, bs[1..]))
  {
    hide WriteBlock;
    assert WithoutPointers(h, bs)[1..] == WithoutPointers(h, bs[1..]);
  }

  /** One step of the walk over written blocks. */
  lemma NextBlock(h: Header, before: Bytes, bs: seq<FileBlock>, tail: Bytes, done: seq<nat>, out: Bytes)
    requires BlocksOk(h, bs) && bs != []
    requires CopiedTo(before + WriteBlocks(h, bs) + tail, AbiOf(h), done, |before|, out)
    ensures BlocksOk(h, bs[1..]) && BlockOk(h, WithoutPointers(h, bs)[0])
    ensures before + WriteBlocks(h, bs) + tail == before + WriteBlock(h, bs[0]) + WriteBlocks(h, bs[1..]) + tail
    ensures CopiedTo(before + WriteBlock(h, bs[0]) + WriteBlocks(h, bs[1..]) + tail, AbiOf(h), done + [|before|],
                     |before + WriteBlock(h, bs[0])|, out + WriteBlock(h, WithoutPointers(h, bs)[0]))
  {
    hide *;
    FirstBlock(h, bs);
    var b := bs[0];
    var z := WithoutPointers(h, bs)[0];
    var more := WriteBlocks(h, bs[1..]);
    var data := before + WriteBlocks(h, bs) + tail;
    Regroup(before, WriteBlock(h, b), more, tail);
    BlockIsWalked(h, b, before, more + tail);
    BlockParts(h, b, before, more + tail);
    CopiedBlock(data, AbiOf(h), done, |before|, out);
    AbiParts(h);
    ZeroBlock(h, b, z);
    var p := PointerSize(h);
    Append(out, b.code + WriteU32(h.littleEndian, |b.payload|), Zeros(p), b.sdna + b.count + b.payload);
  }

  lemma FirstBlock(h: Header, bs: seq<FileBlock>)
    requires BlocksOk(h, bs) && bs != []
    ensures BlockOk(h, bs[0]) && BlocksOk(h, bs[1..])
    ensures WriteBlocks(h, bs) == WriteBlock(h, bs[0]) + WriteBlocks(h, bs[1..])
    ensures WithoutPointers(h, bs)[0] == bs[0].(pointer := Zeros(PointerSize(h)))
  {
    assert seq(PointerSize(h), j => 0) == Zeros(PointerSize(h));
  }

  lemma Regroup(a: Bytes, b: Bytes, c: Bytes, d: Bytes)
    ensures a + (b + c) + d == a + b + (c + d) == a + b + c + d
  {
  }

  lemma Append(out: Bytes, a: Bytes, z: Bytes, c: Bytes)
    ensures out + a + z + c == out + (a + z + c)
  {
  }

  lemma AbiParts(h: Header)
    ensures AbiOf(h).ptrSize == PointerSize(h) && FixedHeader(AbiOf(h)) == 16 + PointerSize(h)
  {
  }

  lemma ZeroBlock(h: Header, b: FileBlock, z: FileBlock)
    requires BlockOk(h, b) && z == b.(pointer := Zeros(PointerSize(h)))
    ensures BlockOk(h, z)
    ensures WriteBlock(h, z)
         == b.code + WriteU32(h.littleEndian, |b.payload|) + Zeros(PointerSize(h)) + (b.sdna + b.count + b.payload)
  {
    hide WriteU32;
  }

  // ---------------------------------------------------------------- the law

  /** Zeroing a written file is writing the same blocks with zero pointers, every block counted; an end
      marker or a truncated block and all behind it is kept, a leftover too short for a header dropped. */
  lemma WrittenIsZeroed(h: Header, bs: seq<FileBlock>, tail: Bytes)
    requires HeaderOk(h) && BlocksOk(h, bs) && (StopsWithHeader(h, tail) || TooShort(h, tail))
    ensures ParseAbi(Write(h, bs, tail)) == Some(AbiOf(h)) && BlocksOk(h, WithoutPointers(h, bs))
    ensures Zeroed(Write(h, bs, tail), AbiOf(h))
         == Write(h, WithoutPointers(h, bs), if StopsWithHeader(h, tail) then tail else [])
    ensures |Blocks(Write(h, bs, tail), AbiOf(h), AbiOf(h).headerEnd)| == |bs|
  {
    hide CopiedTo, Zeroed, Blocks, WriteBlock, StopsWithHeader, WriteHeader, ParseAbi, WithoutPointers;
    var data := Write(h, bs, tail);
    assert data == WriteHeader(h) + (WriteBlocks(h, bs) + tail);
    HeaderAbi(h, WriteBlocks(h, bs) + tail);
    assert data[..AbiOf(h).headerEnd] == WriteHeader(h);
    CopiedNothing(data, AbiOf(h));
    WalkBlocks(h, WriteHeader(h), bs, tail, [], WriteHeader(h));
    ZeroesOk(h, bs);
  }

  lemma ZeroesOk(h: Header, bs: seq<FileBlock>)
    requires BlocksOk(h, bs)
    ensures BlocksOk(h, WithoutPointers(h, bs))
  {
  }
}
