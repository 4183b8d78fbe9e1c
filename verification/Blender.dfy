/** Blender pointer zeroing (blender/canonicalize.py): the walk over file blocks, and the proof that
    its output is a canonical form. */
module Blender {
  import opened Base

  datatype BlendAbi = BlendAbi(ptrSize: nat, littleEndian: bool, headerEnd: nat)

  /** The ABIs `_parse_abi` can return. */
  predicate KnownAbi(abi: BlendAbi) {
    (abi.ptrSize == 4 || abi.ptrSize == 8) && (abi.headerEnd == 12 || abi.headerEnd == 17)
  }

  const MAGIC: Bytes := [66, 76, 69, 78, 68, 69, 82]     // "BLENDER"
  const ENDB: Bytes := [69, 78, 68, 66]                   // "ENDB"

  /** `_parse_abi`, None when it raises. */
  function ParseAbi(data: Bytes): (abi: Option<BlendAbi>)
    ensures abi.Some? ==> KnownAbi(abi.value) && abi.value.headerEnd <= |data|
  {
    if |data| < 12 || data[..7] != MAGIC then None
    else if |data| >= 17 && data[7] == 49 && data[8] == 55 then Some(BlendAbi(8, data[12] == 118, 17))
    else Some(BlendAbi(if data[7] == 45 then 8 else 4, data[8] == 118, 12))
  }

  function FixedHeader(abi: BlendAbi): nat {
    8 + abi.ptrSize + 8
  }

  /** `struct.unpack_from('<I' or '>I', ...)`. */
  function U32(littleEndian: bool, b: Bytes): nat
    requires |b| == 4
  {
    if littleEndian then b[0] as nat + 256 * b[1] as nat + 65536 * b[2] as nat + 16777216 * b[3] as nat
    else b[3] as nat + 256 * b[2] as nat + 65536 * b[1] as nat + 16777216 * b[0] as nat
  }

  /** The size of the block at `offset`, payload included. */
  function BlockTotal(data: Bytes, abi: BlendAbi, offset: nat): (n: nat)
    requires offset + FixedHeader(abi) <= |data|
    ensures n >= FixedHeader(abi)
  {
    FixedHeader(abi) + U32(abi.littleEndian, data[offset + 4..offset + 8])
  }

  /** A whole block that is not the end marker starts at `offset`. */
  predicate IsBlock(data: Bytes, abi: BlendAbi, offset: nat) {
    && offset + FixedHeader(abi) <= |data|
    && data[offset..offset + 4] != ENDB
    && offset + BlockTotal(data, abi, offset) <= |data|
  }

  // ---------------------------------------------------------------- specification

  /** The offsets of the blocks the walk passes over, from `offset` on. */
  function Blocks(data: Bytes, abi: BlendAbi, offset: nat): seq<nat>
    decreases |data| - offset
  {
    if IsBlock(data, abi, offset) then [offset] + Blocks(data, abi, offset + BlockTotal(data, abi, offset)) else []
  }

  /** Where the walk stops. */
  function WalkEnd(data: Bytes, abi: BlendAbi, offset: nat): (end: nat)
    ensures offset <= end
    ensures offset <= |data| ==> end <= |data|
    decreases |data| - offset
  {
    if IsBlock(data, abi, offset) then WalkEnd(data, abi, offset + BlockTotal(data, abi, offset)) else offset
  }

  /** The length of the output: a tail too short for a block header is dropped, anything else is kept. */
  function KeptLength(data: Bytes, abi: BlendAbi): (n: nat)
    requires abi.headerEnd <= |data|
    ensures WalkEnd(data, abi, abi.headerEnd) <= n <= |data|
  {
    var end := WalkEnd(data, abi, abi.headerEnd);
    if end + FixedHeader(abi) <= |data| then |data| else end
  }

  predicate PointerByte(abi: BlendAbi, o: nat, i: nat) {
    o + 8 <= i < o + 8 + abi.ptrSize
  }

  /** `i` lies in the `old_ptr` field of one of the blocks. */
  predicate InPointers(abi: BlendAbi, blocks: seq<nat>, i: nat) {
    exists o :: o in blocks && PointerByte(abi, o, i)
  }

  /** `i` lies in the `old_ptr` field of a walked block. */
  predicate InPointer(data: Bytes, abi: BlendAbi, i: nat) {
    InPointers(abi, Blocks(data, abi, abi.headerEnd), i)
  }

  /** The canonical bytes: the input with every walked pointer byte zeroed, cut to the kept length. */
  function Zeroed(data: Bytes, abi: BlendAbi): (out: Bytes)
    requires abi.headerEnd <= |data|
    ensures |out| == KeptLength(data, abi)
    ensures forall i :: 0 <= i < |out| ==> out[i] == if InPointer(data, abi, i) then 0 else data[i]
  {
    seq(KeptLength(data, abi), i requires 0 <= i < KeptLength(data, abi) => if InPointer(data, abi, i) then 0 else data[i])
  }

  function Zeros(n: nat): (z: Bytes)
    ensures |z| == n && forall i :: 0 <= i < n ==> z[i] == 0
  {
    seq(n, i => 0)
  }

  // ---------------------------------------------------------------- the loop

  /** The blocks in `done` are copied into `out`, which has reached `offset`. */
  ghost predicate CopiedTo(data: Bytes, abi: BlendAbi, done: seq<nat>, offset: nat, out: Bytes) {
    && |out| == offset <= |data|
    && Blocks(data, abi, abi.headerEnd) == done + Blocks(data, abi, offset)
    && WalkEnd(data, abi, abi.headerEnd) == WalkEnd(data, abi, offset)
    && BytesCopied(data, abi, done, out)
    && (forall o :: o in done ==> o + 8 + abi.ptrSize <= offset)
  }

  ghost predicate BytesCopied(data: Bytes, abi: BlendAbi, done: seq<nat>, out: Bytes)
    requires |out| <= |data|
  {
    forall i :: 0 <= i < |out| ==> out[i] == if InPointers(abi, done, i) then 0 else data[i]
  }

  method ZeroPointers(data: Bytes, abi: BlendAbi) returns (out: Bytes, zeroed: nat)
    requires abi.headerEnd <= |data|
    ensures out == Zeroed(data, abi)
    ensures zeroed == |Blocks(data, abi, abi.headerEnd)|
  {
    hide CopiedTo, Blocks, U32;
    out := data[..abi.headerEnd];
    var offset := abi.headerEnd;
    zeroed := 0;
    var fixed := FixedHeader(abi);
    ghost var done: seq<nat> := [];
    CopiedNothing(data, abi);
    while offset + fixed <= |data|
      invariant offset <= |data| && zeroed == |done|
      invariant CopiedTo(data, abi, done, offset, out)
      decreases |data| - offset
    {
      var code := data[offset..offset + 4];
      if code == ENDB {
        CopiedAll(data, abi, done, offset, out);
        out := out + data[offset..];
        return;
      }
      var total := fixed + U32(abi.littleEndian, data[offset + 4..offset + 8]);
      if offset + total > |data| {
        CopiedAll(data, abi, done, offset, out);
        out := out + data[offset..];
        return;
      }
      CopiedBlock(data, abi, done, offset, out);
      out := out + data[offset..offset + 8];
      out := out + Zeros(abi.ptrSize);
      out := out + data[offset + 8 + abi.ptrSize..offset + total];
      done := done + [offset];
      offset := offset + total;
      zeroed := zeroed + 1;
    }
    CopiedAll(data, abi, done, offset, out);
  }

  lemma CopiedNothing(data: Bytes, abi: BlendAbi)
    requires abi.headerEnd <= |data|
    ensures CopiedTo(data, abi, [], abi.headerEnd, data[..abi.headerEnd])
  {
  }

  lemma CopiedBlock(data: Bytes, abi: BlendAbi, done: seq<nat>, offset: nat, out: Bytes)
    requires IsBlock(data, abi, offset) && CopiedTo(data, abi, done, offset, out)
    ensures var next := offset + BlockTotal(data, abi, offset);
            CopiedTo(data, abi, done + [offset], next,
                     out + data[offset..offset + 8] + Zeros(abi.ptrSize) + data[offset + 8 + abi.ptrSize..next])
  {
    hide U32, BytesCopied, BlockTotal, Zeros;
    var next := offset + BlockTotal(data, abi, offset);
    BlocksStep(data, abi, done, offset);
    BlockBytes(data, abi, done, offset, next, out);
  }

  lemma BlocksStep(data: Bytes, abi: BlendAbi, done: seq<nat>, offset: nat)
    requires IsBlock(data, abi, offset)
    ensures var next := offset + BlockTotal(data, abi, offset);
            done + Blocks(data, abi, offset) == done + [offset] + Blocks(data, abi, next)
            && WalkEnd(data, abi, offset) == WalkEnd(data, abi, next)
  {
    hide BlockTotal;
  }

  /** One block copied in four parts: what was there, code and size, zeros, and the rest. */
  lemma BlockBytes(data: Bytes, abi: BlendAbi, done: seq<nat>, offset: nat, next: nat, out: Bytes)
    requires |out| == offset && offset + 8 + abi.ptrSize <= next <= |data| && BytesCopied(data, abi, done, out)
    requires forall o :: o in done ==> o + 8 + abi.ptrSize <= offset
    ensures var a, z, b := data[offset..offset + 8], Zeros(abi.ptrSize), data[offset + 8 + abi.ptrSize..next];
            |out + a + z + b| == next && BytesCopied(data, abi, done + [offset], out + a + z + b)
  {
    hide InPointers, Zeros;
    var a, z, b := data[offset..offset + 8], Zeros(abi.ptrSize), data[offset + 8 + abi.ptrSize..next];
    forall i | 0 <= i < next
      ensures (out + a + z + b)[i] == if InPointers(abi, done + [offset], i) then 0 else data[i]
    {
      FourParts(out, a, z, b, i);
      PointersAppend(abi, done, offset, i);
      if i >= offset { PointersBefore(abi, done, offset, i); }
    }
  }

  lemma FourParts(p: Bytes, a: Bytes, z: Bytes, b: Bytes, i: nat)
    requires i < |p| + |a| + |z| + |b|
    ensures (p + a + z + b)[i]
         == if i < |p| then p[i] else if i < |p| + |a| then a[i - |p|]
            else if i < |p| + |a| + |z| then z[i - |p| - |a|] else b[i - |p| - |a| - |z|]
  {
  }

  lemma PointersBefore(abi: BlendAbi, done: seq<nat>, offset: nat, i: nat)
    requires i >= offset && forall o :: o in done ==> o + 8 + abi.ptrSize <= offset
    ensures !InPointers(abi, done, i)
  {
  }

  lemma PointersAppend(abi: BlendAbi, done: seq<nat>, o: nat, i: nat)
    ensures InPointers(abi, done + [o], i) <==> InPointers(abi, done, i) || PointerByte(abi, o, i)
  {
    assert forall x :: x in done + [o] <==> x in done || x == o;
  }

  lemma CopiedAll(data: Bytes, abi: BlendAbi, done: seq<nat>, offset: nat, out: Bytes)
    requires abi.headerEnd <= |data| && CopiedTo(data, abi, done, offset, out) && !IsBlock(data, abi, offset)
    ensures Blocks(data, abi, abi.headerEnd) == done
    ensures Zeroed(data, abi) == if offset + FixedHeader(abi) <= |data| then out + data[offset..] else out
  {
    hide BytesCopied, Zeroed, IsBlock;
    WalkStops(data, abi, offset);
    assert done + [] == done;
    var full := if offset + FixedHeader(abi) <= |data| then out + data[offset..] else out;
    assert BytesCopied(data, abi, done, full) by { RestCopied(data, abi, done, offset, out); }
    CopyIsZeroed(data, abi, full);
  }

  lemma WalkStops(data: Bytes, abi: BlendAbi, offset: nat)
    requires !IsBlock(data, abi, offset)
    ensures Blocks(data, abi, offset) == [] && WalkEnd(data, abi, offset) == offset
  {
    hide IsBlock;
  }

  lemma RestCopied(data: Bytes, abi: BlendAbi, done: seq<nat>, offset: nat, out: Bytes)
    requires |out| == offset <= |data| && BytesCopied(data, abi, done, out)
    requires forall o :: o in done ==> o + 8 + abi.ptrSize <= offset
    ensures |out + data[offset..]| == |data| && BytesCopied(data, abi, done, out + data[offset..])
  {
    hide InPointers;
    var full := out + data[offset..];
    forall i | 0 <= i < |full|
      ensures full[i] == if InPointers(abi, done, i) then 0 else data[i]
    {
      if i >= offset { PointersBefore(abi, done, offset, i); }
    }
  }

  lemma CopyIsZeroed(data: Bytes, abi: BlendAbi, full: Bytes)
    requires abi.headerEnd <= |data| && |full| == KeptLength(data, abi)
    requires BytesCopied(data, abi, Blocks(data, abi, abi.headerEnd), full)
    ensures Zeroed(data, abi) == full
  {
    hide Blocks, InPointers, KeptLength;
    assert forall i :: 0 <= i < |full| ==> Zeroed(data, abi)[i] == full[i];
  }

  // ---------------------------------------------------------------- canonical form

  lemma {:induction false} BlocksFrom(data: Bytes, abi: BlendAbi, offset: nat, o: nat)
    requires o in Blocks(data, abi, offset)
    ensures offset <= o && IsBlock(data, abi, o) && o + BlockTotal(data, abi, o) <= WalkEnd(data, abi, offset)
    decreases |data| - offset
  {
    hide BlockTotal;
    var next := offset + BlockTotal(data, abi, offset);
    if o != offset {
      BlocksFrom(data, abi, next, o);
    }
  }

  /** Overwriting pointer fields, and dropping the leftover after the last block, does not change the walk. */
  lemma {:induction false} SameWalk(a: Bytes, b: Bytes, abi: BlendAbi, offset: nat)
    requires offset <= |b| <= |a|
    requires |b| == |a| || (|b| == WalkEnd(a, abi, offset) && |b| + FixedHeader(abi) > |a|)
    requires forall i :: offset <= i < |b| ==> a[i] == b[i] || InPointers(abi, Blocks(a, abi, offset), i)
    ensures Blocks(b, abi, offset) == Blocks(a, abi, offset) && WalkEnd(b, abi, offset) == WalkEnd(a, abi, offset)
    decreases |a| - offset
  {
    hide U32;
    forall i | offset <= i < offset + 8 && i < |b|
      ensures a[i] == b[i]
    {
      if InPointers(abi, Blocks(a, abi, offset), i) {
        var o :| o in Blocks(a, abi, offset) && PointerByte(abi, o, i);
        BlocksFrom(a, abi, offset, o);
      }
    }
    if offset + 8 <= |b| {
      assert a[offset..offset + 4] == b[offset..offset + 4] && a[offset + 4..offset + 8] == b[offset + 4..offset + 8];
    }
    if IsBlock(a, abi, offset) {
      var next := offset + BlockTotal(a, abi, offset);
      forall i | next <= i < |b|
        ensures a[i] == b[i] || InPointers(abi, Blocks(a, abi, next), i)
      {
        if InPointers(abi, Blocks(a, abi, offset), i) {
          var o :| o in Blocks(a, abi, offset) && PointerByte(abi, o, i);
          assert o in Blocks(a, abi, next);
        }
      }
      SameWalk(a, b, abi, next);
    }
  }

  /** The canonical bytes are walked through exactly the same blocks. */
  lemma ZeroedWalk(data: Bytes, abi: BlendAbi)
    requires abi.headerEnd <= |data|
    ensures Blocks(Zeroed(data, abi), abi, abi.headerEnd) == Blocks(data, abi, abi.headerEnd)
    ensures WalkEnd(Zeroed(data, abi), abi, abi.headerEnd) == WalkEnd(data, abi, abi.headerEnd)
  {
    hide Blocks, U32;
    SameWalk(data, Zeroed(data, abi), abi, abi.headerEnd);
  }

  lemma PointersAfterHeader(data: Bytes, abi: BlendAbi, i: nat)
    requires InPointer(data, abi, i)
    ensures abi.headerEnd + 8 <= i < WalkEnd(data, abi, abi.headerEnd)
  {
    var o :| o in Blocks(data, abi, abi.headerEnd) && PointerByte(abi, o, i);
    BlocksFrom(data, abi, abi.headerEnd, o);
  }

  /** Canonicalizing twice is canonicalizing once, and the second pass zeroes as many blocks as the first. */
  lemma ZeroingIdempotent(data: Bytes, abi: BlendAbi)
    requires abi.headerEnd <= |data|
    ensures Zeroed(Zeroed(data, abi), abi) == Zeroed(data, abi)
    ensures |Blocks(Zeroed(data, abi), abi, abi.headerEnd)| == |Blocks(data, abi, abi.headerEnd)|
  {
    ZeroedWalk(data, abi);
    hide Blocks, WalkEnd, U32;
    var once := Zeroed(data, abi);
    var twice := Zeroed(once, abi);
    assert |twice| == |once|;
    assert forall i :: 0 <= i < |once| ==> (InPointer(once, abi, i) <==> InPointer(data, abi, i));
  }

  /** The header survives, so the canonical bytes parse to the same ABI. */
  lemma ZeroedAbi(data: Bytes)
    requires ParseAbi(data).Some?
    ensures ParseAbi(Zeroed(data, ParseAbi(data).value)) == ParseAbi(data)
  {
    var abi := ParseAbi(data).value;
    var out := Zeroed(data, abi);
    hide Blocks, WalkEnd, U32;
    forall i | 0 <= i < abi.headerEnd
      ensures out[i] == data[i]
    {
      if InPointer(data, abi, i) { PointersAfterHeader(data, abi, i); }
    }
    assert out[..7] == data[..7];
    if |data| >= 17 && abi.headerEnd == 12 && |out| >= 17 {
      assert !(data[7] == 49 && data[8] == 55);
    }
  }

  /** The output is shorter than the input by less than one block header. */
  lemma ZeroedLength(data: Bytes, abi: BlendAbi)
    requires abi.headerEnd <= |data|
    ensures |data| - FixedHeader(abi) < |Zeroed(data, abi)| <= |data|
    ensures |Zeroed(data, abi)| == |data| <==> TailKept(data, abi)
  {
    hide Blocks, WalkEnd;
  }

  /** No bytes are dropped: the walk ends at the end of the file, or with room for another header. */
  predicate TailKept(data: Bytes, abi: BlendAbi) {
    var end := WalkEnd(data, abi, abi.headerEnd);
    end == |data| || end + FixedHeader(abi) <= |data|
  }

  /** The first `n` bytes agree outside the pointer fields walked in the first input. */
  ghost predicate AgreeOutsidePointers(a: Bytes, b: Bytes, abi: BlendAbi, n: nat) {
    n <= |a| && n <= |b| && forall i :: 0 <= i < n ==> InPointer(a, abi, i) || a[i] == b[i]
  }

  /** What was kept is walked like the whole input. */
  lemma KeptWalk(data: Bytes, abi: BlendAbi)
    requires abi.headerEnd <= |data|
    ensures var kept := data[..KeptLength(data, abi)];
            && Blocks(kept, abi, abi.headerEnd) == Blocks(data, abi, abi.headerEnd)
            && WalkEnd(kept, abi, abi.headerEnd) == WalkEnd(data, abi, abi.headerEnd)
  {
    hide Blocks, WalkEnd, U32;
    SameWalk(data, data[..KeptLength(data, abi)], abi, abi.headerEnd);
  }

  /** Inputs that keep equally much and agree there outside the pointers of one have the same pointers. */
  lemma SamePointers(a: Bytes, b: Bytes, abi: BlendAbi)
    requires abi.headerEnd <= |a| && abi.headerEnd <= |b|
    requires KeptLength(a, abi) == KeptLength(b, abi) && AgreeOutsidePointers(a, b, abi, KeptLength(a, abi))
    ensures forall i :: InPointer(a, abi, i) <==> InPointer(b, abi, i)
  {
    hide Blocks, WalkEnd, U32;
    var n := KeptLength(a, abi);
    KeptWalk(a, abi);
    KeptWalk(b, abi);
    SameWalk(a[..n], b[..n], abi, abi.headerEnd);
  }

  /** Equal outputs characterise the inputs: with equal ABI, two files canonicalize to the same bytes
      iff they keep equally many bytes and agree on those outside the walked pointer fields. */
  lemma ZeroingIsCanonical(a: Bytes, b: Bytes, abi: BlendAbi)
    requires abi.headerEnd <= |a| && abi.headerEnd <= |b|
    ensures Zeroed(a, abi) == Zeroed(b, abi)
       <==> KeptLength(a, abi) == KeptLength(b, abi) && AgreeOutsidePointers(a, b, abi, KeptLength(a, abi))
  {
    hide Blocks, WalkEnd, U32, KeptLength;
    var x, y := Zeroed(a, abi), Zeroed(b, abi);
    if x == y {
      ZeroedWalk(a, abi);
      ZeroedWalk(b, abi);
      assert forall i :: InPointer(a, abi, i) <==> InPointer(b, abi, i);
      forall i | 0 <= i < |x|
        ensures InPointer(a, abi, i) || a[i] == b[i]
      {
        assert x[i] == y[i];
      }
    }
    if KeptLength(a, abi) == KeptLength(b, abi) && AgreeOutsidePointers(a, b, abi, KeptLength(a, abi)) {
      SamePointers(a, b, abi);
      assert |x| == |y| && forall i :: 0 <= i < |x| ==> x[i] == y[i];
    }
  }

  /** When neither input loses its tail, that is agreement of the whole files. */
  lemma ZeroingIsCanonicalWhole(a: Bytes, b: Bytes, abi: BlendAbi)
    requires abi.headerEnd <= |a| && abi.headerEnd <= |b| && TailKept(a, abi) && TailKept(b, abi)
    ensures Zeroed(a, abi) == Zeroed(b, abi) <==> |a| == |b| && AgreeOutsidePointers(a, b, abi, |a|)
  {
    hide Blocks, WalkEnd, AgreeOutsidePointers;
    ZeroingIsCanonical(a, b, abi);
  }

  // ---------------------------------------------------------------- the public entry point

  /** `canonicalize` after decompression, None when it raises; `zero` is CHIMERA_BLEND_ZERO_OLD_PTR. */
  method Canonicalize(decompressed: Bytes, zero: bool) returns (out: Option<Bytes>)
    ensures out.Some? <==> ParseAbi(decompressed).Some?
    ensures out.Some? ==> out.value == if zero then Zeroed(decompressed, ParseAbi(decompressed).value) else decompressed
  {
    var abi := ParseAbi(decompressed);
    if abi.None? {
      return None;
    }
    if !zero {
      return Some(decompressed);
    }
    var canonical, zeroed := ZeroPointers(decompressed, abi.value);
    out := Some(canonical);
  }

  /** Running the canonicalizer on its own output gives that output again. */
  lemma CanonicalizeIdempotent(data: Bytes)
    requires ParseAbi(data).Some?
    ensures var once := Zeroed(data, ParseAbi(data).value);
            ParseAbi(once).Some? && Zeroed(once, ParseAbi(once).value) == once
  {
    ZeroedAbi(data);
    hide Zeroed;
    ZeroingIdempotent(data, ParseAbi(data).value);
  }
}
