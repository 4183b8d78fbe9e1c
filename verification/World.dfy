/** The foreign primitives the pipeline calls: BLAKE3, the gear table, Shannon entropy, zstd and
    JSON text. Every theorem holds for every `World` that obeys the laws it names. */
module Worlds {
  import opened Base

  datatype World = World(
    hash: Bytes -> string,                           // BLAKE3 hex digest
    preimage: string -> Bytes,                       // exists only to say that `hash` is collision-free
    gear: byte -> nat,                               // _GEAR_TABLE
    entropy: Bytes -> real,                          // shannon_entropy
    encode: Json -> Bytes,                           // json.dumps(..., sort_keys=True).encode("utf-8")
    decode: Bytes -> Option<Json>,                   // json.loads(bytes.decode("utf-8"))
    isFloat: (int, int) -> bool,                     // mantissas and exponents that some float is printed with
    floatJson: real -> Json,                         // a float as it appears in a JSON document
    textOf: Json -> string,                          // str(x) of a value that is not a string
    intOf: Json -> Option<int>,                      // int(x) of a value that is not an int, None if it raises
    zstdInstalled: bool,
    train: (nat, seq<Bytes>) -> Option<Bytes>,       // zstd.train_dictionary
    compress: (Bytes, Bytes) -> Bytes,               // compress(dictionary, data)
    decompress: (Bytes, Bytes, nat) -> Option<Bytes> // decompress(dictionary, frame, max_output_size)
  ) {
    ghost predicate CollisionFree() {
      forall b: Bytes :: preimage(hash(b)) == b
    }

    /** Digests are non-empty lower-case hexadecimal strings. */
    ghost predicate HexDigests() {
      forall b: Bytes :: IsHex(hash(b))
    }

    /** Documents `json.dumps` can have written: every decimal is the shortest form of a float. */
    ghost predicate Printable(j: Json) {
      match j
      case Decimal(mantissa, exponent) => isFloat(mantissa, exponent)
      case Arr(items) => forall i :: 0 <= i < |items| ==> Printable(items[i])
      case Obj(fields) => forall k :: k in fields ==> Printable(fields[k])
      case _ => true
    }

    ghost predicate JsonRoundTrips() {
      && (forall j: Json :: Printable(j) ==> decode(encode(j)) == Some(j))
      && (forall x: real :: Printable(floatJson(x)))
    }

    ghost predicate ZstdRoundTrips() {
      forall d: Bytes, x: Bytes :: decompress(d, compress(d, x), Max(1, |x|)) == Some(x)
    }

    ghost predicate Sound() {
      CollisionFree() && HexDigests() && JsonRoundTrips() && ZstdRoundTrips()
    }

    lemma SameHash(a: Bytes, b: Bytes)
      requires CollisionFree() && hash(a) == hash(b)
      ensures a == b
    {
      assert preimage(hash(a)) == a;
    }
  }

  predicate IsHex(s: string) {
    s != "" && forall i :: 0 <= i < |s| ==> ('0' <= s[i] <= '9' || 'a' <= s[i] <= 'f')
  }
}
