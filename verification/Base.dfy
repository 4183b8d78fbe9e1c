/** Vocabulary shared by every module: bytes, optional values, outcomes and JSON values. */
module Base {
  newtype byte = x: int | 0 <= x < 256

  type Bytes = seq<byte>

  /** Usable with `:-`: the rest of the expression is skipped on None. */
  datatype Option<+T> = None | Some(value: T) {
    predicate IsFailure() {
      None?
    }

    function PropagateFailure<U>(): Option<U>
      requires None?
    {
      None
    }

    function Extract(): T
      requires Some?
    {
      value
    }

    function GetOr(default: T): T {
      if Some? then value else default
    }
  }

  datatype Result<+T, +E> = Ok(value: T) | Err(error: E)

  /** JSON documents at the value level; their text form is `World.encode`. */
  datatype Json =
    | Null
    | Bool(b: bool)
    | Int(n: int)
    | Decimal(mantissa: int, exponent: int)   // mantissa * 10^exponent
    | Str(s: string)
    | Arr(items: seq<Json>)
    | Obj(fields: map<string, Json>)

  function Min(a: int, b: int): int { if a < b then a else b }

  function Max(a: int, b: int): int { if a < b then b else a }

  /** The least element of a non-empty set of integers (`min(...)`). */
  function MinOf(s: set<int>): (m: int)
    requires s != {}
    ensures m in s && forall x :: x in s ==> m <= x
  {
    MinExists(s);
    var m :| m in s && forall x :: x in s ==> m <= x;
    m
  }

  lemma AnElement<T>(s: set<T>) returns (x: T)
    requires s != {}
    ensures x in s
  {
    x :| x in s;
  }

  lemma {:induction false} MinExists(s: set<int>)
    requires s != {}
    ensures exists m :: m in s && forall x :: x in s ==> m <= x
    decreases |s|
  {
    var x := AnElement(s);
    var rest := s - {x};
    if rest == {} {
      assert s == {x};
    } else {
      MinExists(rest);
      var y :| y in rest && forall z :: z in rest ==> y <= z;
      var m := if x < y then x else y;
      assert m in s && forall z :: z in s ==> m <= z by {
        forall z | z in s ensures m <= z {
          assert z == x || z in rest;
        }
      }
    }
  }

  /** Concatenation of a list of byte strings. */
  function Concat(parts: seq<Bytes>): Bytes {
    if parts == [] then [] else parts[0] + Concat(parts[1..])
  }

  lemma {:induction false} ConcatAppend(parts: seq<Bytes>, last: Bytes)
    ensures Concat(parts + [last]) == Concat(parts) + last
  {
    if parts == [] {
      assert parts + [last] == [last];
      assert Concat([last]) == last + Concat([last][1..]);
    } else {
      assert (parts + [last])[1..] == parts[1..] + [last];
      ConcatAppend(parts[1..], last);
    }
  }

  lemma SliceOfSlice<T>(d: seq<T>, o: nat, e: nat, i: nat, j: nat)
    requires o <= e <= |d| && i <= j <= e - o
    ensures d[o..e][i..j] == d[o + i..o + j]
  {
    var l, r := d[o..e][i..j], d[o + i..o + j];
    assert |l| == |r|;
    forall k | 0 <= k < |l|
      ensures l[k] == r[k]
    {
      assert l[k] == d[o..e][i + k];
    }
  }

  lemma WholeSlices<T>(s: seq<T>)
    ensures s[0..] == s && s[..|s|] == s && s[|s|..] == [] && s[..0] == []
  {
  }
}
