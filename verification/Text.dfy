/** Python string operations used on identifiers and lines: `strip`, `lower`, `isspace`. */
module Text {
  import opened Worlds

  /** `str.isspace` for one character, which is also what `\s` matches. */
  predicate IsSpace(c: char) {
    var n := c as int;
    || 9 <= n <= 13 || 28 <= n <= 32 || n == 0x85 || n == 0xA0 || n == 0x1680 || 0x2000 <= n <= 0x200A
    || n == 0x2028 || n == 0x2029 || n == 0x202F || n == 0x205F || n == 0x3000
  }

  function StripLeft(s: string): string {
    if s != "" && IsSpace(s[0]) then StripLeft(s[1..]) else s
  }

  function StripRight(s: string): string {
    if s != "" && IsSpace(s[|s| - 1]) then StripRight(s[..|s| - 1]) else s
  }

  function Strip(s: string): string {
    StripRight(StripLeft(s))
  }

  /** ASCII case folding; other letters are left alone. */
  function LowerChar(c: char): char {
    if 'A' <= c <= 'Z' then (c as int + 32) as char else c
  }

  function Lower(s: string): (r: string)
    ensures |r| == |s| && forall i :: 0 <= i < |s| ==> r[i] == LowerChar(s[i])
  {
    seq(|s|, i requires 0 <= i < |s| => LowerChar(s[i]))
  }

  /** `x.strip().lower()`, applied to every content id the code receives. */
  function Normalize(s: string): string {
    Lower(Strip(s))
  }

  predicate Trimmed(s: string) {
    s == "" || (!IsSpace(s[0]) && !IsSpace(s[|s| - 1]))
  }

  lemma {:induction false} StripLeftHead(s: string)
    ensures StripLeft(s) == "" || !IsSpace(StripLeft(s)[0])
  {
    if s != "" && IsSpace(s[0]) { StripLeftHead(s[1..]); }
  }

  lemma {:induction false} StripRightTrims(s: string)
    requires s == "" || !IsSpace(s[0])
    ensures Trimmed(StripRight(s))
    decreases |s|
  {
    if s != "" && IsSpace(s[|s| - 1]) {
      StripRightTrims(s[..|s| - 1]);
    }
  }

  lemma StripTrims(s: string)
    ensures Trimmed(Strip(s))
    ensures Trimmed(s) ==> Strip(s) == s
  {
    StripLeftHead(s);
    StripRightTrims(StripLeft(s));
  }

  lemma NormalizeIdempotent(s: string)
    ensures Normalize(Normalize(s)) == Normalize(s)
  {
    var t := Strip(s);
    StripTrims(s);
    assert Trimmed(Lower(t));
    StripTrims(Lower(t));
    assert Lower(Lower(t)) == Lower(t);
  }

  /** Digests are already normalized. */
  lemma HexIsNormal(h: string)
    requires IsHex(h)
    ensures Normalize(h) == h && h != ""
  {
    assert Trimmed(h);
    StripTrims(h);
    assert Lower(h) == h;
  }

  // ---------------------------------------------------------------- what normalizing does

  lemma {:induction false} StripLeftDrops(s: string) returns (n: nat)
    ensures n <= |s| && StripLeft(s) == s[n..] && forall k :: 0 <= k < n ==> IsSpace(s[k])
  {
    n := 0;
    if s != "" && IsSpace(s[0]) {
      var m := StripLeftDrops(s[1..]);
      n := m + 1;
      assert s[1..][m..] == s[n..];
      forall k | 0 <= k < n
        ensures IsSpace(s[k])
      {
        if k > 0 { assert s[k] == s[1..][k - 1]; }
      }
    }
  }

  lemma {:induction false} StripRightDrops(s: string) returns (n: nat)
    ensures n <= |s| && StripRight(s) == s[..n] && forall k :: n <= k < |s| ==> IsSpace(s[k])
    decreases |s|
  {
    n := |s|;
    if s != "" && IsSpace(s[|s| - 1]) {
      n := StripRightDrops(s[..|s| - 1]);
      assert s[..|s| - 1][..n] == s[..n];
      forall k | n <= k < |s|
        ensures IsSpace(s[k])
      {
        if k < |s| - 1 { assert s[k] == s[..|s| - 1][k]; }
      }
    }
  }

  lemma StripMeaning(s: string) returns (i: nat, j: nat)
    ensures i <= j <= |s| && Strip(s) == s[i..j] && forall k :: 0 <= k < i || j <= k < |s| ==> IsSpace(s[k])
  {
    hide StripLeft, StripRight, IsSpace;
    i := StripLeftDrops(s);
    var t := s[i..];
    var n := StripRightDrops(t);
    j := i + n;
    assert t[..n] == s[i..j];
    forall k | j <= k < |s| ensures IsSpace(s[k]) { assert s[k] == t[k - i]; }
  }

  lemma NormalizeParts(s: string) returns (i: nat, j: nat)
    ensures i <= j <= |s| && (forall k :: 0 <= k < i || j <= k < |s| ==> IsSpace(s[k]))
    ensures |Normalize(s)| == j - i && (i < j ==> !IsSpace(s[i]) && !IsSpace(s[j - 1]))
    ensures forall k :: i <= k < j ==> Normalize(s)[k - i] == LowerChar(s[k])
  {
    hide Strip, IsSpace, LowerChar;
    i, j := StripMeaning(s);
    StripTrims(s);
    var core := Strip(s);
    if i < j { assert core[0] == s[i] && core[|core| - 1] == s[j - 1]; }
    forall k | i <= k < j ensures Normalize(s)[k - i] == LowerChar(s[k]) { assert core[k - i] == s[k]; }
  }

  lemma SmallLetter(c: char)
    ensures LowerChar(c) == if 'A' <= c <= 'Z' then c - 'A' + 'a' else c
  {
  }

  /** A normalized id is what lies between the surrounding blanks, its capital ASCII letters made small. */
  lemma NormalizeMeaning(s: string) returns (i: nat, j: nat)
    ensures i <= j <= |s| && (forall k :: 0 <= k < i || j <= k < |s| ==> IsSpace(s[k]))
    ensures |Normalize(s)| == j - i && (i < j ==> !IsSpace(s[i]) && !IsSpace(s[j - 1]))
    ensures forall k :: i <= k < j ==>
              Normalize(s)[k - i] == if 'A' <= s[k] <= 'Z' then s[k] - 'A' + 'a' else s[k]
  {
    hide *;
    i, j := NormalizeParts(s);
    forall k | i <= k < j
      ensures Normalize(s)[k - i] == if 'A' <= s[k] <= 'Z' then s[k] - 'A' + 'a' else s[k]
    {
      SmallLetter(s[k]);
    }
  }
}
