/** The cache index (zeno_client/cache_index.py): one row per content id, least-recently-used order,
    and the one-at-a-time eviction that the batched loop is proved to perform. */
module CacheIndex {
  import opened Base
  import opened Places

  datatype Entry = Entry(contentId: string, filename: string, relPath: Place, sizeBytes: nat, lastAccessedAt: int, createdAt: int)

  type Rows = map<string, Entry>

  // ---------------------------------------------------------------- specification

  /** SUM(size_bytes). */
  ghost function SumSizes(rows: Rows): nat
    decreases |rows|
  {
    if rows == map[] then 0
    else
      var k :| k in rows;
      rows[k].sizeBytes + SumSizes(rows - {k})
  }

  /** Least recently used first; rows used at the same time in a fixed order of the table's choosing. */
  predicate Before(rank: string -> int, a: Entry, b: Entry) {
    a.lastAccessedAt < b.lastAccessedAt
    || (a.lastAccessedAt == b.lastAccessedAt && rank(a.contentId) < rank(b.contentId))
  }

  ghost predicate FixedTieOrder(rank: string -> int) {
    forall a: string, b: string :: rank(a) == rank(b) ==> a == b
  }

  ghost predicate Keyed(rows: Rows) {
    forall k :: k in rows ==> rows[k].contentId == k
  }

  ghost predicate IsOldest(rank: string -> int, rows: Rows, exclude: set<string>, k: string) {
    && k in rows && k !in exclude
    && forall j :: j in rows && j !in exclude && j != k ==> Before(rank, rows[k], rows[j])
  }

  ghost predicate HasCandidate(rows: Rows, exclude: set<string>) {
    exists k :: k in rows && k !in exclude
  }

  ghost function Oldest(rank: string -> int, rows: Rows, exclude: set<string>): (k: string)
    requires FixedTieOrder(rank) && Keyed(rows) && HasCandidate(rows, exclude)
    ensures IsOldest(rank, rows, exclude, k)
  {
    OldestExists(rank, rows, exclude);
    var k :| IsOldest(rank, rows, exclude, k);
    k
  }

  /** `SELECT ... WHERE content_id NOT IN exclude ORDER BY last_accessed_at LIMIT limit`. */
  ghost function Candidates(rank: string -> int, rows: Rows, exclude: set<string>, limit: nat): seq<Entry>
    requires FixedTieOrder(rank) && Keyed(rows)
  {
    if limit == 0 || !HasCandidate(rows, exclude) then []
    else
      var k := Oldest(rank, rows, exclude);
      [rows[k]] + Candidates(rank, rows - {k}, exclude, limit - 1)
  }

  /** Eviction one row at a time: drop the oldest unprotected row while the total exceeds the cap. */
  ghost function Evict(rank: string -> int, rows: Rows, exclude: set<string>, cap: int): Rows
    requires FixedTieOrder(rank) && Keyed(rows)
    decreases |rows|
  {
    if SumSizes(rows) <= cap || !HasCandidate(rows, exclude) then rows
    else
      var k := Oldest(rank, rows, exclude);
      Shrinks(rows, k);
      Evict(rank, rows - {k}, exclude, cap)
  }

  function Upserted(rows: Rows, id: string, filename: string, rel: Place, size: nat, now: int): Rows {
    rows[id := Entry(id, filename, rel, size, now, if id in rows then rows[id].createdAt else now)]
  }

  /** What recording a file does to the table: its row is as given and used now, a row that was there keeps
      its creation time, and no other row changes. */
  ghost predicate RowWritten(before: Rows, after: Rows, id: string, filename: string, rel: Place, size: nat, now: int) {
    && after.Keys == before.Keys + {id}
    && after[id].contentId == id && after[id].filename == filename && after[id].relPath == rel
    && after[id].sizeBytes == size && after[id].lastAccessedAt == now
    && after[id].createdAt == (if id in before then before[id].createdAt else now)
    && forall k :: k in before && k != id ==> after[k] == before[k]
  }

  // ---------------------------------------------------------------- lemmas

  lemma UpsertedIsWritten(rows: Rows, id: string, filename: string, rel: Place, size: nat, now: int)
    ensures RowWritten(rows, Upserted(rows, id, filename, rel, size, now), id, filename, rel, size, now)
  {
  }

  lemma Shrinks(rows: Rows, k: string)
    requires k in rows
    ensures |rows - {k}| == |rows| - 1
  {
    assert (rows - {k}).Keys == rows.Keys - {k};
  }

  lemma {:induction false} SumRemove(rows: Rows, k: string)
    requires k in rows
    ensures SumSizes(rows) == rows[k].sizeBytes + SumSizes(rows - {k}) && SumSizes(map[]) == 0
    decreases |rows|
  {
    var j :| j in rows && SumSizes(rows) == rows[j].sizeBytes + SumSizes(rows - {j});
    if j != k {
      Shrinks(rows, j);
      Shrinks(rows, k);
      SumRemove(rows - {j}, k);
      SumRemove(rows - {k}, j);
      assert rows - {j} - {k} == rows - {k} - {j};
    }
  }

  lemma {:induction false} OldestExists(rank: string -> int, rows: Rows, exclude: set<string>)
    requires FixedTieOrder(rank) && Keyed(rows) && HasCandidate(rows, exclude)
    ensures exists k :: IsOldest(rank, rows, exclude, k)
    decreases |rows|
  {
    var x :| x in rows && x !in exclude;
    var rest := rows - {x};
    Shrinks(rows, x);
    if HasCandidate(rest, exclude) {
      OldestExists(rank, rest, exclude);
      var y :| IsOldest(rank, rest, exclude, y);
      if Before(rank, rows[x], rows[y]) {
        assert IsOldest(rank, rows, exclude, x);
      } else {
        assert IsOldest(rank, rows, exclude, y);
      }
    } else {
      assert forall j :: j in rows && j !in exclude && j != x ==> j in rest;
      assert IsOldest(rank, rows, exclude, x);
    }
  }

  lemma OldestUnique(rank: string -> int, rows: Rows, exclude: set<string>, j: string, k: string)
    requires IsOldest(rank, rows, exclude, j) && IsOldest(rank, rows, exclude, k)
    ensures j == k
  {
  }

  /** Eviction leaves a sub-table, keeps every protected row, and stops only under the cap or when
      nothing but protected rows is left. */
  lemma {:induction false} EvictStops(rank: string -> int, rows: Rows, exclude: set<string>, cap: int)
    requires FixedTieOrder(rank) && Keyed(rows)
    ensures var left := Evict(rank, rows, exclude, cap);
            && (forall k :: k in left ==> k in rows && left[k] == rows[k])
            && (forall k :: k in rows && k in exclude ==> k in left)
            && (SumSizes(left) <= cap || forall k :: k in left ==> k in exclude)
    decreases |rows|
  {
    if SumSizes(rows) > cap && HasCandidate(rows, exclude) {
      var k := Oldest(rank, rows, exclude);
      Shrinks(rows, k);
      EvictStops(rank, rows - {k}, exclude, cap);
    }
  }

  /** No evicted row was used after a surviving unprotected row. */
  lemma {:induction false} EvictIsLru(rank: string -> int, rows: Rows, exclude: set<string>, cap: int, gone: string, kept: string)
    requires FixedTieOrder(rank) && Keyed(rows)
    requires gone in rows && gone !in Evict(rank, rows, exclude, cap)
    requires kept in Evict(rank, rows, exclude, cap) && kept !in exclude
    ensures kept in rows && Before(rank, rows[gone], rows[kept])
    ensures rows[gone].lastAccessedAt <= rows[kept].lastAccessedAt
    decreases |rows|
  {
    EvictStops(rank, rows, exclude, cap);
    var k := Oldest(rank, rows, exclude);
    if gone != k {
      Shrinks(rows, k);
      EvictIsLru(rank, rows - {k}, exclude, cap, gone, kept);
    }
  }

  /** Eviction does not go too far: with the last row it removed, the total was still over the cap. */
  lemma {:induction false} EvictIsMinimal(rank: string -> int, rows: Rows, exclude: set<string>, cap: int) returns (last: string)
    requires FixedTieOrder(rank) && Keyed(rows) && Evict(rank, rows, exclude, cap) != rows
    ensures last in rows && last !in Evict(rank, rows, exclude, cap)
    ensures SumSizes(Evict(rank, rows, exclude, cap)) + rows[last].sizeBytes > cap
    ensures forall k :: k in rows && k !in Evict(rank, rows, exclude, cap) && k != last ==> Before(rank, rows[k], rows[last])
    decreases |rows|
  {
    var k := Oldest(rank, rows, exclude);
    var rest := rows - {k};
    Shrinks(rows, k);
    var left := Evict(rank, rest, exclude, cap);
    EvictStops(rank, rest, exclude, cap);
    if left == rest {
      last := k;
      SumRemove(rows, k);
    } else {
      last := EvictIsMinimal(rank, rest, exclude, cap);
      NotExcluded(rank, rest, exclude, cap, last);
    }
  }

  /** A row used no earlier than `since` outlives every unprotected row that was last used before. */
  lemma UsedLaterOutlives(rank: string -> int, rows: Rows, exclude: set<string>, cap: int, used: string, other: string)
    requires FixedTieOrder(rank) && Keyed(rows) && used in rows
    requires other in Evict(rank, rows, exclude, cap) && other !in exclude
    requires other in rows && rows[other].lastAccessedAt < rows[used].lastAccessedAt
    ensures used in Evict(rank, rows, exclude, cap)
  {
    if used !in Evict(rank, rows, exclude, cap) {
      EvictIsLru(rank, rows, exclude, cap, used, other);
    }
  }

  lemma NotExcluded(rank: string -> int, rows: Rows, exclude: set<string>, cap: int, k: string)
    requires FixedTieOrder(rank) && Keyed(rows) && k in rows && k !in Evict(rank, rows, exclude, cap)
    ensures k !in exclude
  {
    EvictStops(rank, rows, exclude, cap);
  }

  /** The oldest rows of a query stay the oldest once the first of them is deleted. */
  lemma CandidatesTail(rank: string -> int, rows: Rows, exclude: set<string>, limit: nat)
    requires FixedTieOrder(rank) && Keyed(rows) && Candidates(rank, rows, exclude, limit) != []
    ensures limit > 0 && HasCandidate(rows, exclude)
    ensures var cs := Candidates(rank, rows, exclude, limit);
            var k := Oldest(rank, rows, exclude);
            && cs[0] == rows[k] && cs[0].contentId == k
            && cs[1..] == Candidates(rank, rows - {k}, exclude, limit - 1)
  {
  }

  /** What the query answers: unprotected rows, least recently used first, each at most once, all of them
      unless the limit is reached, and none older than those left out. */
  ghost predicate OldestRows(rank: string -> int, rows: Rows, exclude: set<string>, limit: nat, found: seq<Entry>) {
    && (forall i :: 0 <= i < |found| ==> found[i].contentId in rows && found[i].contentId !in exclude
                                         && rows[found[i].contentId] == found[i])
    && (forall i, j :: 0 <= i < j < |found| ==> Before(rank, found[i], found[j]))
    && |found| <= limit
    && forall k :: k in rows && k !in exclude && rows[k] !in found ==>
                     |found| == limit && forall i :: 0 <= i < |found| ==> Before(rank, found[i], rows[k])
  }

  lemma {:induction false} CandidatesAreOldest(rank: string -> int, rows: Rows, exclude: set<string>, limit: nat)
    requires FixedTieOrder(rank) && Keyed(rows)
    ensures OldestRows(rank, rows, exclude, limit, Candidates(rank, rows, exclude, limit))
    decreases limit
  {
    if limit > 0 && HasCandidate(rows, exclude) {
      var k := Oldest(rank, rows, exclude);
      var rest := Candidates(rank, rows - {k}, exclude, limit - 1);
      CandidatesAreOldest(rank, rows - {k}, exclude, limit - 1);
      OldestRowsCons(rank, rows, exclude, limit, k, rest);
    }
  }

  lemma OldestRowsCons(rank: string -> int, rows: Rows, exclude: set<string>, limit: nat, k: string, rest: seq<Entry>)
    requires Keyed(rows) && limit > 0 && IsOldest(rank, rows, exclude, k)
    requires OldestRows(rank, rows - {k}, exclude, limit - 1, rest)
    ensures OldestRows(rank, rows, exclude, limit, [rows[k]] + rest)
  {
    var found := [rows[k]] + rest;
    forall i, j | 0 <= i < j < |found|
      ensures Before(rank, found[i], found[j])
    {
      assert found[j] == rest[j - 1];
    }
    forall j | j in rows && j !in exclude && rows[j] !in found
      ensures |found| == limit && forall i :: 0 <= i < |found| ==> Before(rank, found[i], rows[j])
    {
      assert rows[k] in found;
      assert j in rows - {k} && rows[j] !in rest;
    }
  }

  lemma OldestIsRow(rank: string -> int, rows: Rows, exclude: set<string>, k: string)
    requires IsOldest(rank, rows, exclude, k)
    ensures k in rows
  {
  }

  lemma CandidatesHead(rank: string -> int, rows: Rows, exclude: set<string>, limit: nat, k: string)
    requires FixedTieOrder(rank) && Keyed(rows) && limit > 0 && IsOldest(rank, rows, exclude, k)
    ensures Keyed(rows - {k})
    ensures Candidates(rank, rows, exclude, limit) == [rows[k]] + Candidates(rank, rows - {k}, exclude, limit - 1)
  {
    OldestUnique(rank, rows, exclude, k, Oldest(rank, rows, exclude));
  }

  lemma CandidatesNone(rank: string -> int, rows: Rows, exclude: set<string>, limit: nat)
    requires FixedTieOrder(rank) && Keyed(rows) && !HasCandidate(rows, exclude)
    ensures Candidates(rank, rows, exclude, limit) == []
  {
  }

  lemma CandidatesZero(rank: string -> int, rows: Rows, exclude: set<string>)
    requires FixedTieOrder(rank) && Keyed(rows)
    ensures Candidates(rank, rows, exclude, 0) == []
  {
  }

  // ---------------------------------------------------------------- the table

  class Index {
    /** How the table orders rows with equal access times. */
    const rank: string -> int
    var entries: Rows
    /** `int(time.time())`. */
    var clock: int

    constructor (rank: string -> int)
      ensures entries == map[] && this.rank == rank
    {
      this.rank := rank;
      entries := map[];
      clock := 0;
    }

    method UpsertEntry(id: string, filename: string, rel: Place, size: nat)
      modifies this`entries
      ensures entries == Upserted(old(entries), id, filename, rel, size, clock)
      ensures RowWritten(old(entries), entries, id, filename, rel, size, clock)
    {
      var now := clock;
      if id in entries {
        entries := entries[id := entries[id].(contentId := id, filename := filename, relPath := rel, sizeBytes := size,
                                              lastAccessedAt := now)];
      } else {
        entries := entries[id := Entry(id, filename, rel, size, now, now)];
      }
    }

    method Touch(id: string)
      modifies this`entries
      ensures entries == if id in old(entries) then old(entries)[id := old(entries)[id].(lastAccessedAt := clock)] else old(entries)
    {
      if id in entries {
        entries := entries[id := entries[id].(lastAccessedAt := clock)];
      }
    }

    method DeleteEntry(id: string)
      modifies this`entries
      ensures entries == old(entries) - {id}
    {
      entries := entries - {id};
    }

    method TotalSizeBytes() returns (total: nat)
      ensures total == SumSizes(entries)
    {
      total := 0;
      var rest := entries;
      while rest != map[]
        invariant total + SumSizes(rest) == SumSizes(entries)
        decreases |rest|
      {
        var k :| k in rest;
        SumRemove(rest, k);
        Shrinks(rest, k);
        total := total + rest[k].sizeBytes;
        rest := rest - {k};
      }
    }

    method EvictionCandidates(exclude: set<string>, limit: nat) returns (found: seq<Entry>)
      requires FixedTieOrder(rank) && Keyed(entries)
      ensures found == Candidates(rank, entries, exclude, limit)
      ensures OldestRows(rank, entries, exclude, limit, found)
    {
      hide Candidates, IsOldest, HasCandidate, FixedTieOrder, Keyed, OldestRows;
      found := [];
      var rest := entries;
      while |found| < limit
        invariant Keyed(rest) && |found| <= limit
        invariant Candidates(rank, entries, exclude, limit) == found + Candidates(rank, rest, exclude, limit - |found|)
        decreases limit - |found|
      {
        var k := SelectOldest(rest, exclude);
        if k.None? {
          CandidatesNone(rank, rest, exclude, limit - |found|);
          CandidatesAreOldest(rank, entries, exclude, limit);
          return;
        }
        CandidatesHead(rank, rest, exclude, limit - |found|, k.value);
        OldestIsRow(rank, rest, exclude, k.value);
        found := found + [rest[k.value]];
        rest := rest - {k.value};
      }
      CandidatesZero(rank, rest, exclude);
      CandidatesAreOldest(rank, entries, exclude, limit);
    }

    method SelectOldest(rows: Rows, exclude: set<string>) returns (best: Option<string>)
      requires FixedTieOrder(rank) && Keyed(rows)
      ensures best.None? <==> !HasCandidate(rows, exclude)
      ensures best.Some? ==> IsOldest(rank, rows, exclude, best.value)
    {
      hide IsOldest, HasCandidate, FixedTieOrder, Keyed, LeastOf, Before;
      best := None;
      var keys := rows.Keys - exclude;
      ghost var seen: set<string> := {};
      while keys != {}
        invariant keys + seen == rows.Keys - exclude
        invariant best.None? <==> seen == {}
        invariant best.Some? ==> LeastOf(rank, rows, seen, best.value)
        decreases |keys|
      {
        var k :| k in keys;
        LeastStep(rank, rows, seen, best, k);
        if best.None? || Before(rank, rows[k], rows[best.value]) {
          best := Some(k);
        }
        keys := keys - {k};
        seen := seen + {k};
      }
      AllSeen(rank, rows, exclude, seen, best);
    }

    ghost static predicate LeastOf(rank: string -> int, rows: Rows, seen: set<string>, k: string)
      requires seen <= rows.Keys
    {
      k in seen && forall j :: j in seen && j != k ==> Before(rank, rows[k], rows[j])
    }

    static lemma LeastStep(rank: string -> int, rows: Rows, seen: set<string>, best: Option<string>, k: string)
      requires FixedTieOrder(rank) && Keyed(rows) && seen <= rows.Keys && k in rows
      requires if best.None? then seen == {} else LeastOf(rank, rows, seen, best.value)
      ensures best.Some? ==> best.value in seen
      ensures LeastOf(rank, rows, seen + {k},
                      if best.None? || Before(rank, rows[k], rows[best.value]) then k else best.value)
    {
    }

    static lemma AllSeen(rank: string -> int, rows: Rows, exclude: set<string>, seen: set<string>, best: Option<string>)
      requires seen == rows.Keys - exclude && (best.None? <==> seen == {})
      requires best.Some? ==> LeastOf(rank, rows, seen, best.value)
      ensures best.None? <==> !HasCandidate(rows, exclude)
      ensures best.Some? ==> IsOldest(rank, rows, exclude, best.value)
    {
      assert forall j :: j in rows && j !in exclude ==> j in seen;
      assert forall j :: j in seen ==> j in rows && j !in exclude;
    }
  }
}
