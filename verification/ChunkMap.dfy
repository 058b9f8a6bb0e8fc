/**
 The maps of contiguous chunks that the synchroniser keeps for headers and bodies (libcv/BlockChainSync.cpp):
 from a chunk's first number to its items. What they stand for is a flat partial map from numbers to items.
 */
module ChunkMap {
  import opened Wrappers

  type Chunked<T> = map<nat, seq<T>>

  /** Chunks are not empty and do not touch. */
  ghost predicate Good<T(!new)>(m: Chunked<T>) {
    && (forall k :: k in m ==> m[k] != [])
    && forall j, k :: j in m && k in m && j < k ==> j + |m[j]| < k
  }

  predicate Covers<T>(m: Chunked<T>, k: nat, n: nat) { k in m && k <= n < k + |m[k]| }

  /** The item a number has in the flat map. */
  ghost function Find<T(!new)>(m: Chunked<T>, n: nat): Option<T> {
    if k :| Covers(m, k, n) then Some(m[k][n - k]) else None
  }

  /** Looking at the chunk with the greatest first number not above `n` is enough. */
  lemma Local<T(!new)>(m: Chunked<T>, k: nat, n: nat)
    requires Good(m) && k in m && k <= n && forall j :: j in m && j <= n ==> j <= k
    ensures Find(m, n) == if n < k + |m[k]| then Some(m[k][n - k]) else None
  {
    forall j: nat | Covers(m, j, n) ensures j == k {
    }
    if n < k + |m[k]| { assert Covers(m, k, n); }
  }

  /** Every number's chunk is one. */
  lemma FindAt<T(!new)>(m: Chunked<T>, k: nat, n: nat)
    requires Good(m) && Covers(m, k, n)
    ensures Find(m, n) == Some(m[k][n - k])
  {
    forall j | j in m && j <= n ensures j <= k {
    }
    Local(m, k, n);
  }

  /** `chunks` holds at `n` what `old` holds there, moved or not, or neither does. */
  lemma Same<T(!new)>(m: Chunked<T>, m': Chunked<T>, n: nat)
    requires Good(m) && Good(m')
    requires forall k :: Covers(m, k, n) ==> exists k' :: Covers(m', k', n) && m'[k'][n - k'] == m[k][n - k]
    requires forall k' :: Covers(m', k', n) ==> exists k :: Covers(m, k, n)
    ensures Find(m', n) == Find(m, n)
  {
    if k :| Covers(m, k, n) {
      FindAt(m, k, n);
      var k' :| Covers(m', k', n) && m'[k'][n - k'] == m[k][n - k];
      FindAt(m', k', n);
    }
  }

  /** The flat map has a hole right before and right after each chunk. */
  lemma Edges<T(!new)>(m: Chunked<T>, k: nat)
    requires Good(m) && k in m
    ensures (k > 0 ==> Find(m, k - 1).None?) && Find(m, k + |m[k]|).None?
  {
    var after := k + |m[k]|;
    assert forall j: nat :: !Covers(m, j, after);
    if k > 0 {
      var before := k - 1;
      assert forall j: nat :: !Covers(m, j, before);
    }
  }

  /** So a flat map has one representation: what the operations say of every number says which chunks there are. */
  lemma OneForm<T(!new)>(m: Chunked<T>, m': Chunked<T>)
    requires Good(m) && Good(m') && forall n: nat :: Find(m, n) == Find(m', n)
    ensures m == m'
  {
    forall k | k in m ensures k in m' && m'[k] == m[k] { SameChunk(m, m', k); }
    forall k | k in m' ensures k in m { SameChunk(m', m, k); }
  }

  lemma SameChunk<T(!new)>(m: Chunked<T>, m': Chunked<T>, k: nat)
    requires Good(m) && Good(m') && k in m && forall n: nat :: Find(m, n) == Find(m', n)
    ensures k in m' && m'[k] == m[k]
  {
    SameStart(m, m', k);
    NoLonger(m, m', k);
    NoLonger(m', m, k);
    forall i: nat | i < |m[k]| ensures m'[k][i] == m[k][i] {
      FindAt(m, k, k + i);
      FindAt(m', k, k + i);
    }
  }

  lemma SameStart<T(!new)>(m: Chunked<T>, m': Chunked<T>, k: nat)
    requires Good(m) && Good(m') && k in m && forall n: nat :: Find(m, n) == Find(m', n)
    ensures k in m'
  {
    FindAt(m, k, k);
    assert Find(m', k).Some?;
    var j: nat :| Covers(m', j, k);
    if j < k {
      Edges(m, k);
      FindAt(m', j, k - 1);
      assert false;
    }
  }

  lemma NoLonger<T(!new)>(m: Chunked<T>, m': Chunked<T>, k: nat)
    requires Good(m) && Good(m') && k in m && k in m' && forall n: nat :: Find(m, n) == Find(m', n)
    ensures |m'[k]| <= |m[k]|
  {
    if |m[k]| < |m'[k]| {
      Edges(m, k);
      FindAt(m', k, k + |m[k]|);
      assert false;
    }
  }

  class Chunks<T(!new)> {
    var chunks: Chunked<T>

    ghost predicate Valid()
      reads this
    {
      Good(chunks)
    }

    ghost function At(n: nat): Option<T>
      reads this
    {
      Find(chunks, n)
    }

    constructor ()
      ensures Valid() && forall n: nat :: At(n) == None
    {
      chunks := map[];
    }

    /** lower_bound: the least first number not below `number`. */
    method LowerBound(number: nat) returns (r: Option<nat>)
      ensures r.None? ==> forall k :: k in chunks ==> k < number
      ensures r.Some? ==>
                r.value in chunks && r.value >= number && forall k :: k in chunks && k >= number ==> r.value <= k
    {
      r := None;
      var left := chunks.Keys;
      while left != {}
        invariant left <= chunks.Keys
        invariant r.None? ==> forall k :: k in chunks && k !in left ==> k < number
        invariant r.Some? ==>
                    && r.value in chunks && r.value >= number
                    && forall k :: k in chunks && k !in left && k >= number ==> r.value <= k
      {
        var k :| k in left;
        if k >= number && (r.None? || k < r.value) { r := Some(k); }
        left := left - {k};
      }
    }

    /** The entry before lower_bound, if that is not the first. */
    method Previous(number: nat) returns (r: Option<nat>)
      ensures r.None? ==> forall k :: k in chunks ==> k >= number
      ensures r.Some? ==>
                r.value in chunks && r.value < number && forall k :: k in chunks && k < number ==> k <= r.value
    {
      r := None;
      var left := chunks.Keys;
      while left != {}
        invariant left <= chunks.Keys
        invariant r.None? ==> forall k :: k in chunks && k !in left ==> k >= number
        invariant r.Some? ==>
                    && r.value in chunks && r.value < number
                    && forall k :: k in chunks && k !in left && k < number ==> k <= r.value
      {
        var k :| k in left;
        if k < number && (r.None? || k > r.value) { r := Some(k); }
        left := left - {k};
      }
    }

    method HaveItem(number: nat) returns (found: bool)
      requires Valid()
      ensures found <==> At(number).Some?
    {
      var lower := LowerBound(number);
      if lower == Some(number) {
        Local(chunks, number, number);
        return true;
      }
      var previous := Previous(number);
      if previous.None? { return false; }
      Local(chunks, previous.value, number);
      return previous.value + |chunks[previous.value]| > number;
    }

    method FindItem(number: nat) returns (item: Option<T>)
      requires Valid()
      ensures item == At(number)
    {
      var lower := LowerBound(number);
      if lower == Some(number) {
        Local(chunks, number, number);
        return Some(chunks[number][0]);
      }
      var previous := Previous(number);
      if previous.None? { return None; }
      var k: nat := previous.value;
      Local(chunks, k, number);
      return if k + |chunks[k]| > number then Some(chunks[k][number - k]) else None;
    }

    /** removeAllStartingWith keeps exactly the numbers below. */
    method RemoveAllStartingWith(number: nat)
      requires Valid()
      modifies this
      ensures Valid() && forall n: nat :: At(n) == if n < number then old(At(n)) else None
    {
      var lower := LowerBound(number);
      var previous := Previous(number);
      ghost var m := chunks;
      if lower == Some(number) {
        chunks := map k | k in chunks && k < number :: chunks[k];
      } else if previous.None? {
        chunks := map[];
      } else {
        var p: nat := previous.value;
        if p + |chunks[p]| > number {
          chunks := chunks[p := chunks[p][..number - p]];
        }
        chunks := map k | k in chunks && k <= p :: chunks[k];
      }
      CutIs(m, chunks, number);
    }

    /** removeAllSmallerThan keeps exactly the numbers above: the number itself goes too. */
    method RemoveAllSmallerThan(number: nat)
      requires Valid()
      modifies this
      ensures Valid() && forall n: nat :: At(n) == if n > number then old(At(n)) else None
    {
      var lower := LowerBound(number);
      var previous := Previous(number);
      ghost var m := chunks;
      if lower == Some(number) || (previous.Some? && previous.value + |chunks[previous.value]| > number) {
        var k: nat := if lower == Some(number) then number else previous.value;
        var list := chunks[k][number - k + 1..];
        chunks := map j | j in chunks && j > k :: chunks[j];
        if |list| > 0 { chunks := chunks[number + 1 := list]; }
        Across(m, chunks, k, number);
      } else if previous.Some? {
        chunks := map j | j in chunks && j > previous.value :: chunks[j];
        Ended(m, chunks, previous.value, number);
      }
      DroppedIs(m, chunks, number);
    }

    /** removeItem where the number starts a chunk. */
    method RemoveHead(number: nat)
      requires Valid() && number in chunks
      modifies this
      ensures Valid() && forall n: nat :: At(n) == if n == number then None else old(At(n))
    {
      ghost var m := chunks;
      var list := chunks[number][1..];
      chunks := chunks - {number};
      if |list| > 0 { chunks := chunks[number + 1 := list]; }
      BeheadedIs(m, chunks, number, 1);
    }

    /** What collectBlocks leaves of the chunk from `first` after handing over its first `i` items. */
    method TrimHead(first: nat, i: nat)
      requires Valid() && first in chunks && i <= |chunks[first]|
      modifies this
      ensures Valid() && forall n: nat :: At(n) == if first <= n < first + i then None else old(At(n))
    {
      ghost var m := chunks;
      var list := chunks[first][i..];
      chunks := chunks - {first};
      if |list| > 0 { chunks := chunks[first + i := list]; }
      BeheadedIs(m, chunks, first, i);
    }

    /** mergeInto puts an absent number in and touches nothing else. */
    method MergeInto(number: nat, data: T)
      requires Valid() && At(number).None?
      modifies this
      ensures Valid() && forall n: nat :: At(n) == if n == number then Some(data) else old(At(n))
    {
      ghost var m := chunks;
      var previous := Previous(number);
      Free(m, number);
      var start: nat := number;
      if previous.Some? && previous.value + |chunks[previous.value]| == number {
        start := previous.value;
        chunks := chunks[start := chunks[start] + [data]];
      } else {
        chunks := chunks[number := [data]];
      }
      Absorb(start);
      JoinedIs(m, chunks, start, number, data);
    }

    /** A chunk that has come to touch the next one takes it in. */
    method Absorb(start: nat)
      requires start in chunks && chunks[start] != []
      requires forall k :: k in chunks && k > start ==> k >= start + |chunks[start]|
      modifies this
      ensures var m, next := old(chunks), start + |old(chunks)[start]|;
              chunks == if next in m then m[start := m[start] + m[next]] - {next} else m
    {
      ghost var end := start + |chunks[start]|;
      var next := LowerBound(start + 1);
      if next.Some? {
        assert next.value >= end;
        if start + |chunks[start]| == next.value {
          chunks := chunks[start := chunks[start] + chunks[next.value]] - {next.value};
        }
      }
    }
  }

  /** Chunks below `number` stay, the one across it is cut, the others are gone. */
  ghost predicate Cut<T(!new)>(m: Chunked<T>, m': Chunked<T>, number: nat) {
    forall k :: && (k in m' <==> k in m && k < number)
                && (k in m' ==> m'[k] == if k + |m[k]| <= number then m[k] else m[k][..number - k])
  }

  lemma CutIs<T(!new)>(m: Chunked<T>, m': Chunked<T>, number: nat)
    requires Good(m) && Cut(m, m', number)
    ensures Good(m') && forall n: nat :: Find(m', n) == if n < number then Find(m, n) else None
  {
    forall n: nat ensures Find(m', n) == if n < number then Find(m, n) else None {
      if n < number {
        forall k: nat | Covers(m, k, n) ensures Covers(m', k, n) && m'[k][n - k] == m[k][n - k] {
        }
        forall k: nat | Covers(m', k, n) ensures Covers(m, k, n) {
        }
        Same(m, m', n);
      }
    }
  }

  /** Chunks above `number` stay, and so does the end of the one across it. */
  ghost predicate Dropped<T(!new)>(m: Chunked<T>, m': Chunked<T>, number: nat) {
    && (forall k :: k in m' ==> k > number)
    && (forall k :: k in m && k > number ==> k in m' && m'[k] == m[k])
    && (forall k :: k in m && k <= number && number + 1 < k + |m[k]| ==>
          number + 1 in m' && m'[number + 1] == m[k][number + 1 - k..])
    && forall k :: k in m' && k !in m ==>
         k == number + 1 && exists j :: j in m && j <= number && number + 1 < j + |m[j]|
  }

  lemma Across<T(!new)>(m: Chunked<T>, m': Chunked<T>, k: nat, number: nat)
    requires Good(m) && Covers(m, k, number)
    requires var list, above := m[k][number - k + 1..], map j | j in m && j > k :: m[j];
             m' == if |list| > 0 then above[number + 1 := list] else above
    ensures Dropped(m, m', number)
  {
    assert forall j :: j in m && j > k ==> j > number + 1 && j > k + |m[k]|;
    assert forall j :: j in m && j < k ==> j + |m[j]| <= number;
  }

  lemma Ended<T(!new)>(m: Chunked<T>, m': Chunked<T>, k: nat, number: nat)
    requires Good(m) && k in m && k < number && k + |m[k]| <= number && forall j :: j in m && j > k ==> j > number
    requires m' == map j | j in m && j > k :: m[j]
    ensures Dropped(m, m', number)
  {
    assert forall j :: j in m && j < k ==> j + |m[j]| <= number;
  }

  lemma DroppedGood<T(!new)>(m: Chunked<T>, m': Chunked<T>, number: nat)
    requires Good(m) && Dropped(m, m', number)
    ensures Good(m')
  {
    forall k | k in m' ensures m'[k] != [] && forall j :: j in m' && j < k ==> j + |m'[j]| < k {
      if k !in m {
        var i :| i in m && i <= number && number + 1 < i + |m[i]|;
      }
      forall j | j in m' && j < k ensures j + |m'[j]| < k {
        if j !in m {
          var i :| i in m && i <= number && number + 1 < i + |m[i]|;
        }
      }
    }
  }

  lemma DroppedAt<T(!new)>(m: Chunked<T>, m': Chunked<T>, number: nat, n: nat)
    requires Good(m) && Good(m') && Dropped(m, m', number) && n > number
    ensures Find(m', n) == Find(m, n)
  {
    forall k: nat | Covers(m, k, n) ensures exists k' :: Covers(m', k', n) && m'[k'][n - k'] == m[k][n - k] {
      if k <= number { assert Covers(m', number + 1, n); } else { assert Covers(m', k, n); }
    }
    forall k': nat | Covers(m', k', n) ensures exists k :: Covers(m, k, n) {
      if k' in m { assert Covers(m, k', n); }
      else {
        var j :| j in m && j <= number && number + 1 < j + |m[j]|;
        assert Covers(m, j, n);
      }
    }
    Same(m, m', n);
  }

  lemma DroppedIs<T(!new)>(m: Chunked<T>, m': Chunked<T>, number: nat)
    requires Good(m) && Dropped(m, m', number)
    ensures Good(m') && forall n: nat :: Find(m', n) == if n > number then Find(m, n) else None
  {
    DroppedGood(m, m', number);
    forall n: nat ensures Find(m', n) == if n > number then Find(m, n) else None {
      if n > number { DroppedAt(m, m', number, n); }
    }
  }

  /** The first `i` items of one chunk are gone. */
  ghost predicate Beheaded<T(!new)>(m: Chunked<T>, m': Chunked<T>, first: nat, i: nat)
    requires first in m && i <= |m[first]|
  {
    var list := m[first][i..];
    m' == if |list| > 0 then (m - {first})[first + i := list] else m - {first}
  }

  lemma BeheadedGood<T(!new)>(m: Chunked<T>, m': Chunked<T>, first: nat, i: nat)
    requires Good(m) && first in m && i <= |m[first]| && Beheaded(m, m', first, i)
    ensures Good(m')
  {
    assert forall j :: j in m && j > first ==> j > first + |m[first]|;
    assert forall j :: j in m && j < first ==> j + |m[j]| < first;
  }

  lemma BeheadedIs<T(!new)>(m: Chunked<T>, m': Chunked<T>, first: nat, i: nat)
    requires Good(m) && first in m && i <= |m[first]| && Beheaded(m, m', first, i)
    ensures Good(m') && forall n: nat :: Find(m', n) == if first <= n < first + i then None else Find(m, n)
  {
    BeheadedGood(m, m', first, i);
    forall n: nat ensures Find(m', n) == if first <= n < first + i then None else Find(m, n) {
      if first <= n < first + i {
        FindAt(m, first, n);
      } else {
        forall k: nat | Covers(m, k, n) ensures exists k' :: Covers(m', k', n) && m'[k'][n - k'] == m[k][n - k] {
          if k == first { assert Covers(m', first + i, n); } else { assert Covers(m', k, n); }
        }
        forall k': nat | Covers(m', k', n) ensures exists k :: Covers(m, k, n) {
          if k' == first + i { assert Covers(m, first, n); } else { assert Covers(m, k', n); }
        }
        Same(m, m', n);
      }
    }
  }

  /** An absent number touches no chunk but at its ends. */
  lemma Free<T(!new)>(m: Chunked<T>, number: nat)
    requires Good(m) && Find(m, number).None?
    ensures number !in m && forall k :: k in m && k < number ==> k + |m[k]| <= number
  {
    forall k | k in m && k <= number ensures !Covers(m, k, number) {
    }
  }

  /** The chunk from `start` has taken `number` in, and the chunk after it if that is next. */
  ghost predicate Joined<T(!new)>(m: Chunked<T>, m': Chunked<T>, start: nat, number: nat, data: T) {
    && start <= number && start in m' && (start == number || (start in m && start + |m[start]| == number))
    && (number + 1 in m ==> number + 1 !in m')
    && (var base := if start < number then m[start] + [data] else [data];
        m'[start] == if number + 1 in m then base + m[number + 1] else base)
    && (forall k :: k in m && k != start && k != number + 1 ==> k in m' && m'[k] == m[k])
    && forall k :: k in m' && k != start ==> k in m && m'[k] == m[k]
  }

  lemma JoinedGood<T(!new)>(m: Chunked<T>, m': Chunked<T>, start: nat, number: nat, data: T)
    requires Good(m) && number !in m && Joined(m, m', start, number, data)
    requires forall k :: k in m && k < number && k != start ==> k + |m[k]| < number
    ensures Good(m')
  {
    assert number + 1 in m ==> forall k :: k in m && k > number + 1 ==> k > number + 1 + |m[number + 1]|;
    assert forall k :: k in m && k < start ==> k + |m[k]| < start;
  }

  lemma JoinedIs<T(!new)>(m: Chunked<T>, m': Chunked<T>, start: nat, number: nat, data: T)
    requires Good(m) && Find(m, number).None? && Joined(m, m', start, number, data)
    requires start == number ==> forall k :: k in m && k < number ==> k + |m[k]| < number
    ensures Good(m') && forall n: nat :: Find(m', n) == if n == number then Some(data) else Find(m, n)
  {
    Free(m, number);
    JoinedGood(m, m', start, number, data);
    forall n: nat ensures Find(m', n) == if n == number then Some(data) else Find(m, n) {
      if n == number {
        FindAt(m', start, n);
      } else {
        forall k: nat | Covers(m, k, n) ensures exists k' :: Covers(m', k', n) && m'[k'][n - k'] == m[k][n - k] {
          if k == start || k == number + 1 { assert Covers(m', start, n); } else { assert Covers(m', k, n); }
        }
        forall k': nat | Covers(m', k', n) ensures exists k :: Covers(m, k, n) {
          if k' != start { assert Covers(m, k', n); }
          else if n < number { assert Covers(m, start, n); }
          else { assert Covers(m, number + 1, n); }
        }
        Same(m, m', n);
      }
    }
  }
}
