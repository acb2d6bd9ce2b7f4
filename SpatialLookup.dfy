/** The lookup table the force passes search: one entry per particle naming
    its cell hash and table key, sorted by key, and an offsets table giving
    the first sorted index of every key. This module holds the values the
    table must take and the facts that make the 3x3 neighbour search
    correct; the class in Computing fills the table in place. */
module SpatialLookup {
  import opened Vectors
  import opened SpatialHash
  import opened Sums

  /** One row of the lookup table: [particleIndex, cellHash, cellKey]. */
  datatype Entry = Entry(particleIndex: nat, cellHash: int, cellKey: int)

  /** The row written for particle i standing at point p. */
  function EntryFor(i: nat, p: Vec, radius: real, tableSize: int): (e: Entry)
    requires radius != 0.0 && tableSize > 0
    ensures e.particleIndex == i && 0 <= e.cellKey < tableSize
    ensures e.cellKey == GetKeyFromHash(e.cellHash, tableSize)
  {
    var cellHash := HashCell(GetCell(p, radius));
    Entry(i, cellHash, GetKeyFromHash(cellHash, tableSize))
  }

  /** The unsorted table: row i belongs to particle i. */
  function EntriesOf(pts: seq<Vec>, radius: real): (t: seq<Entry>)
    requires radius != 0.0
    ensures |t| == |pts|
    ensures forall i {:trigger t[i]} :: 0 <= i < |pts| ==> t[i] == EntryFor(i, pts[i], radius, |pts|)
  {
    seq(|pts|, i requires 0 <= i < |pts| => EntryFor(i, pts[i], radius, |pts|))
  }

  /** Places e before the first row whose key is not smaller, so that e
      comes ahead of the rows of equal key that followed it in the input. */
  function InsertByKey(e: Entry, s: seq<Entry>): seq<Entry> {
    if s == [] || e.cellKey <= s[0].cellKey then [e] + s
    else [s[0]] + InsertByKey(e, s[1..])
  }

  /** Python's sorted(..., key=cellKey): a stable sort on the key. */
  function SortByKey(s: seq<Entry>): seq<Entry> {
    if s == [] then [] else InsertByKey(s[0], SortByKey(s[1..]))
  }

  /** The table after a rebuild: the rows of every particle, sorted by key. */
  function TableOf(pts: seq<Vec>, radius: real): seq<Entry>
    requires radius != 0.0
  {
    SortByKey(EntriesOf(pts, radius))
  }

  ghost predicate SortedByKey(t: seq<Entry>) {
    forall a, b :: 0 <= a < b < |t| ==> t[a].cellKey <= t[b].cellKey
  }

  ghost predicate DistinctIndices(t: seq<Entry>) {
    forall a, b :: 0 <= a < b < |t| ==> t[a].particleIndex != t[b].particleIndex
  }

  ghost predicate AscendingIndices(t: seq<Entry>) {
    forall a, b :: 0 <= a < b < |t| ==> t[a].particleIndex < t[b].particleIndex
  }

  /** Rows of equal key keep ascending particle order. */
  ghost predicate StableByIndex(t: seq<Entry>) {
    forall a, b :: 0 <= a < b < |t| && t[a].cellKey == t[b].cellKey ==> t[a].particleIndex < t[b].particleIndex
  }

  /** Insertion adds exactly the one row. */
  lemma {:induction false} InsertByKeyPermutes(e: Entry, s: seq<Entry>)
    ensures multiset(InsertByKey(e, s)) == multiset(s) + multiset{e}
    ensures |InsertByKey(e, s)| == |s| + 1
  {
    if s == [] || e.cellKey <= s[0].cellKey {
    } else {
      InsertByKeyPermutes(e, s[1..]);
      assert s == [s[0]] + s[1..];
    }
  }

  /** Insertion into rows sorted by key keeps them sorted. */
  lemma {:induction false} InsertByKeySorted(e: Entry, s: seq<Entry>)
    requires SortedByKey(s)
    ensures SortedByKey(InsertByKey(e, s))
  {
    if s == [] || e.cellKey <= s[0].cellKey {
      forall x | x in s ensures e.cellKey <= x.cellKey {
        var k :| 0 <= k < |s| && s[k] == x;
      }
      SortedFront(e, s);
    } else {
      var r := InsertByKey(e, s[1..]);
      InsertByKeySorted(e, s[1..]);
      InsertByKeyPermutes(e, s[1..]);
      forall x | x in r ensures s[0].cellKey <= x.cellKey {
        assert x in multiset(r);
        if x != e {
          assert x in multiset(s[1..]);
          var q :| 0 <= q < |s[1..]| && s[1..][q] == x;
          assert s[q + 1] == x;
        }
      }
      SortedFront(s[0], r);
    }
  }

  /** A row placed in front of sorted rows keeps them sorted when its key is
      not larger than any of theirs. */
  lemma SortedFront(e: Entry, r: seq<Entry>)
    requires SortedByKey(r)
    requires forall x :: x in r ==> e.cellKey <= x.cellKey
    ensures SortedByKey([e] + r)
  {
    var t := [e] + r;
    forall a, b | 0 <= a < b < |t| ensures t[a].cellKey <= t[b].cellKey {
      if a == 0 {
        assert t[b] in r;
      } else {
        assert t[a] == r[a - 1] && t[b] == r[b - 1];
      }
    }
  }

  /** Inserting a row whose particle index precedes all others keeps rows of
      equal key in ascending particle order and keeps indices distinct. */
  lemma {:induction false} InsertByKeyStable(e: Entry, s: seq<Entry>)
    requires SortedByKey(s) && StableByIndex(s) && DistinctIndices(s)
    requires forall x :: x in s ==> e.particleIndex < x.particleIndex
    ensures StableByIndex(InsertByKey(e, s)) && DistinctIndices(InsertByKey(e, s))
  {
    if s == [] || e.cellKey <= s[0].cellKey {
      StableFront(e, s);
    } else {
      var r := InsertByKey(e, s[1..]);
      InsertByKeyStable(e, s[1..]);
      InsertByKeyPermutes(e, s[1..]);
      forall x | x in r
        ensures s[0].cellKey <= x.cellKey
        ensures s[0].cellKey < x.cellKey || s[0].particleIndex < x.particleIndex
        ensures s[0].particleIndex != x.particleIndex
      {
        assert x in multiset(r);
        if x != e {
          var q :| 0 <= q < |s[1..]| && s[1..][q] == x;
          assert s[q + 1] == x;
        }
      }
      StableFront(s[0], r);
    }
  }

  /** A row placed in front keeps both orders when it precedes every other
      row of its key and shares no particle with them. */
  lemma StableFront(e: Entry, r: seq<Entry>)
    requires StableByIndex(r) && DistinctIndices(r)
    requires forall x :: x in r ==> e.cellKey < x.cellKey || e.particleIndex < x.particleIndex
    requires forall x :: x in r ==> e.particleIndex != x.particleIndex
    ensures StableByIndex([e] + r) && DistinctIndices([e] + r)
  {
    var t := [e] + r;
    forall a, b | 0 <= a < b < |t|
      ensures t[a].cellKey == t[b].cellKey ==> t[a].particleIndex < t[b].particleIndex
      ensures t[a].particleIndex != t[b].particleIndex
    {
      if a == 0 {
        assert t[b] in r;
      } else {
        assert t[a] == r[a - 1] && t[b] == r[b - 1];
      }
    }
  }

  /** The sorted table is a permutation of its input, sorted by key. */
  lemma SortByKeySorts(s: seq<Entry>)
    ensures |SortByKey(s)| == |s|
    ensures multiset(SortByKey(s)) == multiset(s)
    ensures SortedByKey(SortByKey(s))
  {
    SortByKeyPermutes(s);
    SortByKeySorted(s);
  }

  lemma {:induction false} SortByKeyPermutes(s: seq<Entry>)
    ensures |SortByKey(s)| == |s|
    ensures multiset(SortByKey(s)) == multiset(s)
  {
    if s != [] {
      SortByKeyPermutes(s[1..]);
      InsertByKeyPermutes(s[0], SortByKey(s[1..]));
      assert s == [s[0]] + s[1..];
    }
  }

  lemma {:induction false} SortByKeySorted(s: seq<Entry>)
    ensures SortedByKey(SortByKey(s))
  {
    if s != [] {
      SortByKeySorted(s[1..]);
      InsertByKeySorted(s[0], SortByKey(s[1..]));
    }
  }

  /** The sort is stable: fed rows in ascending particle order, it leaves the
      rows of each key in ascending particle order. */
  lemma {:induction false} SortByKeyStable(s: seq<Entry>)
    requires AscendingIndices(s)
    ensures StableByIndex(SortByKey(s)) && DistinctIndices(SortByKey(s))
  {
    if s != [] {
      var rest := SortByKey(s[1..]);
      SortByKeyStable(s[1..]);
      SortByKeyPermutes(s[1..]);
      SortByKeySorted(s[1..]);
      forall x | x in rest ensures s[0].particleIndex < x.particleIndex {
        assert x in multiset(rest);
        var q :| 0 <= q < |s[1..]| && s[1..][q] == x;
        assert s[q + 1] == x;
      }
      InsertByKeyStable(s[0], rest);
    }
  }

  /** What a rebuilt table holds: every row belongs to one particle and is
      that particle's row, every particle has a row, and the rows are sorted
      by key and, within a key, by particle. */
  lemma TableFacts(pts: seq<Vec>, radius: real)
    requires radius != 0.0
    ensures |TableOf(pts, radius)| == |pts|
    ensures SortedByKey(TableOf(pts, radius))
    ensures StableByIndex(TableOf(pts, radius)) && DistinctIndices(TableOf(pts, radius))
    ensures forall p :: 0 <= p < |pts| ==>
              TableOf(pts, radius)[p].particleIndex < |pts| &&
              TableOf(pts, radius)[p] == EntryFor(TableOf(pts, radius)[p].particleIndex, pts[TableOf(pts, radius)[p].particleIndex], radius, |pts|)
    ensures forall j :: 0 <= j < |pts| ==> EntryFor(j, pts[j], radius, |pts|) in TableOf(pts, radius)
  {
    var s := EntriesOf(pts, radius);
    var t := TableOf(pts, radius);
    SortByKeySorts(s);
    SortByKeyStable(s);
    forall p | 0 <= p < |t|
      ensures t[p].particleIndex < |pts| && t[p] == EntryFor(t[p].particleIndex, pts[t[p].particleIndex], radius, |pts|)
    {
      assert t[p] in multiset(s);
    }
    forall j | 0 <= j < |pts| ensures EntryFor(j, pts[j], radius, |pts|) in t {
      assert s[j] in multiset(t);
    }
  }

  /** The first sorted index whose row has key k, or -1 when no row has it. */
  function FirstWithKey(t: seq<Entry>, k: int): (r: int)
    ensures -1 <= r < |t|
    ensures r == -1 ==> forall p :: 0 <= p < |t| ==> t[p].cellKey != k
    ensures r >= 0 ==> t[r].cellKey == k && forall p :: 0 <= p < r ==> t[p].cellKey != k
  {
    if t == [] then -1
    else if t[0].cellKey == k then 0
    else
      var r := FirstWithKey(t[1..], k);
      if r == -1 then -1 else r + 1
  }

  /** Looking one row further changes the first index of k only when k had
      no row before and the new row has it. */
  lemma FirstWithKeyExtend(t: seq<Entry>, p: nat, k: int)
    requires p < |t|
    ensures FirstWithKey(t[..p + 1], k)
         == if FirstWithKey(t[..p], k) >= 0 then FirstWithKey(t[..p], k)
            else if t[p].cellKey == k then p else -1
  {
    var u, u1 := t[..p], t[..p + 1];
    var r := FirstWithKey(u, k);
    assert forall q :: 0 <= q < p ==> u[q] == u1[q];
    assert u1[p] == t[p];
  }

  /** In a sorted table a row opens the run of its key exactly when the row
      before it has another key (or there is none). */
  lemma NewKeyStartsRun(t: seq<Entry>, p: nat)
    requires SortedByKey(t) && p < |t|
    ensures (p == 0 || t[p - 1].cellKey != t[p].cellKey) <==> FirstWithKey(t[..p], t[p].cellKey) == -1
  {
    var u := t[..p];
    if p > 0 && t[p - 1].cellKey == t[p].cellKey {
      assert u[p - 1].cellKey == t[p].cellKey;
    }
  }

  /** Every row's key is the key of its hash. */
  ghost predicate KeysFollowHashes(t: seq<Entry>, tableSize: int)
    requires tableSize > 0
  {
    forall p :: 0 <= p < |t| ==> t[p].cellKey == GetKeyFromHash(t[p].cellHash, tableSize)
  }

  /** The rows of a rebuilt table carry keys of the table's own size. */
  lemma TableKeys(pts: seq<Vec>, radius: real)
    requires radius != 0.0
    ensures |TableOf(pts, radius)| == |pts| && SortedByKey(TableOf(pts, radius))
    ensures |pts| > 0 ==> KeysFollowHashes(TableOf(pts, radius), |pts|)
    ensures forall p :: 0 <= p < |pts| ==> TableOf(pts, radius)[p].particleIndex < |pts|
    ensures forall p :: 0 <= p < |TableOf(pts, radius)| ==> 0 <= TableOf(pts, radius)[p].cellKey < |pts|
  {
    TableFacts(pts, radius);
  }

  /** The particle indices of the rows with hash h, in table order. */
  function HashMatches(t: seq<Entry>, h: int): seq<nat> {
    if t == [] then []
    else HashMatches(t[..|t| - 1], h) + (if t[|t| - 1].cellHash == h then [t[|t| - 1].particleIndex] else [])
  }

  lemma HashMatchesSnoc(t: seq<Entry>, e: Entry, h: int)
    ensures HashMatches(t + [e], h) == HashMatches(t, h) + (if e.cellHash == h then [e.particleIndex] else [])
  {
    assert (t + [e])[..|t|] == t;
  }

  /** Reading one more row of a slice adds that row's particle when its hash
      is h. */
  lemma HashMatchesExtend(t: seq<Entry>, f: nat, e: nat, h: int)
    requires f <= e < |t|
    ensures HashMatches(t[f..e + 1], h) == HashMatches(t[f..e], h) + (if t[e].cellHash == h then [t[e].particleIndex] else [])
  {
    assert t[f..e + 1] == t[f..e] + [t[e]];
    HashMatchesSnoc(t[f..e], t[e], h);
  }

  /** j is among the matches of h exactly when some row of particle j has
      hash h. */
  lemma {:induction false} HashMatchesMembers(t: seq<Entry>, h: int)
    ensures forall j :: j in HashMatches(t, h) <==> exists p :: 0 <= p < |t| && t[p].cellHash == h && t[p].particleIndex == j
  {
    if t != [] {
      var t0 := t[..|t| - 1];
      HashMatchesMembers(t0, h);
      forall j | j in HashMatches(t, h)
        ensures exists p :: 0 <= p < |t| && t[p].cellHash == h && t[p].particleIndex == j
      {
        if j in HashMatches(t0, h) {
          var p :| 0 <= p < |t0| && t0[p].cellHash == h && t0[p].particleIndex == j;
          assert t[p] == t0[p];
        } else {
          assert t[|t| - 1].cellHash == h && t[|t| - 1].particleIndex == j;
        }
      }
      forall j | exists p :: 0 <= p < |t| && t[p].cellHash == h && t[p].particleIndex == j
        ensures j in HashMatches(t, h)
      {
        var p :| 0 <= p < |t| && t[p].cellHash == h && t[p].particleIndex == j;
        if p < |t| - 1 {
          assert t0[p] == t[p];
        }
      }
    }
  }

  /** No hash matches anywhere when no row carries the hash. */
  lemma {:induction false} HashMatchesNone(t: seq<Entry>, h: int)
    requires forall p :: 0 <= p < |t| ==> t[p].cellHash != h
    ensures HashMatches(t, h) == []
  {
    if t != [] {
      HashMatchesNone(t[..|t| - 1], h);
    }
  }

  /** Matches over a table split in two are the matches of the parts. */
  lemma {:induction false} HashMatchesSplit(t: seq<Entry>, m: nat, h: int)
    requires m <= |t|
    ensures HashMatches(t, h) == HashMatches(t[..m], h) + HashMatches(t[m..], h)
    decreases |t|
  {
    if m == |t| {
      assert t[..m] == t;
      assert t[m..] == [];
    } else {
      var t0 := t[..|t| - 1];
      HashMatchesSplit(t0, m, h);
      assert t0[..m] == t[..m];
      assert t[m..] == t0[m..] + [t[|t| - 1]];
      HashMatchesSnoc(t0[m..], t[|t| - 1], h);
    }
  }

  lemma HashMatchesNoDups(t: seq<Entry>, h: int)
    requires DistinctIndices(t)
    ensures NoDups(HashMatches(t, h))
  {
    HashMatchesNoDupsUpTo(t, |t|, h);
    assert t[..|t|] == t;
  }

  lemma {:induction false} HashMatchesNoDupsUpTo(t: seq<Entry>, m: nat, h: int)
    requires DistinctIndices(t) && m <= |t|
    ensures NoDups(HashMatches(t[..m], h))
  {
    if m > 0 {
      var t0 := t[..m - 1];
      HashMatchesNoDupsUpTo(t, m - 1, h);
      assert t[..m] == t0 + [t[m - 1]];
      HashMatchesSnoc(t0, t[m - 1], h);
      HashMatchesMembers(t0, h);
      var a, e := HashMatches(t0, h), t[m - 1];
      if e.cellHash == h {
        forall q | 0 <= q < |a| ensures a[q] != e.particleIndex {
          assert a[q] in a;
          var p :| 0 <= p < |t0| && t0[p].cellHash == h && t0[p].particleIndex == a[q];
          assert t[p] == t0[p];
        }
      }
    }
  }

  /** A key no row has is the key of no row's hash: a hash whose key has no
      run has no matches. */
  lemma NoRunNoMatches(t: seq<Entry>, h: int, tableSize: int)
    requires tableSize > 0 && KeysFollowHashes(t, tableSize)
    requires FirstWithKey(t, GetKeyFromHash(h, tableSize)) == -1
    ensures HashMatches(t, h) == []
  {
    HashMatchesNone(t, h);
  }

  /** The rows of hash h all lie in the run of h's key, so scanning that run
      from its first row to the first row of another key finds every match. */
  lemma RunMatches(t: seq<Entry>, h: int, tableSize: int, f: nat, e: nat)
    requires tableSize > 0 && KeysFollowHashes(t, tableSize) && SortedByKey(t)
    requires f == FirstWithKey(t, GetKeyFromHash(h, tableSize)) && f <= e <= |t|
    requires forall q :: f <= q < e ==> t[q].cellKey == GetKeyFromHash(h, tableSize)
    requires e == |t| || t[e].cellKey != GetKeyFromHash(h, tableSize)
    ensures HashMatches(t, h) == HashMatches(t[f..e], h)
  {
    NoMatchesBeforeRun(t, h, tableSize, f);
    NoMatchesAfterRun(t, h, tableSize, f, e);
    MatchesWithin(t, h, f, e);
  }

  /** When nothing before f and nothing from e on matches, all the matches
      lie in t[f..e]. */
  lemma MatchesWithin(t: seq<Entry>, h: int, f: nat, e: nat)
    requires f <= e <= |t|
    requires HashMatches(t[..f], h) == [] && HashMatches(t[e..], h) == []
    ensures HashMatches(t, h) == HashMatches(t[f..e], h)
  {
    var from := t[f..];
    HashMatchesSplit(t, f, h);
    assert HashMatches(t, h) == HashMatches(from, h);
    HashMatchesSplit(from, e - f, h);
    assert from[..e - f] == t[f..e];
    assert from[e - f..] == t[e..];
  }

  lemma NoMatchesBeforeRun(t: seq<Entry>, h: int, tableSize: int, f: nat)
    requires tableSize > 0 && KeysFollowHashes(t, tableSize)
    requires f == FirstWithKey(t, GetKeyFromHash(h, tableSize))
    ensures HashMatches(t[..f], h) == []
  {
    var before := t[..f];
    forall q | 0 <= q < |before| ensures before[q].cellHash != h {
      assert before[q] == t[q];
    }
    HashMatchesNone(before, h);
  }

  lemma NoMatchesAfterRun(t: seq<Entry>, h: int, tableSize: int, f: nat, e: nat)
    requires tableSize > 0 && KeysFollowHashes(t, tableSize) && SortedByKey(t)
    requires f == FirstWithKey(t, GetKeyFromHash(h, tableSize)) && f <= e <= |t|
    requires e == |t| || t[e].cellKey != GetKeyFromHash(h, tableSize)
    ensures HashMatches(t[e..], h) == []
  {
    var k, after := GetKeyFromHash(h, tableSize), t[e..];
    forall q | 0 <= q < |after| ensures after[q].cellHash != h {
      assert after[q] == t[e + q];
      assert t[e].cellKey > k by {
        assert t[f].cellKey == k;
      }
      assert t[e + q].cellKey >= t[e].cellKey;
    }
    HashMatchesNone(after, h);
  }

  /** The hash of the k-th cell of the 3x3 block around c. */
  function BlockHash(c: Cell, k: nat): int
    requires k < |Offsets|
  {
    HashCell(AddCell(c, Offsets[k]))
  }

  /** The particle indices a search visits around cell c after its first m
      offsets: for each offset, the matches of that cell's hash. */
  function BlockMatches(t: seq<Entry>, c: Cell, m: nat): seq<nat>
    requires m <= |Offsets|
  {
    if m == 0 then [] else BlockMatches(t, c, m - 1) + HashMatches(t, BlockHash(c, m - 1))
  }

  lemma {:induction false} BlockMatchesMembers(t: seq<Entry>, c: Cell, m: nat)
    requires m <= |Offsets|
    ensures forall j :: j in BlockMatches(t, c, m) <==>
              exists k, p :: 0 <= k < m && 0 <= p < |t| && t[p].cellHash == BlockHash(c, k) && t[p].particleIndex == j
  {
    if m > 0 {
      BlockMatchesMembers(t, c, m - 1);
      HashMatchesMembers(t, BlockHash(c, m - 1));
    }
  }

  /** No particle is visited twice: the nine hashes are distinct and every
      particle has one row. */
  lemma {:induction false} BlockMatchesNoDups(t: seq<Entry>, c: Cell, m: nat)
    requires m <= |Offsets| && DistinctIndices(t)
    ensures NoDups(BlockMatches(t, c, m))
  {
    if m > 0 {
      var a, b := BlockMatches(t, c, m - 1), HashMatches(t, BlockHash(c, m - 1));
      BlockMatchesNoDups(t, c, m - 1);
      HashMatchesNoDups(t, BlockHash(c, m - 1));
      BlockMatchesMembers(t, c, m - 1);
      HashMatchesMembers(t, BlockHash(c, m - 1));
      NeighbourHashesDistinct(c);
      forall j | j in a ensures j !in b {
        var k, p :| 0 <= k < m - 1 && 0 <= p < |t| && t[p].cellHash == BlockHash(c, k) && t[p].particleIndex == j;
        forall p2 | 0 <= p2 < |t| && t[p2].particleIndex == j ensures t[p2].cellHash != BlockHash(c, m - 1) {
          OneRowPerParticle(t, p, p2);
        }
      }
      NoDupsAppend(a, b);
    }
  }

  lemma OneRowPerParticle(t: seq<Entry>, p: nat, p2: nat)
    requires DistinctIndices(t) && p < |t| && p2 < |t|
    ensures t[p].particleIndex == t[p2].particleIndex ==> p == p2
  {
  }

  lemma NoDupsAppend(a: seq<nat>, b: seq<nat>)
    requires NoDups(a) && NoDups(b)
    requires forall j :: j in a ==> j !in b
    ensures NoDups(a + b)
  {
    var s := a + b;
    forall x, y | 0 <= x < y < |s| ensures s[x] != s[y] {
      if x < |a| && y >= |a| {
        assert s[x] in a && s[y] == b[y - |a|];
      }
    }
  }

  /** Every particle a search visits is named by some row of the table. */
  lemma SearchStaysInTable(t: seq<Entry>, c: Cell, n: nat)
    requires forall p :: 0 <= p < |t| ==> t[p].particleIndex < n
    ensures forall k :: 0 <= k < |BlockMatches(t, c, |Offsets|)| ==> BlockMatches(t, c, |Offsets|)[k] < n
  {
    BlockMatchesMembers(t, c, |Offsets|);
    forall k | 0 <= k < |BlockMatches(t, c, |Offsets|)| ensures BlockMatches(t, c, |Offsets|)[k] < n {
      var j := BlockMatches(t, c, |Offsets|)[k];
      assert j in BlockMatches(t, c, |Offsets|);
      var o, p :| 0 <= o < |Offsets| && 0 <= p < |t| && t[p].cellHash == BlockHash(c, o) && t[p].particleIndex == j;
    }
  }

  /** What the 3x3 search around the cell of q visits in a rebuilt table:
      particles only, each once, and every particle whose distance to q is
      below the radius. */
  lemma SearchFindsNeighbours(pts: seq<Vec>, radius: real, norm: (real, real) -> real, q: Vec)
    requires radius > 0.0 && EuclideanNorm(norm)
    ensures NoDups(BlockMatches(TableOf(pts, radius), GetCell(q, radius), |Offsets|))
    ensures forall j :: j in BlockMatches(TableOf(pts, radius), GetCell(q, radius), |Offsets|) ==> j < |pts|
    ensures forall j :: 0 <= j < |pts| && norm(pts[j].x - q.x, pts[j].y - q.y) < radius ==>
              j in BlockMatches(TableOf(pts, radius), GetCell(q, radius), |Offsets|)
  {
    var t, c := TableOf(pts, radius), GetCell(q, radius);
    TableFacts(pts, radius);
    BlockMatchesNoDups(t, c, |Offsets|);
    BlockMatchesMembers(t, c, |Offsets|);
    forall j | j in BlockMatches(t, c, |Offsets|) ensures j < |pts| {
      var k, p :| 0 <= k < |Offsets| && 0 <= p < |t| && t[p].cellHash == BlockHash(c, k) && t[p].particleIndex == j;
    }
    forall j | 0 <= j < |pts| && norm(pts[j].x - q.x, pts[j].y - q.y) < radius
      ensures j in BlockMatches(t, c, |Offsets|)
    {
      AxisWithinNorm(norm, pts[j].x - q.x, pts[j].y - q.y, radius);
      var k := NearPointInBlock(pts[j], q, radius);
      var e := EntryFor(j, pts[j], radius, |pts|);
      var p :| 0 <= p < |t| && t[p] == e;
      assert t[p].cellHash == BlockHash(c, k);
    }
  }
}
