/** The table-driven scanner loop that the generated parsers share: per state, a
    sorted run of single keys, then a sorted run of key ranges, then a default. */
module Ragel {

  datatype Machine = Machine(
    keyOffsets: seq<nat>, keys: seq<nat>,
    singleLengths: seq<nat>, rangeLengths: seq<nat>, indexOffsets: seq<nat>,
    targets: seq<nat>, actions: seq<nat>)

  /** State `cs` owns keys[k..k+n] as singles and the r pairs after them as ranges, each
      range ending before the next begins. */
  ghost predicate ValidState(m: Machine, cs: nat)
    requires cs < |m.keyOffsets| == |m.singleLengths| == |m.rangeLengths| == |m.indexOffsets|
  {
    var k, n, r := m.keyOffsets[cs], m.singleLengths[cs], m.rangeLengths[cs];
    && k + n + 2 * r <= |m.keys|
    && (forall i, j :: k <= i < j < k + n ==> m.keys[i] < m.keys[j])
    && (forall i, j :: k + n <= i < j < k + n + 2 * r ==> m.keys[i] <= m.keys[j])
    && (forall j :: 0 <= j < r - 1 ==> RangeEnd(m, cs, j) < m.keys[k + n + 2 * j + 2])
    && m.indexOffsets[cs] + n + r < |m.targets|
  }

  /** The last key of the j-th range. */
  function RangeEnd(m: Machine, cs: nat, j: nat): (c: nat)
    requires cs < |m.keyOffsets| == |m.singleLengths| == |m.rangeLengths|
    requires j < m.rangeLengths[cs] && m.keyOffsets[cs] + m.singleLengths[cs] + 2 * m.rangeLengths[cs] <= |m.keys|
  {
    m.keys[m.keyOffsets[cs] + m.singleLengths[cs] + 2 * j + 1]
  }

  ghost predicate WellFormed(m: Machine) {
    && |m.keyOffsets| == |m.singleLengths| == |m.rangeLengths| == |m.indexOffsets|
    && |m.targets| == |m.actions|
    && (forall cs :: 0 <= cs < |m.keyOffsets| ==> ValidState(m, cs))
    && (forall i :: 0 <= i < |m.targets| ==> m.targets[i] < |m.keyOffsets|)
  }

  ghost predicate SingleHit(m: Machine, cs: nat, c: nat, i: nat)
    requires WellFormed(m) && cs < |m.keyOffsets|
  {
    i < m.singleLengths[cs] && (assert ValidState(m, cs); m.keys[m.keyOffsets[cs] + i] == c)
  }

  ghost predicate RangeHit(m: Machine, cs: nat, c: nat, j: nat)
    requires WellFormed(m) && cs < |m.keyOffsets|
  {
    && j < m.rangeLengths[cs]
    && (assert ValidState(m, cs);
        var first := m.keyOffsets[cs] + m.singleLengths[cs] + 2 * j;
        m.keys[first] <= c <= m.keys[first + 1])
  }

  /** What the tables mean: `trans` is the entry for byte `c` in state `cs`. */
  ghost predicate Selects(m: Machine, cs: nat, c: nat, trans: nat)
    requires WellFormed(m) && cs < |m.keyOffsets|
  {
    var n, r, base := m.singleLengths[cs], m.rangeLengths[cs], m.indexOffsets[cs];
    || (exists i: nat :: SingleHit(m, cs, c, i) && trans == base + i)
    || ((forall i: nat :: !SingleHit(m, cs, c, i))
        && (exists j: nat :: RangeHit(m, cs, c, j) && trans == base + n + j))
    || ((forall i: nat :: !SingleHit(m, cs, c, i)) && (forall j: nat :: !RangeHit(m, cs, c, j))
        && trans == base + n + r)
  }

  /** Binary search among `n` strictly ascending keys from `k`; -1 when absent. */
  method SearchSingles(table: seq<nat>, k: nat, n: nat, c: nat) returns (index: int)
    requires k + n <= |table|
    requires forall i, j :: k <= i < j < k + n ==> table[i] < table[j]
    ensures -1 <= index < n
    ensures index >= 0 ==> table[k + index] == c
    ensures index < 0 ==> forall i :: k <= i < k + n ==> table[i] != c
  {
    var lower: int, upper: int := k, k + n - 1;
    while lower <= upper
      invariant k <= lower <= upper + 1 <= k + n
      invariant forall i :: k <= i < lower ==> table[i] < c
      invariant forall i :: upper < i < k + n ==> c < table[i]
    {
      var mid := lower + (upper - lower) / 2;
      if c < table[mid] {
        upper := mid - 1;
      } else if table[mid] < c {
        lower := mid + 1;
      } else {
        return mid - k;
      }
    }
    return -1;
  }

  /** The same search among `r` pairs of range ends; -1 when no range holds `c`. */
  method SearchRanges(table: seq<nat>, k: nat, r: nat, c: nat) returns (index: int)
    requires k + 2 * r <= |table|
    requires forall i, j :: k <= i < j < k + 2 * r ==> table[i] <= table[j]
    ensures -1 <= index < r
    ensures index >= 0 ==> table[k + 2 * index] <= c <= table[k + 2 * index + 1]
    ensures index < 0 ==> forall j :: 0 <= j < r ==> !(table[k + 2 * j] <= c <= table[k + 2 * j + 1])
  {
    var lower: int, upper: int := k, k + 2 * r - 2;
    ghost var l, u := 0, r;
    while lower <= upper
      invariant lower == k + 2 * l && upper == k + 2 * u - 2 && 0 <= l <= u <= r
      invariant forall i :: k <= i < lower ==> table[i] < c
      invariant forall i :: upper + 2 <= i < k + 2 * r ==> c < table[i]
    {
      var half := (upper - lower) / 2;
      var mid := lower + (half - half % 2);
      ghost var m := l + half / 2;
      assert mid == k + 2 * m && l <= m < u;
      if c < table[mid] {
        upper := mid - 2;
        u := m;
      } else if table[mid + 1] < c {
        lower := mid + 2;
        l := m + 1;
      } else {
        return (mid - k) / 2;
      }
    }
    return -1;
  }

  /** The generated driver: the state's singles first, then its ranges, then the default. */
  method Lookup(m: Machine, cs: nat, c: nat) returns (trans: nat)
    requires WellFormed(m) && cs < |m.keyOffsets|
    ensures Selects(m, cs, c, trans)
    ensures trans < |m.targets|
  {
    assert ValidState(m, cs);
    var k, n, r := m.keyOffsets[cs], m.singleLengths[cs], m.rangeLengths[cs];
    trans := m.indexOffsets[cs];
    if n > 0 {
      var i := SearchSingles(m.keys, k, n, c);
      if i >= 0 {
        assert SingleHit(m, cs, c, i);
        return trans + i;
      }
    }
    assert forall i: nat :: !SingleHit(m, cs, c, i);
    if r > 0 {
      var j := SearchRanges(m.keys, k + n, r, c);
      if j >= 0 {
        assert RangeHit(m, cs, c, j);
        return trans + n + j;
      }
    }
    assert forall j: nat :: !RangeHit(m, cs, c, j);
    trans := trans + n + r;
  }

  lemma {:induction false} RangesApart(m: Machine, cs: nat, c: nat, j: nat, l: nat)
    requires WellFormed(m) && cs < |m.keyOffsets| && RangeHit(m, cs, c, j) && j < l < m.rangeLengths[cs]
    ensures !RangeHit(m, cs, c, l)
  {
    assert ValidState(m, cs);
    var ranges := m.keyOffsets[cs] + m.singleLengths[cs];
    assert RangeEnd(m, cs, j) < m.keys[ranges + 2 * j + 2];
    var next, last := ranges + 2 * j + 2, ranges + 2 * l;
    assert next < last ==> m.keys[next] <= m.keys[last];
  }

  /** In well-formed tables one entry fits, so `Lookup` is the transition function the
      tables denote. */
  lemma {:induction false} SelectsUnique(m: Machine, cs: nat, c: nat, s: nat, t: nat)
    requires WellFormed(m) && cs < |m.keyOffsets|
    requires Selects(m, cs, c, s) && Selects(m, cs, c, t)
    ensures s == t
  {
    assert ValidState(m, cs);
    forall i: nat, l: nat | SingleHit(m, cs, c, i) && SingleHit(m, cs, c, l)
      ensures i == l
    {
      var k := m.keyOffsets[cs];
      assert m.keys[k + i] == m.keys[k + l];
    }
    forall j: nat, l: nat | RangeHit(m, cs, c, j) && RangeHit(m, cs, c, l)
      ensures j == l
    {
      var first, second := if j < l then j else l, if j < l then l else j;
      if first < second { RangesApart(m, cs, c, first, second); }
    }
  }

  /** Entry `acts` of an action table: a count, then that many action numbers. */
  function ActionList(table: seq<nat>, acts: nat): (r: seq<nat>)
    requires acts < |table| && acts + 1 + table[acts] <= |table|
  {
    if acts == 0 then [] else table[acts + 1..acts + 1 + table[acts]]
  }
}
