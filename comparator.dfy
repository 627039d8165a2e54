/**
 * The cross-check of two workbooks on a key column both share: key values
 * trimmed, the inner join on them, and the rows of either side whose key the
 * other lacks.
 */
module CrossCheck {
  import opened Wrappers
  import opened Strings
  import opened Cells
  import opened Tables

  /** The labels both tables carry: the key columns offered to choose from. */
  function CommonColumns(a: Table, b: Table): (r: set<string>)
    ensures forall l :: l in r <==> l in a.labels && l in b.labels
  {
    set l | l in a.labels && l in b.labels
  }

  lemma CommonColumnsSymmetric(a: Table, b: Table)
    ensures CommonColumns(a, b) == CommonColumns(b, a)
  {
  }

  // ---------------------------------------------------------------- key normalisation

  /** `df[key].astype(str).str.strip()` */
  function KeyCells(t: Table, key: string): (c: seq<Cell>)
    ensures |c| == |t.rows|
  {
    seq(|t.rows|, i requires 0 <= i < |t.rows| => Text(Trim(AsText(Get(t.labels, t.rows[i], key)))))
  }

  /** The table with its key column replaced by the trimmed text of its keys. */
  function NormaliseKey(t: Table, key: string): (r: Table)
    requires WellFormed(t) && key in t.labels
    ensures WellFormed(r) && r.labels == t.labels && |r.rows| == |t.rows|
  {
    WithColumn(t, key, KeyCells(t, key))
  }

  /** After normalisation the key reads as trimmed text and every other column is as before. */
  lemma NormaliseKeyRow(t: Table, key: string, i: nat, m: string)
    requires WellFormed(t) && key in t.labels && i < |t.rows|
    ensures var n := NormaliseKey(t, key);
      Get(n.labels, n.rows[i], m) ==
        if m == key then Text(Trim(AsText(Get(t.labels, t.rows[i], key)))) else Get(t.labels, t.rows[i], m)
  {
    GetWithColumn(t, key, KeyCells(t, key), i, m);
  }

  /** Normalising the keys a second time changes nothing. */
  lemma NormaliseKeyIdempotent(t: Table, key: string)
    requires WellFormed(t) && key in t.labels
    ensures NormaliseKey(NormaliseKey(t, key), key) == NormaliseKey(t, key)
  {
    var n := NormaliseKey(t, key);
    var c1 := KeyCells(t, key);
    var c2 := KeyCells(n, key);
    forall i | 0 <= i < |t.rows| ensures c2[i] == c1[i] {
      NormaliseKeyRow(t, key, i, key);
      TrimIdempotent(AsText(Get(t.labels, t.rows[i], key)));
    }
    assert c2 == c1;
    var n2 := NormaliseKey(n, key);
    forall i | 0 <= i < |t.rows| ensures n2.rows[i] == n.rows[i] {
      SetColumnRowSame(n.labels, n.rows[i], key, c1[i]);
    }
  }

  /** Writing back into a column the cell it already reads leaves the row alone. */
  lemma {:induction false} SetColumnRowSame(labels: seq<string>, row: seq<Cell>, l: string, v: Cell)
    requires |row| == |labels| && l in labels && LookupCell(labels, row, l) == Some(v)
    ensures SetColumnRow(labels, row, l, v) == row
    decreases |labels|
  {
    if labels[0] != l {
      SetColumnRowSame(labels[1..], row[1..], l, v);
      assert row == [row[0]] + row[1..];
    } else {
      assert row == [row[0]] + row[1..];
    }
  }

  // ---------------------------------------------------------------- inner join

  /** Positions of `kb` holding `x`, in order. */
  function MatchIndices<T(==)>(x: T, kb: seq<T>): (r: seq<nat>)
    ensures forall j: nat :: j in r <==> j < |kb| && kb[j] == x
    ensures |r| == multiset(kb)[x]
    decreases |kb|
  {
    if kb == [] then []
    else
      var n := |kb| - 1;
      assert kb == kb[..n] + [kb[n]];
      MatchIndices(x, kb[..n]) + (if kb[n] == x then [n] else [])
  }

  /** Row `i` of A paired with each of the positions `js` of B. */
  function RowPairs(i: nat, js: seq<nat>): (r: seq<(nat, nat)>)
    ensures |r| == |js|
    ensures forall p :: p in r <==> p.0 == i && p.1 in js
  {
    var r := seq(|js|, q requires 0 <= q < |js| => (i, js[q]));
    assert forall p: (nat, nat) | p.0 == i && p.1 in js :: p in r by {
      forall p: (nat, nat) | p.0 == i && p.1 in js ensures p in r {
        var q :| 0 <= q < |js| && js[q] == p.1;
        assert r[q] == p;
      }
    }
    r
  }

  /**
   * `pd.merge(how='inner')` on positions: every pair of an A row and a B row
   * with equal keys, A rows in order and, for each, its B partners in order.
   */
  function JoinPairs<T(==)>(ka: seq<T>, kb: seq<T>): (r: seq<(nat, nat)>)
    ensures forall p :: p in r <==> p.0 < |ka| && p.1 < |kb| && ka[p.0] == kb[p.1]
    decreases |ka|
  {
    if ka == [] then []
    else
      var n := |ka| - 1;
      JoinPairs(ka[..n], kb) + RowPairs(n, MatchIndices(ka[n], kb))
  }

  /** How many pairs join an A row whose key is `x`. */
  function PairsWithKey<T(==)>(ps: seq<(nat, nat)>, ka: seq<T>, x: T): nat
    decreases |ps|
  {
    if ps == [] then 0
    else
      var p := ps[|ps| - 1];
      PairsWithKey(ps[..|ps| - 1], ka, x) + (if p.0 < |ka| && ka[p.0] == x then 1 else 0)
  }

  lemma {:induction false} PairsWithKeyAppend<T>(ps: seq<(nat, nat)>, qs: seq<(nat, nat)>, ka: seq<T>, x: T)
    ensures PairsWithKey(ps + qs, ka, x) == PairsWithKey(ps, ka, x) + PairsWithKey(qs, ka, x)
    decreases |qs|
  {
    if qs == [] {
      assert ps + qs == ps;
    } else {
      var q := qs[..|qs| - 1];
      assert (ps + qs)[..|ps + qs| - 1] == ps + q;
      PairsWithKeyAppend(ps, q, ka, x);
    }
  }

  lemma {:induction false} PairsWithKeyPrefix<T>(ps: seq<(nat, nat)>, ka: seq<T>, n: nat, x: T)
    requires n <= |ka| && forall k | 0 <= k < |ps| :: ps[k].0 < n
    ensures PairsWithKey(ps, ka, x) == PairsWithKey(ps, ka[..n], x)
    decreases |ps|
  {
    if ps != [] {
      PairsWithKeyPrefix(ps[..|ps| - 1], ka, n, x);
    }
  }

  lemma {:induction false} PairsWithKeyRow<T>(i: nat, js: seq<nat>, ka: seq<T>, x: T)
    requires i < |ka|
    ensures PairsWithKey(RowPairs(i, js), ka, x) == if ka[i] == x then |js| else 0
    decreases |js|
  {
    if js != [] {
      assert RowPairs(i, js)[..|js| - 1] == RowPairs(i, js[..|js| - 1]);
      PairsWithKeyRow(i, js[..|js| - 1], ka, x);
    }
  }

  lemma JoinPairsBound<T>(ka: seq<T>, kb: seq<T>)
    ensures forall k | 0 <= k < |JoinPairs(ka, kb)| :: JoinPairs(ka, kb)[k].0 < |ka|
  {
    var ps := JoinPairs(ka, kb);
    forall k | 0 <= k < |ps| ensures ps[k].0 < |ka| {
      assert ps[k] in ps;
    }
  }

  lemma MultisetLast<T>(s: seq<T>, x: T)
    requires s != []
    ensures multiset(s)[x] == multiset(s[..|s| - 1])[x] + (if s[|s| - 1] == x then 1 else 0)
  {
    assert s == s[..|s| - 1] + [s[|s| - 1]];
  }

  lemma MulStep(m: nat, k: nat)
    ensures (m + 1) * k == m * k + k
  {
  }

  /** A key held by m rows of A and n rows of B yields exactly m * n joined pairs. */
  lemma {:induction false} JoinCount<T>(ka: seq<T>, kb: seq<T>, x: T)
    ensures PairsWithKey(JoinPairs(ka, kb), ka, x) == multiset(ka)[x] * multiset(kb)[x]
    decreases |ka|
  {
    if ka != [] {
      var n := |ka| - 1;
      var front := JoinPairs(ka[..n], kb);
      var js := MatchIndices(ka[n], kb);
      assert JoinPairs(ka, kb) == front + RowPairs(n, js);
      PairsWithKeyAppend(front, RowPairs(n, js), ka, x);
      JoinPairsBound(ka[..n], kb);
      PairsWithKeyPrefix(front, ka, n, x);
      JoinCount(ka[..n], kb, x);
      PairsWithKeyRow(n, js, ka, x);
      MultisetLast(ka, x);
      MulStep(multiset(ka[..n])[x], multiset(kb)[x]);
    }
  }

  /** A row of A has a join partner exactly when its key occurs in B. */
  lemma JoinPartner<T>(ka: seq<T>, kb: seq<T>, i: nat)
    requires i < |ka|
    ensures (exists j :: (i, j) in JoinPairs(ka, kb)) <==> ka[i] in kb
  {
    if ka[i] in kb {
      var j :| 0 <= j < |kb| && kb[j] == ka[i];
      assert (i, j) in JoinPairs(ka, kb);
    }
  }

  // ---------------------------------------------------------------- the cross-check

  datatype Result = Result(matches: seq<(seq<Cell>, seq<Cell>)>, onlyInA: seq<seq<Cell>>, onlyInB: seq<seq<Cell>>)

  /** The key column of a normalised table. */
  function Keys(t: Table, key: string): (c: seq<Cell>)
    requires WellFormed(t) && key in t.labels
    ensures |c| == |t.rows|
  {
    ColumnOf(NormaliseKey(t, key), key)
  }

  /** The rows of `t` whose key does (`wanted`) or does not occur among `keys`. */
  function Filter(t: Table, key: string, keys: seq<Cell>, wanted: bool): (r: seq<seq<Cell>>)
    requires WellFormed(t)
  {
    Select(t.rows, (row: seq<Cell>) => (Get(t.labels, row, key) in keys) == wanted)
  }

  /** Both positions of every joined pair are in range. */
  lemma JoinPairsInRange<T>(ka: seq<T>, kb: seq<T>)
    ensures forall k | 0 <= k < |JoinPairs(ka, kb)| :: JoinPairs(ka, kb)[k].0 < |ka| && JoinPairs(ka, kb)[k].1 < |kb|
  {
    var ps := JoinPairs(ka, kb);
    forall k | 0 <= k < |ps| ensures ps[k].0 < |ka| && ps[k].1 < |kb| {
      assert ps[k] in ps;
    }
  }

  /** The rows of A and B that the pairs of positions name, pair by pair. */
  function PairRows(ra: seq<seq<Cell>>, rb: seq<seq<Cell>>, pairs: seq<(nat, nat)>): (r: seq<(seq<Cell>, seq<Cell>)>)
    requires forall k | 0 <= k < |pairs| :: pairs[k].0 < |ra| && pairs[k].1 < |rb|
    ensures |r| == |pairs|
  {
    seq(|pairs|, k requires 0 <= k < |pairs| => (ra[pairs[k].0], rb[pairs[k].1]))
  }

  /** Lines 739-748 on `key`, a label the two tables share. */
  function Compare(a: Table, b: Table, key: string): (r: Result)
    requires WellFormed(a) && WellFormed(b) && key in CommonColumns(a, b)
  {
    var na := NormaliseKey(a, key);
    var nb := NormaliseKey(b, key);
    var ka := Keys(a, key);
    var kb := Keys(b, key);
    var pairs := JoinPairs(ka, kb);
    JoinPairsInRange(ka, kb);
    Result(PairRows(na.rows, nb.rows, pairs),
           Filter(na, key, kb, false),
           Filter(nb, key, ka, false))
  }

  /** Every joined pair agrees on the trimmed key. */
  lemma CompareMatchKeys(a: Table, b: Table, key: string, p: nat)
    requires WellFormed(a) && WellFormed(b) && key in CommonColumns(a, b)
    requires p < |Compare(a, b, key).matches|
    ensures var r := Compare(a, b, key); var na := NormaliseKey(a, key); var nb := NormaliseKey(b, key);
      Get(na.labels, r.matches[p].0, key) == Get(nb.labels, r.matches[p].1, key)
  {
    var na, nb := NormaliseKey(a, key), NormaliseKey(b, key);
    var ka, kb := Keys(a, key), Keys(b, key);
    var pairs := JoinPairs(ka, kb);
    JoinPairsInRange(ka, kb);
    var i, j := pairs[p].0, pairs[p].1;
    assert pairs[p] in pairs;
    assert ka[i] == kb[j];
    assert Compare(a, b, key).matches[p] == (na.rows[i], nb.rows[j]);
    assert ka[i] == Get(na.labels, na.rows[i], key);
    assert kb[j] == Get(nb.labels, nb.rows[j], key);
  }

  /** The matches are the joined pairs of positions, one each, so `JoinCount` counts them per key. */
  lemma CompareMatchesArePairs(a: Table, b: Table, key: string)
    requires WellFormed(a) && WellFormed(b) && key in CommonColumns(a, b)
    ensures |Compare(a, b, key).matches| == |JoinPairs(Keys(a, key), Keys(b, key))|
  {
  }

  /**
   * "Only in A" keeps A's order and holds exactly the rows whose trimmed
   * key no row of B has; with the rows whose key B has, it splits A.
   */
  lemma OnlyInA(a: Table, b: Table, key: string)
    requires WellFormed(a) && WellFormed(b) && key in CommonColumns(a, b)
    ensures var r := Compare(a, b, key); var na := NormaliseKey(a, key); var kb := Keys(b, key);
      IsSubsequence(r.onlyInA, na.rows)
      && (forall row :: row in r.onlyInA <==> row in na.rows && Get(na.labels, row, key) !in kb)
      && multiset(r.onlyInA) + multiset(Filter(na, key, kb, true)) == multiset(na.rows)
  {
    var na := NormaliseKey(a, key);
    var kb := Keys(b, key);
    var p := (row: seq<Cell>) => (Get(na.labels, row, key) in kb) == true;
    var q := (row: seq<Cell>) => (Get(na.labels, row, key) in kb) == false;
    SelectIsSubsequence(na.rows, q);
    SelectSplits(na.rows, p, q);
  }

  /** "Only in B" is the same filter from B's side. */
  lemma OnlyInB(a: Table, b: Table, key: string)
    requires WellFormed(a) && WellFormed(b) && key in CommonColumns(a, b)
    ensures var r := Compare(a, b, key); var nb := NormaliseKey(b, key); var ka := Keys(a, key);
      IsSubsequence(r.onlyInB, nb.rows)
      && (forall row :: row in r.onlyInB <==> row in nb.rows && Get(nb.labels, row, key) !in ka)
      && multiset(r.onlyInB) + multiset(Filter(nb, key, ka, true)) == multiset(nb.rows)
  {
    var nb := NormaliseKey(b, key);
    var ka := Keys(a, key);
    var p := (row: seq<Cell>) => (Get(nb.labels, row, key) in ka) == true;
    var q := (row: seq<Cell>) => (Get(nb.labels, row, key) in ka) == false;
    SelectIsSubsequence(nb.rows, q);
    SelectSplits(nb.rows, p, q);
  }

  /** A row of A has a join partner exactly when it is not among the rows "only in A". */
  lemma MatchedIffNotOnlyInA(a: Table, b: Table, key: string, i: nat)
    requires WellFormed(a) && WellFormed(b) && key in CommonColumns(a, b) && i < |a.rows|
    ensures var ka := Keys(a, key); var kb := Keys(b, key); var na := NormaliseKey(a, key);
      (exists j :: (i, j) in JoinPairs(ka, kb)) <==> na.rows[i] !in Compare(a, b, key).onlyInA
  {
    var na := NormaliseKey(a, key);
    var ka, kb := Keys(a, key), Keys(b, key);
    OnlyInA(a, b, key);
    JoinPartner(ka, kb, i);
    assert na.rows[i] in na.rows;
    assert ka[i] == Get(na.labels, na.rows[i], key);
  }
}
