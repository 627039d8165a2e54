/**
 * The choices offered in the report's drop-down lists: the trimmed texts of
 * the first column whose label matches a keyword, one spelling per
 * case-insensitive value (the spelling of its last occurrence), sorted.
 */
module Dropdowns {
  import opened Wrappers
  import opened Strings
  import opened Cells
  import opened Tables
  import opened ColumnResolver
  import opened RowFilter

  /** The column's cells as trimmed text, row by row (`astype(str).str.strip()`). */
  function Spellings(t: Table, col: string): (r: seq<string>)
    ensures |r| == |t.rows|
  {
    seq(|t.rows|, i requires 0 <= i < |t.rows| => Trim(AsText(Get(t.labels, t.rows[i], col))))
  }

  /** `{v.lower(): v for v in vals}`: every later spelling of a key replaces the earlier one. */
  function KeyMap(vals: seq<string>): map<string, string>
    decreases |vals|
  {
    if vals == [] then map[]
    else KeyMap(vals[..|vals| - 1])[Lower(vals[|vals| - 1]) := vals[|vals| - 1]]
  }

  /** No later entry has the same lower-cased form as entry `i`. */
  predicate LastOfKey(vals: seq<string>, i: nat)
    requires i < |vals|
  {
    forall j | i < j < |vals| :: Lower(vals[j]) != Lower(vals[i])
  }

  /** Every key maps to a spelling of itself. */
  lemma {:induction false} KeyMapEntries(vals: seq<string>)
    ensures forall k | k in KeyMap(vals) :: Lower(KeyMap(vals)[k]) == k
    decreases |vals|
  {
    if vals != [] {
      KeyMapEntries(vals[..|vals| - 1]);
    }
  }

  /** The keys are exactly the lower-cased forms of the entries. */
  lemma {:induction false} KeyMapKeys(vals: seq<string>, k: string)
    ensures k in KeyMap(vals) <==> exists i | 0 <= i < |vals| :: Lower(vals[i]) == k
    decreases |vals|
  {
    if vals != [] {
      var p := vals[..|vals| - 1];
      KeyMapKeys(p, k);
      if k in KeyMap(p) {
        var i :| 0 <= i < |p| && Lower(p[i]) == k;
        assert vals[i] == p[i];
      }
      if exists i | 0 <= i < |vals| :: Lower(vals[i]) == k {
        var i :| 0 <= i < |vals| && Lower(vals[i]) == k;
        if i < |p| {
          assert p[i] == vals[i];
        }
      }
    }
  }

  /** Adding a spelling to a map from lower-cased keys to spellings: it replaces the one of its own key. */
  lemma ValuesStep(m: map<string, string>, x: string, v: string)
    requires forall k | k in m :: Lower(m[k]) == k
    ensures v in m[Lower(x) := x].Values <==> v == x || (v in m.Values && Lower(v) != Lower(x))
  {
    var m' := m[Lower(x) := x];
    if v in m'.Values && v != x {
      var k :| k in m' && m'[k] == v;
      assert k != Lower(x) && m[k] == v;
      assert v in m.Values;
    }
    assert m'[Lower(x)] == x;
    if v in m.Values && Lower(v) != Lower(x) {
      var k :| k in m && m[k] == v;
      assert m'[k] == v;
    }
  }

  /** An earlier entry stays last of its key under one more entry exactly when the new one has another key. */
  lemma LastOfKeyStep(vals: seq<string>, i: nat)
    requires i + 1 < |vals|
    ensures LastOfKey(vals, i) <==>
      LastOfKey(vals[..|vals| - 1], i) && Lower(vals[|vals| - 1]) != Lower(vals[i])
  {
    var p := vals[..|vals| - 1];
    assert forall j | i < j < |p| :: p[j] == vals[j];
  }

  /** The kept spellings are exactly the entries that are the last of their key. */
  lemma {:induction false} KeyMapValues(vals: seq<string>, v: string)
    ensures v in KeyMap(vals).Values <==> exists i | 0 <= i < |vals| :: vals[i] == v && LastOfKey(vals, i)
    decreases |vals|
  {
    if vals != [] {
      var n := |vals| - 1;
      var p := vals[..n];
      var x := vals[n];
      KeyMapValues(p, v);
      KeyMapEntries(p);
      ValuesStep(KeyMap(p), x, v);
      assert LastOfKey(vals, n);
      if v in KeyMap(vals).Values && v != x {
        var i :| 0 <= i < |p| && p[i] == v && LastOfKey(p, i);
        LastOfKeyStep(vals, i);
        assert vals[i] == v;
      }
      if exists i | 0 <= i < |vals| :: vals[i] == v && LastOfKey(vals, i) {
        var i :| 0 <= i < |vals| && vals[i] == v && LastOfKey(vals, i);
        if i < n {
          LastOfKeyStep(vals, i);
          assert p[i] == v;
        }
      }
    }
  }

  /** Insertion into a strictly sorted list of strings. */
  function Insert(s: seq<string>, v: string): (r: seq<string>)
    requires StrictlySorted(s) && v !in s
    ensures StrictlySorted(r) && |r| == |s| + 1
    ensures forall w :: w in r <==> w in s || w == v
    decreases |s|
  {
    if s == [] then [v]
    else if LexLess(v, s[0]) then
      LessThanAll(v, s);
      [v] + s
    else
      LexLessTotal(v, s[0]);
      var r := Insert(s[1..], v);
      assert forall w | w in r :: LexLess(s[0], w) by {
        forall w | w in r ensures LexLess(s[0], w) {
          if w != v {
            var j :| 0 <= j < |s[1..]| && s[1..][j] == w;
            assert s[j + 1] == w;
          }
        }
      }
      PrependSorted(s[0], r);
      [s[0]] + r
  }

  lemma LessThanAll(v: string, s: seq<string>)
    requires StrictlySorted(s) && s != [] && LexLess(v, s[0])
    ensures forall w | w in s :: LexLess(v, w)
  {
    forall w | w in s ensures LexLess(v, w) {
      var j :| 0 <= j < |s| && s[j] == w;
      if j > 0 {
        LexLessTransitive(v, s[0], w);
      }
    }
  }

  lemma PrependSorted(a: string, r: seq<string>)
    requires StrictlySorted(r) && forall w | w in r :: LexLess(a, w)
    ensures StrictlySorted([a] + r)
  {
    var s := [a] + r;
    forall i, j | 0 <= i < j < |s| ensures LexLess(s[i], s[j]) {
      if i == 0 {
        assert s[j] == r[j - 1];
      } else {
        assert s[i] == r[i - 1] && s[j] == r[j - 1];
      }
    }
  }

  /** Distinct values of a map from lower-cased keys to spellings have distinct lower-cased forms. */
  lemma DistinctKeys(m: map<string, string>, r: seq<string>)
    requires forall k | k in m :: Lower(m[k]) == k
    requires forall v | v in r :: v in m.Values
    requires StrictlySorted(r)
    ensures forall i, j | 0 <= i < j < |r| :: Lower(r[i]) != Lower(r[j])
  {
    forall i, j | 0 <= i < j < |r| ensures Lower(r[i]) != Lower(r[j]) {
      assert r[i] in m.Values && r[j] in m.Values;
      var ki :| ki in m && m[ki] == r[i];
      var kj :| kj in m && m[kj] == r[j];
      if Lower(r[i]) == Lower(r[j]) {
        assert ki == kj;
        LexLessIrreflexive(r[i]);
        assert false;
      }
    }
  }

  /** The dictionary comprehension of line 262, one entry at a time. */
  method BuildKeyMap(vals: seq<string>) returns (m: map<string, string>)
    ensures m == KeyMap(vals)
  {
    m := map[];
    var i := 0;
    while i < |vals|
      invariant 0 <= i <= |vals|
      invariant m == KeyMap(vals[..i])
    {
      assert vals[..i + 1][..i] == vals[..i];
      m := m[Lower(vals[i]) := vals[i]];
      i := i + 1;
    }
    assert vals[..i] == vals;
  }

  /** `sorted(mapa.values())`: the values, each once, in increasing order. */
  method SortedValues(m: map<string, string>) returns (r: seq<string>)
    ensures StrictlySorted(r)
    ensures forall v :: v in r <==> v in m.Values
  {
    var rest := m.Values;
    r := [];
    while rest != {}
      invariant StrictlySorted(r)
      invariant forall v :: v in r <==> v in m.Values && v !in rest
      invariant rest <= m.Values
      decreases |rest|
    {
      var v :| v in rest;
      r := Insert(r, v);
      rest := rest - {v};
    }
  }

  /**
   * Lines 254-264: nothing without a table or without a (non-empty) matching
   * label; otherwise the sorted, case-insensitively distinct spellings, each
   * the last one seen of its value.
   */
  method DropdownOptions(df: Option<Table>, keywords: seq<string>) returns (r: seq<string>)
    ensures df.None? || !Truthy(FirstWith(df.value.labels, keywords)) ==> r == []
    ensures df.Some? && Truthy(FirstWith(df.value.labels, keywords)) ==>
      (var vals := Spellings(df.value, FirstWith(df.value.labels, keywords).value);
       StrictlySorted(r)
       && (forall i, j | 0 <= i < j < |r| :: Lower(r[i]) != Lower(r[j]))
       && (forall v :: v in r <==> exists i | 0 <= i < |vals| :: vals[i] == v && LastOfKey(vals, i)))
  {
    if df.None? {
      return [];
    }
    var col := FirstWith(df.value.labels, keywords);
    if !Truthy(col) {
      return [];
    }
    var vals := Spellings(df.value, col.value);
    var m := BuildKeyMap(vals);
    r := SortedValues(m);
    KeyMapEntries(vals);
    DistinctKeys(m, r);
    forall v ensures v in r <==> exists i | 0 <= i < |vals| :: vals[i] == v && LastOfKey(vals, i) {
      KeyMapValues(vals, v);
    }
  }

  /** Every offered spelling is the trimmed text of some row of the column. */
  lemma OptionsFromColumn(vals: seq<string>, v: string)
    requires v in KeyMap(vals).Values
    ensures exists i | 0 <= i < |vals| :: vals[i] == v
  {
    KeyMapValues(vals, v);
  }

  /** Every value of the column is offered under some spelling that differs from it at most in case. */
  lemma EveryValueOffered(vals: seq<string>, i: nat)
    requires i < |vals|
    ensures Lower(vals[i]) in KeyMap(vals)
    ensures Lower(KeyMap(vals)[Lower(vals[i])]) == Lower(vals[i])
  {
    KeyMapKeys(vals, Lower(vals[i]));
    KeyMapEntries(vals);
  }

  /** Spellings that differ only in case collapse to one choice: the later one. */
  lemma LaterSpellingWins(a: string, b: string)
    requires a != b && Lower(a) == Lower(b)
    ensures KeyMap([a, b]).Values == {b}
  {
    assert KeyMap([a, b]) == KeyMap([a])[Lower(b) := b] by {
      assert [a, b][..1] == [a];
    }
    assert KeyMap([a]) == map[][Lower(a) := a] by {
      var one: seq<string> := [a];
      assert one[..0] == [];
    }
    var m := map[Lower(b) := b];
    assert KeyMap([a, b]) == m;
    assert m[Lower(b)] == b;
    forall v | v in m.Values ensures v == b {
      var k :| k in m && m[k] == v;
    }
  }
}
