/**
 * Column resolution by keyword: the left-most column whose lower-cased label
 * contains one of the candidate keywords (`find_col`, and the inline
 * `next(c for c in df.columns if ...)` searches).
 */
module ColumnResolver {
  import opened Wrappers
  import opened Strings

  /** Some keyword is a substring of the lower-cased label. */
  predicate MatchesAny(name: string, keywords: seq<string>) {
    exists k | k in keywords :: Contains(Lower(name), k)
  }

  /**
   * Position of the first label, in header order, matching a keyword taken
   * as given; None exactly when no label matches.
   */
  function FindColumn(labels: seq<string>, keywords: seq<string>): (r: Option<nat>)
    ensures r.Some? ==> r.value < |labels| && MatchesAny(labels[r.value], keywords)
    ensures r.Some? ==> forall k | 0 <= k < r.value :: !MatchesAny(labels[k], keywords)
    ensures r.None? <==> forall k | 0 <= k < |labels| :: !MatchesAny(labels[k], keywords)
    decreases |labels|
  {
    if labels == [] then None
    else if MatchesAny(labels[0], keywords) then Some(0)
    else match FindColumn(labels[1..], keywords)
      case None => None
      case Some(j) => Some(j + 1)
  }

  function LowerAll(keywords: seq<string>): (r: seq<string>)
    ensures |r| == |keywords|
  {
    seq(|keywords|, i requires 0 <= i < |keywords| => Lower(keywords[i]))
  }

  /** `find_col(df, candidates)`, which lower-cases the candidates as well. */
  function FindCol(labels: seq<string>, candidates: seq<string>): Option<nat> {
    FindColumn(labels, LowerAll(candidates))
  }

  /** The label at a found position. */
  function LabelAt(labels: seq<string>, r: Option<nat>): Option<string> {
    if r.Some? && r.value < |labels| then Some(labels[r.value]) else None
  }

  /** `find_col` returns a label, not a position. */
  function FindLabel(labels: seq<string>, candidates: seq<string>): Option<string> {
    LabelAt(labels, FindCol(labels, candidates))
  }

  /** Python's truth value of a `find_col` result: found, and not the empty label. */
  predicate Truthy(col: Option<string>) {
    col.Some? && col.value != ""
  }

  /** The first-match description determines the answer: no other position satisfies it. */
  lemma FindColumnUnique(labels: seq<string>, keywords: seq<string>, j: nat)
    requires j < |labels| && MatchesAny(labels[j], keywords)
    requires forall k | 0 <= k < j :: !MatchesAny(labels[k], keywords)
    ensures FindColumn(labels, keywords) == Some(j)
  {
  }

  /** Keyword lists that every label matches alike select the same column. */
  lemma {:induction false} FindColumnSameMatches(labels: seq<string>, k1: seq<string>, k2: seq<string>)
    requires forall k | 0 <= k < |labels| :: MatchesAny(labels[k], k1) == MatchesAny(labels[k], k2)
    ensures FindColumn(labels, k1) == FindColumn(labels, k2)
    decreases |labels|
  {
    if labels != [] {
      FindColumnSameMatches(labels[1..], k1, k2);
    }
  }

  /** Only the set of candidates matters: their order (and repetition) never changes the column found. */
  lemma CandidateOrderIrrelevant(labels: seq<string>, c1: seq<string>, c2: seq<string>)
    requires forall c :: c in c1 <==> c in c2
    ensures FindCol(labels, c1) == FindCol(labels, c2)
  {
    forall x | x in LowerAll(c1) ensures x in LowerAll(c2) {
      var i :| 0 <= i < |c1| && LowerAll(c1)[i] == x;
      assert c1[i] in c2;
      var j :| 0 <= j < |c2| && c2[j] == c1[i];
      assert LowerAll(c2)[j] == x;
    }
    forall x | x in LowerAll(c2) ensures x in LowerAll(c1) {
      var i :| 0 <= i < |c2| && LowerAll(c2)[i] == x;
      assert c2[i] in c1;
      var j :| 0 <= j < |c1| && c1[j] == c2[i];
      assert LowerAll(c1)[j] == x;
    }
    FindColumnSameMatches(labels, LowerAll(c1), LowerAll(c2));
  }

  /** Appending labels never changes a match already found, and is searched only when there is none. */
  lemma {:induction false} FindColumnAppend(labels: seq<string>, extra: seq<string>, keywords: seq<string>)
    ensures FindColumn(labels + extra, keywords) ==
      match FindColumn(labels, keywords)
      case Some(j) => Some(j)
      case None => match FindColumn(extra, keywords) case Some(j) => Some(|labels| + j) case None => None
    decreases |labels|
  {
    if labels == [] {
      assert labels + extra == extra;
    } else {
      assert (labels + extra)[0] == labels[0] && (labels + extra)[1..] == labels[1..] + extra;
      FindColumnAppend(labels[1..], extra, keywords);
    }
  }

  /** No two columns before the found one carry its label: label access reads the found column. */
  lemma FoundIsFirstWithLabel(labels: seq<string>, keywords: seq<string>)
    requires FindColumn(labels, keywords).Some?
    ensures var j := FindColumn(labels, keywords).value;
      forall k | 0 <= k < j :: labels[k] != labels[j]
  {
  }

  /** With non-empty candidates a found label is never empty, so truthiness is just "found". */
  lemma FoundLabelNonEmpty(labels: seq<string>, candidates: seq<string>)
    requires forall c | c in candidates :: c != []
    ensures Truthy(FindLabel(labels, candidates)) <==> FindCol(labels, candidates).Some?
  {
    var r := FindCol(labels, candidates);
    if r.Some? {
      var k :| k in LowerAll(candidates) && Contains(Lower(labels[r.value]), k);
      var i :| 0 <= i < |candidates| && LowerAll(candidates)[i] == k;
      assert candidates[i] in candidates;
      ContainsNonEmpty(Lower(labels[r.value]), k);
    }
  }

  /** Labels appended after the others and matching no candidate never change `find_col`. */
  lemma FindLabelIgnoresUnmatched(labels: seq<string>, extra: seq<string>, candidates: seq<string>)
    requires forall k | 0 <= k < |extra| :: !MatchesAny(extra[k], LowerAll(candidates))
    ensures FindCol(labels + extra, candidates) == FindCol(labels, candidates)
    ensures FindLabel(labels + extra, candidates) == FindLabel(labels, candidates)
  {
    FindColumnAppend(labels, extra, LowerAll(candidates));
  }

  /** A label none of whose candidates, lower-cased, occurs in it lower-cased does not match. */
  lemma NotMatching(name: string, candidates: seq<string>)
    requires forall j | 0 <= j < |candidates| :: !Contains(Lower(name), Lower(candidates[j]))
    ensures !MatchesAny(name, LowerAll(candidates))
  {
    forall k | k in LowerAll(candidates)
      ensures !Contains(Lower(name), k)
    {
      var j :| 0 <= j < |candidates| && LowerAll(candidates)[j] == k;
    }
  }
}
