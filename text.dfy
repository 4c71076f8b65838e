/**
 * Substring search on raw line text: the `contains` helper of the linter,
 * built, like the original, on a left-to-right `find` that reports the first
 * index at which the word starts or "no position".
 */
module Text {

  /** The word occurs in the line starting at index `i`. */
  predicate OccursAt(line: string, word: string, i: int)
  {
    0 <= i && i + |word| <= |line| && line[i..i + |word|] == word
  }

  /** Character-by-character comparison of `word` against `line` from index `i`. */
  predicate MatchesAt(line: string, word: string, i: nat)
    decreases |word|
  {
    |word| == 0 || (i < |line| && line[i] == word[0] && MatchesAt(line, word[1..], i + 1))
  }

  lemma {:induction false} MatchesAtIff(line: string, word: string, i: nat)
    requires i + |word| <= |line|
    ensures MatchesAt(line, word, i) <==> line[i..i + |word|] == word
    decreases |word|
  {
    if |word| > 0 {
      MatchesAtIff(line, word[1..], i + 1);
      assert line[i..i + |word|] == [line[i]] + line[i + 1..i + 1 + |word[1..]|];
      assert word == [word[0]] + word[1..];
    }
  }

  /** Result of a search: the first index of a match, or no position (`npos`). */
  datatype Position = NoPosition | At(index: nat)

  /**
   * The first index at or after `from` at which `word` occurs in `line`.
   * An empty word is found at `from` as long as `from` is inside the line or
   * just past its end.
   */
  function FindFrom(line: string, word: string, from: nat): Position
    decreases |line| - from
  {
    if from + |word| > |line| then NoPosition
    else if MatchesAt(line, word, from) then At(from)
    else FindFrom(line, word, from + 1)
  }

  /**
   * The search from `from` reports the first occurrence at or after `from`,
   * and reports no position exactly when there is none.
   */
  lemma {:induction false} FindFromFirst(line: string, word: string, from: nat)
    ensures FindFrom(line, word, from).At? ==>
      from <= FindFrom(line, word, from).index && OccursAt(line, word, FindFrom(line, word, from).index)
    ensures FindFrom(line, word, from).At? ==>
      forall j :: from <= j < FindFrom(line, word, from).index ==> !OccursAt(line, word, j)
    ensures FindFrom(line, word, from).NoPosition? ==> forall j :: from <= j ==> !OccursAt(line, word, j)
    decreases |line| - from
  {
    if from + |word| <= |line| {
      MatchesAtIff(line, word, from);
    }
    if from + |word| <= |line| && !MatchesAt(line, word, from) {
      FindFromFirst(line, word, from + 1);
    }
  }

  /** The search done by `line.find(word)`: the first occurrence anywhere. */
  function Find(line: string, word: string): Position
  {
    FindFrom(line, word, 0)
  }

  /** `line.find(word)` finds a position exactly when the word occurs, and the position is the first occurrence. */
  lemma FindFirst(line: string, word: string)
    ensures Find(line, word).At? <==> exists i :: OccursAt(line, word, i)
    ensures Find(line, word).At? ==> OccursAt(line, word, Find(line, word).index)
    ensures Find(line, word).At? ==> forall j :: 0 <= j < Find(line, word).index ==> !OccursAt(line, word, j)
  {
    FindFromFirst(line, word, 0);
  }

  /** `contains(line, word)`: the search finds some position. */
  predicate Contains(line: string, word: string)
  {
    Find(line, word) != NoPosition
  }

  /** `Contains` holds exactly when the word occurs contiguously somewhere in the line. */
  lemma ContainsIffOccurs(line: string, word: string)
    ensures Contains(line, word) <==> exists i :: OccursAt(line, word, i)
  {
    FindFirst(line, word);
  }

  /** Searching for a one-character string is the same as searching for that character. */
  lemma {:induction false} ContainsChar(line: string, c: char)
    ensures Contains(line, [c]) <==> c in line
  {
    FindFirst(line, [c]);
    if c in line {
      var i :| 0 <= i < |line| && line[i] == c;
      assert line[i..i + 1] == [c];
      assert OccursAt(line, [c], i);
    }
    if Contains(line, [c]) {
      var i := Find(line, [c]).index;
      assert line[i..i + 1][0] == line[i];
    }
  }

  /**
   * Containment is transitive: a line that contains `outer` contains every
   * word that `outer` contains.
   */
  lemma {:induction false} ContainsTransitive(line: string, outer: string, inner: string)
    requires Contains(line, outer) && Contains(outer, inner)
    ensures Contains(line, inner)
  {
    FindFirst(line, outer);
    FindFirst(outer, inner);
    var i := Find(line, outer).index;
    var k := Find(outer, inner).index;
    var sub := line[i..i + |outer|];
    assert sub == outer;
    assert sub[k..k + |inner|] == inner;
    SliceOfSlice(line, i, i + |outer|, k, k + |inner|);
    assert OccursAt(line, inner, i + k);
    FindFirst(line, inner);
  }

  /** A slice of a slice is a slice of the original. */
  lemma SliceOfSlice(s: string, a: nat, b: nat, c: nat, d: nat)
    requires a <= b <= |s| && c <= d <= b - a
    ensures s[a..b][c..d] == s[a + c..a + d]
  {
    forall m | 0 <= m < d - c
      ensures s[a..b][c..d][m] == s[a + c..a + d][m]
    {
      assert s[a..b][c..d][m] == s[a..b][c + m];
    }
  }
}
