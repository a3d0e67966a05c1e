/**
 * The leaderboard update of `renderResults` (src/App.jsx:126-133): append the
 * new entry, sort descending by score with the stable `Array.prototype.sort`
 * and comparator `b.score - a.score`, keep the first five.
 */
module Leaderboard {
  import opened Wrappers

  /** The number of entries `slice(0, 5)` keeps. */
  const Capacity := 5

  /** `{ name, score }`. */
  datatype Entry = Entry(name: string, score: int)

  /** Scores never increase from one entry to the next. */
  predicate SortedDesc(s: seq<Entry>) {
    forall i, j :: 0 <= i < j < |s| ==> s[i].score >= s[j].score
  }

  /** How many leading entries of `s` score at least `score`. */
  function TiesPrefix(s: seq<Entry>, score: int): (k: nat)
    ensures k <= |s|
    ensures forall i :: 0 <= i < k ==> s[i].score >= score
    ensures k < |s| ==> s[k].score < score
  {
    if s == [] || s[0].score < score then 0 else 1 + TiesPrefix(s[1..], score)
  }

  /**
   * One step of a stable sort by descending score: `e` goes after every leading
   * entry that scores at least as much, and the entries of `s` keep their order.
   */
  function InsertAfterTies(s: seq<Entry>, e: Entry): (r: seq<Entry>)
    ensures |r| == |s| + 1
  {
    if s == [] then [e]
    else if s[0].score >= e.score then [s[0]] + InsertAfterTies(s[1..], e)
    else [e] + s
  }

  /** Where `e` lands: right after the leading entries that score at least as much. */
  lemma {:induction false} InsertAfterTiesShape(s: seq<Entry>, e: Entry)
    ensures InsertAfterTies(s, e) == s[..TiesPrefix(s, e.score)] + [e] + s[TiesPrefix(s, e.score)..]
  {
    if s != [] && s[0].score >= e.score {
      InsertAfterTiesShape(s[1..], e);
      var k := TiesPrefix(s[1..], e.score);
      assert s[..k + 1] == [s[0]] + s[1..][..k];
      assert s[k + 1..] == s[1..][k..];
    }
  }

  /** Inserting adds exactly `e` and nothing else. */
  lemma {:induction false} InsertAfterTiesAdds(s: seq<Entry>, e: Entry)
    ensures multiset(InsertAfterTies(s, e)) == multiset(s) + multiset{e}
  {
    var k := TiesPrefix(s, e.score);
    InsertAfterTiesShape(s, e);
    assert s == s[..k] + s[k..];
  }

  /** Inserting keeps a sorted sequence sorted. */
  lemma {:induction false} InsertAfterTiesSorted(s: seq<Entry>, e: Entry)
    requires SortedDesc(s)
    ensures SortedDesc(InsertAfterTies(s, e))
  {
    var k := TiesPrefix(s, e.score);
    var r := InsertAfterTies(s, e);
    InsertAfterTiesShape(s, e);
    assert forall i :: 0 <= i < k ==> r[i] == s[i];
    assert r[k] == e;
    assert forall i :: k < i < |r| ==> r[i] == s[i - 1];
    forall i, j | 0 <= i < j < |r| ensures r[i].score >= r[j].score {
      if j <= k {
      } else if i < k {
        assert r[j] == s[j - 1];
      } else if i == k {
        assert r[j] == s[j - 1];
      } else {
        assert r[i] == s[i - 1] && r[j] == s[j - 1];
      }
    }
  }

  /**
   * `sort((a, b) => b.score - a.score)`: a stable sort by descending score,
   * written as insertion of each element, left to right, after its ties.
   */
  function SortDesc(s: seq<Entry>): (r: seq<Entry>)
    ensures SortedDesc(r)
    ensures multiset(r) == multiset(s)
    ensures |r| == |s|
  {
    if s == [] then []
    else
      var prefix := SortDesc(s[..|s| - 1]);
      assert s == s[..|s| - 1] + [s[|s| - 1]];
      InsertAfterTiesAdds(prefix, s[|s| - 1]);
      InsertAfterTiesSorted(prefix, s[|s| - 1]);
      InsertAfterTies(prefix, s[|s| - 1])
  }

  /** `slice(0, n)`: the first `n` entries, or all of them when there are fewer. */
  function Take(s: seq<Entry>, n: nat): (r: seq<Entry>)
    ensures |r| == if |s| <= n then |s| else n
    ensures r == s[..|r|]
  {
    if |s| <= n then s else s[..n]
  }

  /** `if (name)`: `null` and the empty string are falsy. */
  predicate Named(name: Option<string>) {
    name.Some? && name.value != ""
  }

  /**
   * The new leaderboard after a stage scored `score`, given what the name prompt
   * returned: unchanged without a name; with one, it grows by one up to five
   * entries and is sorted by descending score.
   */
  function Update(board: seq<Entry>, name: Option<string>, score: int): (r: seq<Entry>)
    ensures !Named(name) ==> r == board
    ensures Named(name) ==>
      && |r| == (if |board| < Capacity then |board| + 1 else Capacity)
      && SortedDesc(r)
  {
    if Named(name) then Take(SortDesc(board + [Entry(name.value, score)]), Capacity) else board
  }

  /** With a name, the new board takes its entries from the old one and the new entry, none twice. */
  lemma {:induction false} UpdateSubMultiset(board: seq<Entry>, name: string, score: int)
    requires name != ""
    ensures multiset(Update(board, Some(name), score)) <= multiset(board + [Entry(name, score)])
  {
    var all := SortDesc(board + [Entry(name, score)]);
    var r := Take(all, Capacity);
    assert all == r + all[|r|..];
  }

  /** With a name, every entry of the new board is an old entry or the new one. */
  lemma {:induction false} UpdateNamed(board: seq<Entry>, name: string, score: int)
    requires name != ""
    ensures forall x :: x in Update(board, Some(name), score) ==> x in board || x == Entry(name, score)
  {
    var r := Update(board, Some(name), score);
    UpdateSubMultiset(board, name, score);
    forall x | x in r ensures x in board || x == Entry(name, score) {
      assert x in multiset(r);
      assert x in multiset(board + [Entry(name, score)]);
    }
  }

  /**
   * The shape every board the game produces keeps: at most five named entries,
   * sorted, none scoring above `ceiling`.
   */
  predicate WellKept(board: seq<Entry>, ceiling: int) {
    && SortedDesc(board) && |board| <= Capacity
    && forall i :: 0 <= i < |board| ==> board[i].name != "" && board[i].score <= ceiling
  }

  /** Recording a score no lower than every score so far keeps the board well kept. */
  lemma {:induction false} UpdateKeepsWellKept(board: seq<Entry>, name: Option<string>, ceiling: int, score: int)
    requires WellKept(board, ceiling) && ceiling <= score
    ensures WellKept(Update(board, name, score), score)
  {
    if Named(name) {
      var r := Update(board, name, score);
      forall i | 0 <= i < |r| ensures r[i].name != "" && r[i].score <= score {
        UpdateNamed(board, name.value, score);
        assert r[i] in r;
      }
    }
  }

  /** A sorted sequence is left as it is by the sort. */
  lemma {:induction false} SortDescOfSorted(s: seq<Entry>)
    requires SortedDesc(s)
    ensures SortDesc(s) == s
  {
    if s != [] {
      var n := |s| - 1;
      var prefix := s[..n];
      assert SortedDesc(prefix);
      SortDescOfSorted(prefix);
      assert TiesPrefix(prefix, s[n].score) == n;
      InsertAfterTiesShape(prefix, s[n]);
      assert prefix[..n] + [s[n]] + prefix[n..] == s;
    }
  }

  /**
   * On a board that is already sorted, the update inserts the new entry after
   * every entry scoring at least as much and keeps the first five.
   */
  lemma {:induction false} UpdateSortedBoard(board: seq<Entry>, name: string, score: int)
    requires SortedDesc(board) && name != ""
    ensures Update(board, Some(name), score) == Take(InsertAfterTies(board, Entry(name, score)), Capacity)
  {
    var e := Entry(name, score);
    assert (board + [e])[..|board|] == board;
    SortDescOfSorted(board);
  }

  /**
   * Where the new entry lands on a sorted board: at place `k`, the number of
   * entries scoring at least as much, when `k < 5`; otherwise, a score that only
   * ties the fifth place among them included, it is dropped and the first five
   * old entries remain.
   */
  lemma {:induction false} NewEntryPlace(board: seq<Entry>, name: string, score: int)
    requires SortedDesc(board) && name != ""
    ensures var r := Update(board, Some(name), score);
            var k := TiesPrefix(board, score);
            && (k < Capacity ==> k < |r| && r[k] == Entry(name, score) && r[..k] == board[..k])
            && (k >= Capacity ==> r == board[..Capacity])
  {
    UpdateSortedBoard(board, name, score);
    InsertAfterTiesShape(board, Entry(name, score));
  }

  /** Whatever was cut off scores no more than anything kept. */
  lemma {:induction false} UpdateKeepsBest(board: seq<Entry>, name: string, score: int)
    requires name != ""
    ensures var all := SortDesc(board + [Entry(name, score)]);
            var r := Update(board, Some(name), score);
            && r == all[..|r|]
            && forall i, j :: 0 <= i < |r| <= j < |all| ==> all[i].score >= all[j].score
  {
  }
}
