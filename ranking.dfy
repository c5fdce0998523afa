/**
 * The rating order both screens show: `[...chars].sort((a, b) => b.rating - a.rating)`,
 * and the rank of a character as its position in that order.
 */
module Ranking {
  import opened Wrappers
  import opened Types
  import opened Js

  /** Ratings never increase from left to right. */
  predicate Descending(s: seq<Character>) {
    forall i, j :: 0 <= i < j < |s| ==> s[i].rating >= s[j].rating
  }

  /**
   * Places `x` after every entry of the sorted `s` whose rating is at least
   * its own, so that an entry never overtakes an equally rated one that came
   * before it (the sort is stable, as ECMAScript requires).
   */
  function Insert(x: Character, s: seq<Character>): (r: seq<Character>)
    ensures |r| == |s| + 1
    ensures multiset(r) == multiset(s) + multiset{x}
  {
    if s == [] then [x]
    else if s[0].rating >= x.rating then
      assert s == [s[0]] + s[1..];
      [s[0]] + Insert(x, s[1..])
    else
      [x] + s
  }

  /** Inserting an entry rated at most `b` into entries rated at most `b` keeps every rating at most `b`. */
  lemma {:induction false} InsertBounded(x: Character, s: seq<Character>, b: real)
    requires x.rating <= b
    requires forall k :: 0 <= k < |s| ==> s[k].rating <= b
    ensures forall k :: 0 <= k < |Insert(x, s)| ==> Insert(x, s)[k].rating <= b
  {
    if s != [] && s[0].rating >= x.rating {
      InsertBounded(x, s[1..], b);
    }
  }

  /** Insertion keeps a descending list descending. */
  lemma {:induction false} InsertDescending(x: Character, s: seq<Character>)
    requires Descending(s)
    ensures Descending(Insert(x, s))
  {
    if s != [] && s[0].rating >= x.rating {
      InsertDescending(x, s[1..]);
      InsertBounded(x, s[1..], s[0].rating);
      var rest := Insert(x, s[1..]);
      assert Insert(x, s) == [s[0]] + rest;
    }
  }

  /** The characters in rating-descending order, ties in their original order. */
  function SortByRating(s: seq<Character>): (r: seq<Character>)
    ensures |r| == |s|
  {
    if s == [] then []
    else Insert(s[|s| - 1], SortByRating(s[..|s| - 1]))
  }

  /** The rating order is a rearrangement of the list, with ratings descending. */
  lemma {:induction false} SortedPermutation(s: seq<Character>)
    ensures multiset(SortByRating(s)) == multiset(s)
    ensures Descending(SortByRating(s))
  {
    if s != [] {
      var init := s[..|s| - 1];
      assert s == init + [s[|s| - 1]];
      SortedPermutation(init);
      InsertDescending(s[|s| - 1], SortByRating(init));
    }
  }

  /** Rearranging a list does not change which ids it holds. */
  lemma HasEntryPermutation(a: seq<Character>, b: seq<Character>, id: int)
    requires multiset(a) == multiset(b)
    ensures HasEntry(a, id) <==> HasEntry(b, id)
  {
    if HasEntry(a, id) {
      var i :| 0 <= i < |a| && a[i].id == id;
      assert a[i] in multiset(b);
    }
    if HasEntry(b, id) {
      var i :| 0 <= i < |b| && b[i].id == id;
      assert b[i] in multiset(a);
    }
  }

  /** In a list with distinct ids, an id determines the entry. */
  lemma SameIdSameEntry(chars: seq<Character>, a: Character, b: Character)
    requires DistinctIds(chars)
    requires a in chars && b in chars && a.id == b.id
    ensures a == b
  {
    var i :| 0 <= i < |chars| && chars[i] == a;
    var j :| 0 <= j < |chars| && chars[j] == b;
    assert !(i < j) && !(j < i);
  }

  /** `getRank(id)`: one more than the index of `id` in rating order, 0 for an unknown id. */
  function Rank(chars: seq<Character>, id: int): (r: int)
    ensures 0 <= r <= |chars|
    ensures r == 0 <==> !HasEntry(chars, id)
    ensures r > 0 ==> SortByRating(chars)[r - 1].id == id
  {
    var sorted := SortByRating(chars);
    SortedPermutation(chars);
    HasEntryPermutation(chars, sorted, id);
    FindIndex(sorted, IdIs(id)) + 1
  }

  /** The rank points at the FIRST entry of the sorted list with that id, as `findIndex` does. */
  lemma RankIsFirst(chars: seq<Character>, id: int)
    ensures forall j :: 0 <= j < Rank(chars, id) - 1 ==> SortByRating(chars)[j].id != id
  {
    var sorted := SortByRating(chars);
    var k := FindIndex(sorted, IdIs(id));
    assert Rank(chars, id) == k + 1;
    assert forall j :: 0 <= j < k ==> !IdIs(id)(sorted[j]);
  }

  /**
   * Among characters with distinct ids, a strictly higher rating gives a
   * strictly better (smaller) rank.
   */
  lemma RankOrder(chars: seq<Character>, c: Character, d: Character)
    requires DistinctIds(chars)
    requires c in chars && d in chars
    requires c.rating > d.rating
    ensures 0 < Rank(chars, c.id) < Rank(chars, d.id)
  {
    var rc := RankedEntry(chars, c);
    var rd := RankedEntry(chars, d);
    SortedPermutation(chars);
    assert rc != rd;
  }

  /** An entry of a list with distinct ids sits in the rating order at its rank minus one. */
  lemma RankedEntry(chars: seq<Character>, c: Character) returns (k: nat)
    requires DistinctIds(chars) && c in chars
    ensures k < |chars| && Rank(chars, c.id) == k + 1 && SortByRating(chars)[k] == c
  {
    var i :| 0 <= i < |chars| && chars[i] == c;
    assert HasEntry(chars, c.id);
    k := Rank(chars, c.id) - 1;
    var sorted := SortByRating(chars);
    SortedPermutation(chars);
    assert sorted[k] in multiset(chars);
    SameIdSameEntry(chars, sorted[k], c);
  }

  /**
   * `getRankChange(id)`: no change to show when no previous rank is stored
   * for the id (or it is 0); otherwise the previous rank minus the current
   * one, positive when the character moved up.
   */
  function RankChange(previousRanks: map<int, int>, chars: seq<Character>, id: int): (r: Option<int>)
    ensures r.None? <==> id !in previousRanks || previousRanks[id] == 0
    ensures r.Some? ==> (r.value > 0 <==> Rank(chars, id) < previousRanks[id])
    ensures r.Some? ==> r.value + Rank(chars, id) == previousRanks[id]
  {
    if id !in previousRanks || previousRanks[id] == 0 then None
    else Some(previousRanks[id] - Rank(chars, id))
  }
}
