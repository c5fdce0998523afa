/**
 * The character details dialog: from the match history, the characters
 * the selected one has beaten and those it has lost to, in the order of
 * the character list the dialog is given.
 */
module CharacterDetails {
  import opened Wrappers
  import opened Types
  import opened Js
  import opened Storage

  /** Some recorded match has `id` winning against `opponent`. */
  predicate Beat(matches: seq<Match>, id: int, opponent: int) {
    exists k :: 0 <= k < |matches| && matches[k].winnerId == id && matches[k].loserId == opponent
  }

  /**
   * Some recorded match has `id` losing to `opponent`, not counting a match
   * `id` also won (a match against itself is only a win).
   */
  predicate LostTo(matches: seq<Match>, id: int, opponent: int) {
    exists k :: 0 <= k < |matches| && matches[k].loserId == id && matches[k].winnerId == opponent && opponent != id
  }

  /**
   * The `forEach` over the history: a match the character won adds the
   * loser to `wonAgainst`; otherwise a match it lost adds the winner to
   * `lostTo`. Each opponent is in a set at most once however often it met them.
   */
  method HeadToHead(id: int, matches: seq<Match>) returns (wonAgainst: set<int>, lostTo: set<int>)
    ensures forall x :: x in wonAgainst <==> Beat(matches, id, x)
    ensures forall x :: x in lostTo <==> LostTo(matches, id, x)
    ensures id !in lostTo
  {
    wonAgainst := {};
    lostTo := {};
    var i := 0;
    while i < |matches|
      invariant 0 <= i <= |matches|
      invariant forall x :: x in wonAgainst <==>
        exists k :: 0 <= k < i && matches[k].winnerId == id && matches[k].loserId == x
      invariant forall x :: x in lostTo <==>
        exists k :: 0 <= k < i && matches[k].loserId == id && matches[k].winnerId == x && x != id
    {
      var m := matches[i];
      if m.winnerId == id {
        wonAgainst := wonAgainst + {m.loserId};
      } else if m.loserId == id {
        lostTo := lostTo + {m.winnerId};
      }
      i := i + 1;
    }
  }

  /** `allCharacters.filter(c => ids.has(c.id))`. */
  function WithIdIn(all: seq<Character>, ids: set<int>): (r: seq<Character>)
    ensures IsSubsequence(r, all)
    ensures forall c :: c in r <==> c in all && c.id in ids
    ensures forall c :: multiset(r)[c] == if c.id in ids then multiset(all)[c] else 0
  {
    var keep := (c: Character) => c.id in ids;
    var r := Filter(all, keep);
    assert forall c :: c in all && c.id in ids ==> c in r by {
      forall c | c in all && c.id in ids
        ensures c in r
      {
        var i :| 0 <= i < |all| && all[i] == c;
        assert keep(all[i]);
      }
    }
    assert forall c :: c in r ==> c in all && c.id in ids by {
      forall c | c in r
        ensures c in all && c.id in ids
      {
        var i :| 0 <= i < |r| && r[i] == c;
        assert keep(r[i]);
      }
    }
    r
  }

  /** Dropping entries from a list with distinct ids leaves distinct ids. */
  lemma {:induction false} SubsequenceDistinct(r: seq<Character>, s: seq<Character>)
    requires IsSubsequence(r, s) && DistinctIds(s)
    ensures DistinctIds(r)
    ensures forall c :: c in r ==> c in s
    decreases |s|
  {
    if r != [] && s != [] {
      assert DistinctIds(s[1..]);
      if r[0] == s[0] && IsSubsequence(r[1..], s[1..]) {
        SubsequenceDistinct(r[1..], s[1..]);
        forall j | 0 < j < |r|
          ensures r[0].id != r[j].id
        {
          assert r[j] == r[1..][j - 1] && r[1..][j - 1] in r[1..];
          assert r[j] in s[1..];
          var k :| 0 <= k < |s[1..]| && s[1..][k] == r[j];
          assert s[k + 1] == r[j];
        }
        assert forall i, j :: 0 < i < j < |r| ==> r[1..][i - 1] == r[i] && r[1..][j - 1] == r[j];
        assert forall c :: c in r ==> c == r[0] || c in r[1..];
      } else {
        SubsequenceDistinct(r, s[1..]);
      }
    }
  }

  /** The dialog's two lists. */
  class DetailsModal {
    var betterThan: seq<Character>
    var worseThan: seq<Character>

    constructor ()
      ensures betterThan == [] && worseThan == []
    {
      betterThan := [];
      worseThan := [];
    }

    /**
     * The dialog's effect: nothing happens unless it is open on a
     * character; without a stored history both lists empty; a history that
     * does not parse leaves both lists; otherwise the entries of
     * `allCharacters` the character beat and those it lost to, in that
     * list's order.
     */
    method Refresh(isOpen: bool, character: Option<Character>, allCharacters: seq<Character>, history: HistoryStore)
      modifies this
      ensures !isOpen || character.None? || history.Corrupt? ==> unchanged(this)
      ensures isOpen && character.Some? && history.Missing? ==> betterThan == [] && worseThan == []
      ensures isOpen && character.Some? && history.Stored? ==>
        && IsSubsequence(betterThan, allCharacters) && IsSubsequence(worseThan, allCharacters)
        && (forall c :: c in betterThan <==> c in allCharacters && Beat(history.matches, character.value.id, c.id))
        && (forall c :: c in worseThan <==> c in allCharacters && LostTo(history.matches, character.value.id, c.id))
        && (forall c :: multiset(betterThan)[c] ==
              if Beat(history.matches, character.value.id, c.id) then multiset(allCharacters)[c] else 0)
        && (forall c :: multiset(worseThan)[c] ==
              if LostTo(history.matches, character.value.id, c.id) then multiset(allCharacters)[c] else 0)
    {
      if !isOpen || character.None? {
        return;
      }
      match history
      case Missing =>
        betterThan := [];
        worseThan := [];
      case Corrupt =>
      case Stored(matches) =>
        var wonAgainst, lostTo := HeadToHead(character.value.id, matches);
        betterThan := WithIdIn(allCharacters, wonAgainst);
        worseThan := WithIdIn(allCharacters, lostTo);
    }
  }

  /**
   * Over a roster with distinct ids both lists have distinct ids, and the
   * selected character never appears among those it lost to.
   */
  lemma HeadToHeadLists(all: seq<Character>, id: int, wonAgainst: set<int>, lostTo: set<int>)
    requires DistinctIds(all)
    requires id !in lostTo
    ensures DistinctIds(WithIdIn(all, wonAgainst)) && DistinctIds(WithIdIn(all, lostTo))
    ensures !HasEntry(WithIdIn(all, lostTo), id)
  {
    SubsequenceDistinct(WithIdIn(all, wonAgainst), all);
    SubsequenceDistinct(WithIdIn(all, lostTo), all);
  }
}
