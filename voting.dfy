/**
 * The voting screen: a vote replaces the winner's and loser's entries,
 * records the match, remembers a snapshot for undo, and after two timers
 * shows the refreshed pair and then moves on to the next pair. The pair
 * queue itself lives outside this screen; it is reached only through
 * `popNextPair` (a parameter here) and `pushToQueue` (a log of calls).
 */
module Voting {
  import opened Wrappers
  import opened Types
  import opened Js
  import opened Storage
  import opened Ranking

  /** A pair of characters on screen, `[Character, Character]`. */
  datatype Pair = Pair(first: Character, second: Character)

  /** The ids of a pair, as `pushToQueue` receives them. */
  datatype PairIds = PairIds(first: int, second: int)

  function IdsOf(p: Pair): PairIds {
    PairIds(p.first.id, p.second.id)
  }

  /** What the undo restores: the list and both pair slots as they were before the vote. */
  datatype Snapshot = Snapshot(characters: seq<Character>, currentPair: Pair, nextPair: Option<Pair>)

  datatype VoteState = Idle | Voting

  datatype LastResult = LastResult(winnerId: int, loserId: int)

  /** The statistics `calculateNewRatings` replaces; it copies every other property. */
  datatype Stats = Stats(rating: real, rd: real, vol: real)

  datatype NewRatings = NewRatings(winner: Stats, loser: Stats)

  /**
   * The two timers a vote schedules, with what their closures captured:
   * the first applies the new ratings, the second moves to the next pair.
   */
  datatype Scheduled =
    | NoTimer
    | BothTimers(updated: seq<Character>, pair: Pair, next: Option<Pair>)
    | AdvanceTimer(updated: seq<Character>, next: Option<Pair>)

  /** `{...c, rating, rd, vol}`. */
  function WithStats(c: Character, s: Stats): (r: Character)
    ensures r.rating == s.rating && r.rd == s.rd && r.vol == s.vol
    ensures r.(rating := c.rating, rd := c.rd, vol := c.vol) == c
  {
    c.(rating := s.rating, rd := s.rd, vol := s.vol)
  }

  /** `vote_count ? vote_count + 1 : 1`: an absent or zero count restarts at 1. */
  function NextVoteCount(v: Option<int>): (n: int)
    ensures v.None? || v.value == 0 ==> n == 1
    ensures v.Some? && v.value != 0 ==> n == v.value + 1
  {
    match v
    case Some(k) => if k != 0 then k + 1 else 1
    case None => 1
  }

  /**
   * The entry a vote writes for one side: the rating engine's statistics
   * and the next vote count, every other property taken from `c`.
   */
  function Voted(c: Character, s: Stats): (r: Character)
    ensures r.id == c.id
    ensures r.rating == s.rating && r.rd == s.rd && r.vol == s.vol
    ensures r.voteCount == Some(NextVoteCount(c.voteCount))
    ensures r.(rating := c.rating, rd := c.rd, vol := c.vol, voteCount := c.voteCount) == c
  {
    WithStats(c, s).(voteCount := Some(NextVoteCount(c.voteCount)))
  }

  /**
   * `updatedChars`: the list with the winner's and the loser's entries
   * replaced (the winner's test comes first), in the same order.
   */
  function ApplyVote(chars: seq<Character>, winner: Character, loser: Character, ratings: NewRatings): (r: seq<Character>)
    ensures |r| == |chars| && Ids(r) == Ids(chars)
    ensures forall i :: 0 <= i < |r| && chars[i].id != winner.id && chars[i].id != loser.id ==> r[i] == chars[i]
    ensures forall i :: 0 <= i < |r| && chars[i].id == winner.id ==> r[i] == Voted(winner, ratings.winner)
    ensures forall i :: 0 <= i < |r| && chars[i].id == loser.id && loser.id != winner.id ==>
      r[i] == Voted(loser, ratings.loser)
  {
    seq(|chars|, i requires 0 <= i < |chars| =>
      if chars[i].id == winner.id then Voted(winner, ratings.winner)
      else if chars[i].id == loser.id then Voted(loser, ratings.loser)
      else chars[i])
  }

  /**
   * A vote between two entries of the list itself, as the screen casts it:
   * the list keeps its ids, the two entries gain one vote each and carry the
   * engine's statistics, and nothing else changes.
   */
  lemma VoteChangesOnlyThePair(chars: seq<Character>, w: nat, l: nat, ratings: NewRatings)
    requires DistinctIds(chars)
    requires w < |chars| && l < |chars| && w != l
    ensures var r := ApplyVote(chars, chars[w], chars[l], ratings);
      && Ids(r) == Ids(chars)
      && r[w].voteCount == Some(NextVoteCount(chars[w].voteCount))
      && r[l].voteCount == Some(NextVoteCount(chars[l].voteCount))
      && r[w].rating == ratings.winner.rating && r[l].rating == ratings.loser.rating
      && forall i :: 0 <= i < |chars| && i != w && i != l ==> r[i] == chars[i]
  {
    var r := ApplyVote(chars, chars[w], chars[l], ratings);
    forall i | 0 <= i < |chars| && i != w && i != l
      ensures r[i] == chars[i]
    {
      assert chars[i].id != chars[w].id && chars[i].id != chars[l].id;
    }
    assert chars[l].id != chars[w].id;
  }

  /** `prevRanks`: the rank of both characters of the pair before the vote. */
  function PreviousRanks(chars: seq<Character>, pair: Pair): (m: map<int, int>)
    ensures m.Keys == {pair.first.id, pair.second.id}
    ensures forall id :: id in m ==> m[id] == Rank(chars, id)
  {
    map[pair.first.id := Rank(chars, pair.first.id)][pair.second.id := Rank(chars, pair.second.id)]
  }

  /**
   * While a vote's result is on screen, a character of the pair that is on
   * the list shows how many places it moved: its rank before the vote minus
   * its rank in `after`.
   */
  lemma RankChangeDuringVote(before: seq<Character>, after: seq<Character>, pair: Pair, id: int)
    requires id == pair.first.id || id == pair.second.id
    requires HasEntry(before, id)
    ensures RankChange(PreviousRanks(before, pair), after, id) == Some(Rank(before, id) - Rank(after, id))
  {
  }

  /** `updatedChars.find(c => c.id === x.id) || x`: the list's entry for the id, or `x` itself. */
  function Resolve(updated: seq<Character>, x: Character): (r: Character)
    ensures r.id == x.id
  {
    Find(updated, IdIs(x.id)).GetOr(x)
  }

  /** The entry `Resolve` picks: the list's first entry with the id, or `x` when there is none. */
  lemma ResolveEntry(updated: seq<Character>, x: Character)
    ensures HasEntry(updated, x.id) ==> Find(updated, IdIs(x.id)) == Some(Resolve(updated, x))
    ensures !HasEntry(updated, x.id) ==> Resolve(updated, x) == x
  {
  }

  /** The pair with each side replaced by its entry in `updated`. */
  function Refreshed(updated: seq<Character>, p: Pair): (r: Pair)
    ensures IdsOf(r) == IdsOf(p)
  {
    Pair(Resolve(updated, p.first), Resolve(updated, p.second))
  }

  /** The two pair slots after the advance, and how many times the queue was popped. */
  datatype Slots = Slots(current: Option<Pair>, next: Option<Pair>, pops: nat)

  /**
   * The second timer's slot update. The lookahead pair (or, when there is
   * none, a freshly popped one) becomes current with refreshed entries and
   * a new lookahead is popped; when no pair can be had, both slots empty.
   * `pop(updated, k)` is the result of the k-th `popNextPair` call.
   */
  function NextSlots(updated: seq<Character>, lookahead: Option<Pair>, pop: (seq<Character>, nat) -> Option<Pair>): Slots
  {
    var source := if lookahead.Some? then lookahead else pop(updated, 0);
    var used := if lookahead.Some? then 0 else 1;
    match source
    case Some(p) => Slots(Some(Refreshed(updated, p)), pop(updated, used), used + 1)
    case None => Slots(None, None, used)
  }

  /**
   * The cases of the advance: the lookahead is promoted and one pair is
   * popped; without a lookahead two are popped; when the queue has nothing
   * either, both slots are left empty.
   */
  lemma NextSlotsCases(updated: seq<Character>, lookahead: Option<Pair>, pop: (seq<Character>, nat) -> Option<Pair>)
    ensures var s := NextSlots(updated, lookahead, pop);
      && (s.current.None? <==> lookahead.None? && pop(updated, 0).None?)
      && (s.current.None? ==> s.next.None? && s.pops == 1)
      && (lookahead.Some? ==>
            s.current == Some(Refreshed(updated, lookahead.value)) && s.next == pop(updated, 0) && s.pops == 1)
      && (lookahead.None? && pop(updated, 0).Some? ==>
            s.current == Some(Refreshed(updated, pop(updated, 0).value)) && s.next == pop(updated, 1) && s.pops == 2)
  {
  }

  /**
   * The lookahead pair promoted by the advance keeps its ids, and each side
   * shows the freshest entry the updated list has for it.
   */
  lemma AdvancePromotesLookahead(updated: seq<Character>, lookahead: Pair, pop: (seq<Character>, nat) -> Option<Pair>)
    ensures var s := NextSlots(updated, Some(lookahead), pop);
      && s.current.Some? && IdsOf(s.current.value) == IdsOf(lookahead)
      && (HasEntry(updated, lookahead.first.id) ==> s.current.value.first in updated)
      && (HasEntry(updated, lookahead.second.id) ==> s.current.value.second in updated)
  {
    var s := NextSlots(updated, Some(lookahead), pop);
    if HasEntry(updated, lookahead.first.id) {
      var k :| 0 <= k < |updated| && updated[k] == s.current.value.first && IdIs(lookahead.first.id)(updated[k]) &&
        forall j :: 0 <= j < k ==> !IdIs(lookahead.first.id)(updated[j]);
    }
    if HasEntry(updated, lookahead.second.id) {
      var k :| 0 <= k < |updated| && updated[k] == s.current.value.second && IdIs(lookahead.second.id)(updated[k]) &&
        forall j :: 0 <= j < k ==> !IdIs(lookahead.second.id)(updated[j]);
    }
  }

  /**
   * The undo's push-back test as the source writes it: the current lookahead
   * is pushed back when the snapshot had none or when the FIRST ids differ.
   */
  function ShouldPushBackAsWritten(next: Option<Pair>, saved: Option<Pair>): bool {
    next.Some? && (saved.None? || next.value.first.id != saved.value.first.id)
  }

  /**
   * With the test as written a lookahead can vanish: the restore overwrites
   * lookahead (3, 7) with the snapshot's (3, 5), yet (3, 7) is not pushed back.
   */
  lemma PushBackAsWrittenLosesPair(a: Character, b: Character, c: Character)
    requires a.id == 3 && b.id == 7 && c.id == 5
    ensures var next := Some(Pair(a, b));
      var saved := Some(Pair(a, c));
      IdsOf(next.value) != IdsOf(saved.value) && !ShouldPushBackAsWritten(next, saved)
  {
  }

  /**
   * The push-back test the undo uses: the current lookahead goes back to the
   * queue unless the snapshot restores that same pair (by both ids).
   */
  function ShouldPushBack(next: Option<Pair>, saved: Option<Pair>): bool {
    next.Some? && (saved.None? || IdsOf(next.value) != IdsOf(saved.value))
  }

  /**
   * No pair is lost by the undo: the lookahead it overwrites is either
   * restored into the lookahead slot by the snapshot or pushed back, and it
   * is pushed back only when the snapshot does not restore it.
   */
  lemma PushBackKeepsEveryPair(next: Option<Pair>, saved: Option<Pair>)
    ensures next.Some? ==>
      (saved.Some? && IdsOf(saved.value) == IdsOf(next.value)) != ShouldPushBack(next, saved)
    ensures next.None? ==> !ShouldPushBack(next, saved)
  {
  }

  /** The snapshot puts a pair with these ids back into one of the two slots. */
  predicate Restored(saved: Snapshot, ids: PairIds) {
    ids == IdsOf(saved.currentPair) || (saved.nextPair.Some? && ids == IdsOf(saved.nextPair.value))
  }

  /**
   * What an undo that loses no pair hands back to the queue: the pair in
   * each slot unless the snapshot restores it. The lookahead goes back
   * first and the current pair second. That restores the order they were
   * dealt on the assumption, from the queue's intended design, that
   * `pushToQueue` puts a pair at the front; the queue is not modelled.
   */
  function Unrestored(current: Option<Pair>, next: Option<Pair>, saved: Snapshot): (r: seq<PairIds>)
    ensures |r| <= 2
    ensures forall ids :: ids in r ==> !Restored(saved, ids)
    ensures forall ids :: ids in r ==>
      (current.Some? && ids == IdsOf(current.value)) || (next.Some? && ids == IdsOf(next.value))
    ensures current.Some? && !Restored(saved, IdsOf(current.value)) ==> IdsOf(current.value) in r
    ensures next.Some? && !Restored(saved, IdsOf(next.value)) ==> IdsOf(next.value) in r
  {
    (if next.Some? && !Restored(saved, IdsOf(next.value)) then [IdsOf(next.value)] else []) +
    (if current.Some? && !Restored(saved, IdsOf(current.value)) then [IdsOf(current.value)] else [])
  }

  /**
   * The undo as written only ever looks at the lookahead slot, so after an
   * advance without lookahead the pair popped into the current slot is
   * lost: the vote on (1, 2) had no lookahead, the advance dealt (3, 4) and
   * (5, 6), and undo pushes back (5, 6) alone while restoring (1, 2).
   */
  lemma UndoAsWrittenLosesCurrentPair(a: Character, b: Character, c: Character, d: Character, e: Character, f: Character)
    requires a.id == 1 && b.id == 2 && c.id == 3 && d.id == 4 && e.id == 5 && f.id == 6
    ensures var saved := Snapshot([], Pair(a, b), None);
      var current, next := Some(Pair(c, d)), Some(Pair(e, f));
      var pushed := if ShouldPushBackAsWritten(next, saved.nextPair) then [IdsOf(next.value)] else [];
      && pushed == [PairIds(5, 6)]
      && !Restored(saved, IdsOf(current.value)) && IdsOf(current.value) !in pushed
      && Unrestored(current, next, saved) == [PairIds(5, 6), PairIds(3, 4)]
  {
  }

  /** The voting screen's state and the part of the store it writes. */
  class VoteScreen {
    /** The id order of the character list, which no operation changes. */
    ghost const order: seq<int>

    var characters: seq<Character>
    var voteState: VoteState
    var lastResult: Option<LastResult>
    var previousRanks: map<int, int>
    var previousState: Option<Snapshot>
    var currentPair: Option<Pair>
    var nextPair: Option<Pair>
    /** The `match-history` store entry. */
    var history: HistoryStore
    /** What the screen last wrote under `characters-data`. */
    var savedCharacters: Option<seq<Character>>
    var scheduled: Scheduled
    /** The arguments of every `pushToQueue` call so far. */
    var pushedBack: seq<PairIds>

    ghost predicate Valid()
      reads this
    {
      && Ids(characters) == order
      && (voteState == Idle <==> scheduled.NoTimer?)
      && (voteState == Idle <==> lastResult.None?)
      && (voteState == Idle ==> previousRanks == map[])
      && (previousState.Some? ==> Ids(previousState.value.characters) == order)
      && (!scheduled.NoTimer? ==> Ids(scheduled.updated) == order)
    }

    /**
     * The screen after its first load: the stored characters merged into the
     * roster, the pair slots as the match context restored them, idle.
     */
    constructor Hydrate(
      stored: Option<string>, parse: string -> Option<seq<StoredCharacter>>,
      current: Option<Pair>, next: Option<Pair>, matches: HistoryStore)
      ensures Valid()
      ensures characters == GetStoredCharacters(true, stored, parse)
      ensures order == Ids(characters)
      ensures voteState == Idle && lastResult.None? && previousRanks == map[] && previousState.None?
      ensures currentPair == current && nextPair == next && history == matches
      ensures savedCharacters.None? && scheduled == NoTimer && pushedBack == []
    {
      characters := GetStoredCharacters(true, stored, parse);
      order := Ids(GetStoredCharacters(true, stored, parse));
      voteState := Idle;
      lastResult := None;
      previousRanks := map[];
      previousState := None;
      currentPair := current;
      nextPair := next;
      history := matches;
      savedCharacters := None;
      scheduled := NoTimer;
      pushedBack := [];
    }

    /**
     * `handleVote`, up to the two timers: ignored unless idle with a current
     * pair; otherwise it saves the snapshot and the pair's ranks, records the
     * match, computes the updated list, and schedules the timers.
     */
    method Vote(winner: Character, loser: Character, ratings: NewRatings, now: string)
      requires Valid()
      modifies this
      ensures Valid()
      ensures old(voteState) != Idle || old(currentPair).None? ==> unchanged(this)
      ensures old(voteState) == Idle && old(currentPair).Some? ==>
        && previousState == Some(Snapshot(old(characters), old(currentPair).value, old(nextPair)))
        && previousRanks == PreviousRanks(old(characters), old(currentPair).value)
        && voteState == Voting
        && lastResult == Some(LastResult(winner.id, loser.id))
        && history == RecordMatch(old(history), Match(winner.id, loser.id, now))
        && scheduled == BothTimers(
             ApplyVote(old(characters), winner, loser, ratings), old(currentPair).value, old(nextPair))
        && characters == old(characters) && currentPair == old(currentPair) && nextPair == old(nextPair)
        && savedCharacters == old(savedCharacters) && pushedBack == old(pushedBack)
    {
      if voteState != Idle || currentPair.None? {
        return;
      }
      var pair := currentPair.value;
      var ranks := PreviousRanks(characters, pair);
      var updated := ApplyVote(characters, winner, loser, ratings);
      var recorded := RecordMatch(history, Match(winner.id, loser.id, now));
      previousState := Some(Snapshot(characters, pair, nextPair));
      previousRanks := ranks;
      voteState := Voting;
      lastResult := Some(LastResult(winner.id, loser.id));
      history := recorded;
      scheduled := BothTimers(updated, pair, nextPair);
    }

    /**
     * The first timer: the updated list becomes the screen's list and is
     * saved, and the pair captured by the vote is shown with its new entries.
     */
    method ApplyRatings()
      requires Valid() && scheduled.BothTimers?
      modifies this
      ensures Valid()
      ensures characters == old(scheduled.updated) && savedCharacters == Some(old(scheduled.updated))
      ensures currentPair == Some(Refreshed(old(scheduled.updated), old(scheduled.pair)))
      ensures scheduled == AdvanceTimer(old(scheduled.updated), old(scheduled.next))
      ensures voteState == old(voteState) && lastResult == old(lastResult) && previousRanks == old(previousRanks)
      ensures previousState == old(previousState) && nextPair == old(nextPair)
      ensures history == old(history) && pushedBack == old(pushedBack)
    {
      var updated, next := scheduled.updated, scheduled.next;
      var shown := Refreshed(updated, scheduled.pair);
      characters := updated;
      savedCharacters := Some(updated);
      currentPair := Some(shown);
      scheduled := AdvanceTimer(updated, next);
    }

    /**
     * The second timer: back to idle with no result and no previous ranks,
     * and the pair slots advanced as `NextSlots` says, with the lookahead the
     * vote captured. Returns how many times the queue was popped.
     */
    method Advance(pop: (seq<Character>, nat) -> Option<Pair>) returns (pops: nat)
      requires Valid() && scheduled.AdvanceTimer?
      modifies this
      ensures Valid()
      ensures voteState == Idle && lastResult.None? && previousRanks == map[] && scheduled == NoTimer
      ensures Slots(currentPair, nextPair, pops) == NextSlots(old(scheduled.updated), old(scheduled.next), pop)
      ensures characters == old(characters) && savedCharacters == old(savedCharacters)
      ensures previousState == old(previousState) && history == old(history) && pushedBack == old(pushedBack)
    {
      var slots := NextSlots(scheduled.updated, scheduled.next, pop);
      lastResult := None;
      voteState := Idle;
      previousRanks := map[];
      currentPair, nextPair, pops := slots.current, slots.next, slots.pops;
      scheduled := NoTimer;
    }

    /**
     * `handleUndo`: ignored unless idle with a snapshot; otherwise it
     * restores the snapshot's list (and saves it), pops the last match off
     * the history, pushes the current lookahead back when the snapshot had
     * none or its first id differs from the snapshot's, restores both pair
     * slots and forgets the snapshot.
     */
    method Undo()
      requires Valid()
      modifies this
      ensures Valid()
      ensures old(previousState).None? || old(voteState) != Idle ==> unchanged(this)
      ensures old(previousState).Some? && old(voteState) == Idle ==>
        var saved := old(previousState).value;
        && characters == saved.characters && savedCharacters == Some(saved.characters)
        && history == RemoveLastMatch(old(history))
        && pushedBack == old(pushedBack) +
             (if ShouldPushBackAsWritten(old(nextPair), saved.nextPair) then [IdsOf(old(nextPair).value)] else [])
        && currentPair == Some(saved.currentPair) && nextPair == saved.nextPair
        && previousState.None?
        && voteState == Idle && lastResult == old(lastResult) && previousRanks == old(previousRanks)
        && scheduled == old(scheduled)
    {
      if previousState.None? || voteState != Idle {
        return;
      }
      var saved := previousState.value;
      characters := saved.characters;
      savedCharacters := Some(saved.characters);
      history := RemoveLastMatch(history);
      if ShouldPushBackAsWritten(nextPair, saved.nextPair) {
        pushedBack := pushedBack + [IdsOf(nextPair.value)];
      }
      currentPair := Some(saved.currentPair);
      nextPair := saved.nextPair;
      previousState := None;
    }

    /**
     * The undo with no pair lost: as `Undo`, but every pair on screen that
     * the snapshot does not restore goes back to the queue.
     */
    method UndoKeepingPairs()
      requires Valid()
      modifies this
      ensures Valid()
      ensures old(previousState).None? || old(voteState) != Idle ==> unchanged(this)
      ensures old(previousState).Some? && old(voteState) == Idle ==>
        var saved := old(previousState).value;
        && characters == saved.characters && savedCharacters == Some(saved.characters)
        && history == RemoveLastMatch(old(history))
        && pushedBack == old(pushedBack) + Unrestored(old(currentPair), old(nextPair), saved)
        && currentPair == Some(saved.currentPair) && nextPair == saved.nextPair
        && previousState.None?
        && voteState == Idle && lastResult == old(lastResult) && previousRanks == old(previousRanks)
        && scheduled == old(scheduled)
    {
      if previousState.None? || voteState != Idle {
        return;
      }
      var saved := previousState.value;
      characters := saved.characters;
      savedCharacters := Some(saved.characters);
      history := RemoveLastMatch(history);
      pushedBack := pushedBack + Unrestored(currentPair, nextPair, saved);
      currentPair := Some(saved.currentPair);
      nextPair := saved.nextPair;
      previousState := None;
    }
  }

  /**
   * A vote, both timers and an undo, in that order, leave the list, both
   * pair slots and a parsed history as they were. With a lookahead, the
   * pair the advance popped into its place goes back to the queue only if
   * its first id differs from the restored lookahead's. Without one, the
   * advance pops two pairs and only the second can go back: the first is
   * lost.
   */
  method UndoAfterVote(
    screen: VoteScreen, winner: Character, loser: Character, ratings: NewRatings,
    now: string, pop: (seq<Character>, nat) -> Option<Pair>)
    requires screen.Valid() && screen.voteState == Idle && screen.currentPair.Some?
    modifies screen
    ensures screen.Valid() && screen.voteState == Idle && screen.previousState.None?
    ensures screen.characters == old(screen.characters)
    ensures screen.currentPair == old(screen.currentPair) && screen.nextPair == old(screen.nextPair)
    ensures screen.history == if old(screen.history).Missing? then Stored([]) else old(screen.history)
    ensures var u := ApplyVote(old(screen.characters), winner, loser, ratings);
      var lookahead := old(screen.nextPair);
      lookahead.Some? ==>
        screen.pushedBack == old(screen.pushedBack) +
          (if pop(u, 0).Some? && pop(u, 0).value.first.id != lookahead.value.first.id then [IdsOf(pop(u, 0).value)] else [])
    ensures var u := ApplyVote(old(screen.characters), winner, loser, ratings);
      old(screen.nextPair).None? ==>
        screen.pushedBack == old(screen.pushedBack) +
          (if pop(u, 0).Some? && pop(u, 1).Some? then [IdsOf(pop(u, 1).value)] else [])
  {
    RemoveRecorded(screen.history, Match(winner.id, loser.id, now));
    screen.Vote(winner, loser, ratings, now);
    screen.ApplyRatings();
    var _ := screen.Advance(pop);
    screen.Undo();
  }

  /**
   * The same sequence with the undo that keeps every pair: the list, both
   * slots and a parsed history are restored, and every pair the advance
   * dealt into either slot is restored by the snapshot or pushed back.
   */
  method UndoAfterVoteKeepingPairs(
    screen: VoteScreen, winner: Character, loser: Character, ratings: NewRatings,
    now: string, pop: (seq<Character>, nat) -> Option<Pair>)
    requires screen.Valid() && screen.voteState == Idle && screen.currentPair.Some?
    modifies screen
    ensures screen.Valid() && screen.voteState == Idle && screen.previousState.None?
    ensures screen.characters == old(screen.characters)
    ensures screen.currentPair == old(screen.currentPair) && screen.nextPair == old(screen.nextPair)
    ensures screen.history == if old(screen.history).Missing? then Stored([]) else old(screen.history)
    ensures var u := ApplyVote(old(screen.characters), winner, loser, ratings);
      var dealt := NextSlots(u, old(screen.nextPair), pop);
      var saved := Snapshot(old(screen.characters), old(screen.currentPair).value, old(screen.nextPair));
      && (dealt.current.Some? ==> Restored(saved, IdsOf(dealt.current.value)) || IdsOf(dealt.current.value) in screen.pushedBack)
      && (dealt.next.Some? ==> Restored(saved, IdsOf(dealt.next.value)) || IdsOf(dealt.next.value) in screen.pushedBack)
    ensures |old(screen.pushedBack)| <= |screen.pushedBack| <= |old(screen.pushedBack)| + 2
    ensures screen.pushedBack[..|old(screen.pushedBack)|] == old(screen.pushedBack)
  {
    RemoveRecorded(screen.history, Match(winner.id, loser.id, now));
    screen.Vote(winner, loser, ratings, now);
    screen.ApplyRatings();
    var _ := screen.Advance(pop);
    screen.UndoKeepingPairs();
  }
}
