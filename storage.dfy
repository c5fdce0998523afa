/**
 * What the screens keep in the browser's key-value store, once JSON parsing
 * has been made explicit: the character list under `characters-data`, merged
 * into the fixed roster on load, and the match history under `match-history`.
 */
module Storage {
  import opened Wrappers
  import opened Types
  import opened Js
  import Characters

  /**
   * A character object as `JSON.parse` hands it back: any property may be
   * missing. `{...initial, ...found}` copies exactly the properties present.
   */
  datatype StoredCharacter = StoredCharacter(
    id: Option<int>,
    name: Option<string>,
    image: Option<string>,
    circleImage: Option<string>,
    rating: Option<real>,
    rd: Option<real>,
    vol: Option<real>,
    lastVoteTime: Option<string>,
    flippable: Option<bool>,
    voteCount: Option<int>)

  /** What `JSON.stringify` writes for a character: every defined property. */
  function Saved(c: Character): (s: StoredCharacter)
    ensures s.id == Some(c.id)
  {
    StoredCharacter(Some(c.id), Some(c.name), Some(c.image), c.circleImage, Some(c.rating),
      Some(c.rd), Some(c.vol), c.lastVoteTime, Some(c.flippable), c.voteCount)
  }

  /** `saveCharacters`: the list as it is written to the store. */
  function SavedList(chars: seq<Character>): (r: seq<StoredCharacter>)
    ensures |r| == |chars| && forall i :: 0 <= i < |r| ==> r[i] == Saved(chars[i])
  {
    seq(|chars|, i requires 0 <= i < |chars| => Saved(chars[i]))
  }

  /** `{...initial, ...found}`: each property present in `found` replaces the roster's. */
  function Override(initial: Character, found: StoredCharacter): Character {
    Character(
      found.id.GetOr(initial.id),
      found.name.GetOr(initial.name),
      found.image.GetOr(initial.image),
      if found.circleImage.Some? then found.circleImage else initial.circleImage,
      found.rating.GetOr(initial.rating),
      found.rd.GetOr(initial.rd),
      found.vol.GetOr(initial.vol),
      if found.lastVoteTime.Some? then found.lastVoteTime else initial.lastVoteTime,
      found.flippable.GetOr(initial.flippable),
      if found.voteCount.Some? then found.voteCount else initial.voteCount)
  }

  /** The test `p => p.id === id` on a parsed entry. */
  function StoredIdIs(id: int): StoredCharacter -> bool {
    (p: StoredCharacter) => p.id == Some(id)
  }

  /** One roster entry after the merge: overridden by the first parsed entry with its id, if any. */
  function MergeOne(initial: Character, parsed: seq<StoredCharacter>): (c: Character)
    ensures c.id == initial.id
    ensures (forall k :: 0 <= k < |parsed| ==> parsed[k].id != Some(initial.id)) ==> c == initial
    ensures (exists k :: 0 <= k < |parsed| && parsed[k].id == Some(initial.id)) ==>
      exists k :: 0 <= k < |parsed| && parsed[k].id == Some(initial.id) &&
        (forall j :: 0 <= j < k ==> parsed[j].id != Some(initial.id)) &&
        c == Override(initial, parsed[k])
  {
    match Find(parsed, StoredIdIs(initial.id))
    case Some(found) => Override(initial, found)
    case None => initial
  }

  /**
   * The reconciliation of a parsed list with the roster: the roster's
   * length and id order, each entry merged with its persisted counterpart.
   */
  function Merge(roster: seq<Character>, parsed: seq<StoredCharacter>): (r: seq<Character>)
    ensures |r| == |roster|
    ensures forall i :: 0 <= i < |r| ==> r[i] == MergeOne(roster[i], parsed)
  {
    seq(|roster|, i requires 0 <= i < |roster| => MergeOne(roster[i], parsed))
  }

  /**
   * `getStoredCharacters`: outside a browser, with no (or an empty) stored
   * string, or when the string does not parse to a list of characters, the
   * roster itself; otherwise the roster merged with the parsed list.
   */
  function GetStoredCharacters(
    inBrowser: bool, stored: Option<string>, parse: string -> Option<seq<StoredCharacter>>): (r: seq<Character>)
    ensures |r| == |Characters.Roster()|
    ensures forall i :: 0 <= i < |r| ==> r[i].id == i + 1
    ensures !inBrowser || stored.None? || stored == Some("") || parse(stored.value).None? ==>
      r == Characters.Roster()
    ensures inBrowser && stored.Some? && stored != Some("") && parse(stored.value).Some? ==>
      forall i :: 0 <= i < |r| ==> r[i] == MergeOne(Characters.Roster()[i], parse(stored.value).value)
  {
    Characters.RosterEntries();
    if !inBrowser || stored.None? || stored == Some("") then Characters.Roster()
    else
      match parse(stored.value)
      case None => Characters.Roster()
      case Some(parsed) => Merge(Characters.Roster(), parsed)
  }

  /** A parsed list without entries leaves the roster as it is. */
  lemma MergeNothing(roster: seq<Character>)
    ensures Merge(roster, []) == roster
  {
  }

  /** With distinct roster ids, entry i of a saved list is the one the merge finds for roster entry i. */
  lemma MergeOneSaved(roster: seq<Character>, chars: seq<Character>, i: nat)
    requires DistinctIds(roster)
    requires |chars| == |roster|
    requires forall j :: 0 <= j < |chars| ==> chars[j].id == roster[j].id
    requires i < |roster|
    ensures MergeOne(roster[i], SavedList(chars)) == Override(roster[i], Saved(chars[i]))
  {
    var saved := SavedList(chars);
    forall j | 0 <= j < i
      ensures saved[j].id != Some(roster[i].id)
    {
      assert saved[j].id == Some(roster[j].id);
    }
    assert saved[i] == Saved(chars[i]);
    MergeOneAt(roster[i], saved, i);
  }

  /** The merge takes the entry at `k` when it is the first parsed entry with the id. */
  lemma MergeOneAt(initial: Character, parsed: seq<StoredCharacter>, k: nat)
    requires k < |parsed| && parsed[k].id == Some(initial.id)
    requires forall j :: 0 <= j < k ==> parsed[j].id != Some(initial.id)
    ensures MergeOne(initial, parsed) == Override(initial, parsed[k])
  {
    var m :| 0 <= m < |parsed| && parsed[m].id == Some(initial.id) &&
      (forall j :: 0 <= j < m ==> parsed[j].id != Some(initial.id)) &&
      MergeOne(initial, parsed) == Override(initial, parsed[m]);
    assert !(m < k) && !(k < m);
  }

  /**
   * Loading what was saved gives the saved list back, provided it has the
   * roster's ids in the roster's order; an optional property the saved
   * entry lacks is not written, so the roster's value shows through.
   */
  lemma MergeSaved(roster: seq<Character>, chars: seq<Character>)
    requires DistinctIds(roster)
    requires |chars| == |roster|
    requires forall i :: 0 <= i < |chars| ==> chars[i].id == roster[i].id
    ensures forall i :: 0 <= i < |chars| ==>
      Merge(roster, SavedList(chars))[i] == chars[i].(
        circleImage := if chars[i].circleImage.Some? then chars[i].circleImage else roster[i].circleImage,
        lastVoteTime := if chars[i].lastVoteTime.Some? then chars[i].lastVoteTime else roster[i].lastVoteTime,
        voteCount := if chars[i].voteCount.Some? then chars[i].voteCount else roster[i].voteCount)
  {
    forall i | 0 <= i < |chars|
      ensures Merge(roster, SavedList(chars))[i] == Override(roster[i], Saved(chars[i]))
    {
      MergeOneSaved(roster, chars, i);
    }
  }

  /** The roster round trip: a saved list with the roster's ids, all with a circle image, loads back unchanged. */
  lemma LoadSavedRoster(chars: seq<Character>, text: string, parse: string -> Option<seq<StoredCharacter>>)
    requires |chars| == |Characters.Roster()|
    requires forall i :: 0 <= i < |chars| ==> chars[i].id == i + 1 && chars[i].circleImage.Some?
    requires text != "" && parse(text) == Some(SavedList(chars))
    ensures GetStoredCharacters(true, Some(text), parse) == chars
  {
    Characters.RosterEntries();
    Characters.RosterIds();
    MergeSaved(Characters.Roster(), chars);
    var r := GetStoredCharacters(true, Some(text), parse);
    assert forall i :: 0 <= i < |chars| ==> r[i] == chars[i];
  }

  /**
   * The `match-history` entry: absent (or the empty string), present but
   * not a JSON array, or a parsed list of matches.
   */
  datatype HistoryStore = Missing | Corrupt | Stored(matches: seq<Match>)

  /**
   * The vote's history update: an absent entry counts as `[]`; an entry
   * that does not parse makes the update throw, and the catch leaves it.
   */
  function RecordMatch(h: HistoryStore, m: Match): (r: HistoryStore)
    ensures h.Stored? ==> r == Stored(h.matches + [m])
    ensures h.Missing? ==> r == Stored([m])
    ensures h.Corrupt? ==> r == h
  {
    match h
    case Missing => Stored([m])
    case Corrupt => Corrupt
    case Stored(ms) => Stored(ms + [m])
  }

  /**
   * The undo's history update: `matches.pop()` on a parsed list (which
   * leaves an empty list empty); nothing happens to an absent or unparseable entry.
   */
  function RemoveLastMatch(h: HistoryStore): (r: HistoryStore)
    ensures h.Stored? ==> r.Stored? && r.matches == if h.matches == [] then [] else h.matches[..|h.matches| - 1]
    ensures !h.Stored? ==> r == h
  {
    match h
    case Stored(ms) => if ms == [] then Stored([]) else Stored(ms[..|ms| - 1])
    case _ => h
  }

  /**
   * Undo removes exactly the record the vote appended: a parsed history
   * comes back unchanged, an absent one comes back as the empty list.
   */
  lemma RemoveRecorded(h: HistoryStore, m: Match)
    ensures RemoveLastMatch(RecordMatch(h, m)) == if h.Missing? then Stored([]) else h
  {
    if h.Stored? {
      assert (h.matches + [m])[..|h.matches|] == h.matches;
    }
  }
}
