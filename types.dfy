/** The records shared by every screen: a character and a match record. */
module Types {
  import opened Wrappers

  /**
   * A rated character. `circleImage` and `lastVoteTime` are optional
   * properties; `voteCount` is the `vote_count` property that a vote
   * attaches to the record although the interface does not declare it.
   */
  datatype Character = Character(
    id: int,
    name: string,
    image: string,
    circleImage: Option<string>,
    rating: real,
    rd: real,
    vol: real,
    lastVoteTime: Option<string>,
    flippable: bool,
    voteCount: Option<int>)

  /** One recorded vote. */
  datatype Match = Match(winnerId: int, loserId: int, timestamp: string)

  /** No two entries of `s` share an id. */
  predicate DistinctIds(s: seq<Character>) {
    forall i, j :: 0 <= i < j < |s| ==> s[i].id != s[j].id
  }

  /** Some entry of `s` has the given id. */
  predicate HasEntry(s: seq<Character>, id: int) {
    exists i :: 0 <= i < |s| && s[i].id == id
  }

  /** The ids of a list, in order. */
  function Ids(s: seq<Character>): (r: seq<int>)
    ensures |r| == |s| && forall i :: 0 <= i < |s| ==> r[i] == s[i].id
  {
    seq(|s|, i requires 0 <= i < |s| => s[i].id)
  }

  /** The test `c => c.id === id`, as a value that can be passed to find/filter. */
  function IdIs(id: int): Character -> bool {
    (c: Character) => c.id == id
  }
}
