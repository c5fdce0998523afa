/** The fixed roster every session starts from. */
module Characters {
  import opened Wrappers
  import opened Types

  const InitialRating: real := 1500.0
  const InitialRd: real := 350.0
  const InitialVol: real := 0.06

  /** A character with the initial Glicko-2 statistics and no votes yet. */
  function CreateChar(id: int, name: string, image: string, circleImage: string, flippable: bool): (c: Character)
    ensures c.id == id && c.name == name && c.image == image
    ensures c.circleImage == Some(circleImage) && c.flippable == flippable
    ensures c.rating == 1500.0 && c.rd == 350.0 && c.vol == 0.06
    ensures c.lastVoteTime.None? && c.voteCount.None?
  {
    Character(id, name, image, Some(circleImage), InitialRating, InitialRd, InitialVol, None, flippable, None)
  }

  /** The 28 characters of the game; `RosterEntries` states what they have in common. */
  function Roster(): (r: seq<Character>)
    ensures |r| == 28
  {
    [ CreateChar(1, "2B", "2B.png", "2B-0.png", true),
      CreateChar(2, "Amy", "Amy.png", "amy-1.png", true),
      CreateChar(3, "Astaroth", "Astaroth.png", "astaroth-2.png", true),
      CreateChar(4, "Azwel", "Azwel.png", "azwel-3.png", true),
      CreateChar(5, "Cassandra", "Cassandra.png", "cassandra-4.png", true),
      CreateChar(6, "Cervantes", "Cervantes.png", "cervantes-5.png", true),
      CreateChar(7, "Taki", "Taki.png", "taki-21.png", true),
      CreateChar(8, "Talim", "Talim.png", "talim-22.png", true),
      CreateChar(9, "Geralt", "Geralt.png", "geralt-6.png", true),
      CreateChar(10, "Groh", "Groh.png", "groh-7.png", true),
      CreateChar(11, "Haohmaru", "Haohmaru.png", "haohmaru-8.png", true),
      CreateChar(12, "Hilde", "Hilde.png", "hilde-9.png", true),
      CreateChar(13, "Hwang", "Hwang.png", "hwang-10.png", true),
      CreateChar(14, "Ivy", "Ivy.png", "ivy-11.png", true),
      CreateChar(15, "Kilik", "Kilik.png", "kilik-12.png", true),
      CreateChar(16, "Maxi", "Maxi.png", "maxi-13.png", true),
      CreateChar(17, "Mitsurugi", "Mitsurugi.png", "mitsurugi-14.png", false),
      CreateChar(18, "Nightmare", "Nightmare.png", "nightmare-15.png", false),
      CreateChar(19, "Raphael", "Raphael.png", "raphael-16.png", true),
      CreateChar(20, "Seong Mina", "SeongMina.png", "seong_mina-17.png", true),
      CreateChar(21, "Setsuka", "Setsuka.png", "setsuka-18.png", true),
      CreateChar(22, "Siegfried", "Siegfried.png", "siegfried-19.png", false),
      CreateChar(23, "Sophitia", "Sophitia.png", "sophitia-20.png", false),
      CreateChar(24, "Tira", "Tira.png", "tira-23.png", false),
      CreateChar(25, "Voldo", "Voldo.png", "voldo-24.png", true),
      CreateChar(26, "Xianghua", "Xianghua.png", "xianghua-25.png", true),
      CreateChar(27, "Yoshimitsu", "Yoshimitsu.png", "yoshimitsu-26.png", true),
      CreateChar(28, "Zasalamel", "Zasalamel.png", "zasalamel-27.png", true) ]
  }

  /**
   * Entry i of the roster has id i + 1 and the initial statistics (so a
   * positive deviation and volatility), a circle image, and no votes.
   */
  lemma RosterEntries()
    ensures forall i :: 0 <= i < |Roster()| ==> Roster()[i].id == i + 1
    ensures forall i :: 0 <= i < |Roster()| ==>
      Roster()[i].rating == InitialRating && Roster()[i].rd == InitialRd && Roster()[i].vol == InitialVol
    ensures forall i :: 0 <= i < |Roster()| ==> Roster()[i].rd > 0.0 && Roster()[i].vol > 0.0
    ensures forall i :: 0 <= i < |Roster()| ==>
      Roster()[i].circleImage.Some? && Roster()[i].voteCount.None? && Roster()[i].lastVoteTime.None?
  {
    var r := Roster();
    forall i | 0 <= i < 28
      ensures r[i].id == i + 1
      ensures r[i].rating == InitialRating && r[i].rd == InitialRd && r[i].vol == InitialVol
      ensures r[i].circleImage.Some? && r[i].voteCount.None? && r[i].lastVoteTime.None?
    {
      assert i == 0 || i == 1 || i == 2 || i == 3 || i == 4 || i == 5 || i == 6 || i == 7 || i == 8 || i == 9 || i == 10 || i == 11 || i == 12 || i == 13 || i == 14 || i == 15 || i == 16 || i == 17 || i == 18 || i == 19 || i == 20 || i == 21 || i == 22 || i == 23 || i == 24 || i == 25 || i == 26 || i == 27;
    }
  }

  /** The roster's ids are pairwise distinct, and an id is on the roster exactly when it lies in 1..28. */
  lemma RosterIds()
    ensures DistinctIds(Roster())
    ensures forall id :: HasEntry(Roster(), id) <==> 1 <= id <= 28
  {
    var r := Roster();
    RosterEntries();
    forall id | 1 <= id <= 28 ensures HasEntry(r, id) {
      assert r[id - 1].id == id;
    }
  }
}
