/**
 * The tier list screen: the characters in rating order, cut into
 * consecutive tiers whose sizes the user configures.
 */
module Leaderboard {
  import opened Wrappers
  import opened Types
  import opened Js
  import Storage
  import Ranking

  /** A tier's size as stored: a number, or the text of an input being edited. */
  datatype Count = Number(n: int) | Text(s: string)

  /** A configured tier; `caption` is the `label` property (a reserved word here). */
  datatype TierConfig = TierConfig(caption: string, count: Count, color: string)

  /** A tier as displayed: its configuration, its characters and the rank of its first one. */
  datatype Tier = Tier(caption: string, count: Count, color: string, characters: seq<Character>, startRank: int)

  /** Colour of a tier the user adds. */
  const NewTierColor := "#7FFF7F"

  /** The largest size a tier can be given through its input. */
  const MaxTierCount := 28

  /** The six tiers S to E, of 5, 6, 6, 6, 5 and 5 characters. */
  function DefaultTierConfig(): (r: seq<TierConfig>)
    ensures |r| == 6
    ensures forall k :: 0 <= k < |r| ==> r[k].count.Number? && r[k].count.n > 0
  {
    [ TierConfig("S", Number(5), "#FF7F7F"),
      TierConfig("A", Number(6), "#FFBF7F"),
      TierConfig("B", Number(6), "#FFDF7F"),
      TierConfig("C", Number(6), "#FFFF7F"),
      TierConfig("D", Number(5), "#BFFF7F"),
      TierConfig("E", Number(5), "#7FFF7F") ]
  }

  /**
   * The number of characters a tier takes: a number as it is; a text by
   * `parseInt`, with 0 when it does not parse.
   */
  function EffectiveCount(c: Count): (n: int)
    ensures c.Number? ==> n == c.n
    ensures c.Text? && ParseInt(c.s).Some? ==> n == ParseInt(c.s).value
    ensures c.Text? && ParseInt(c.s).None? ==> n == 0
  {
    match c
    case Number(k) => k
    case Text(s) => OrDefault(ParseInt(s), 0)
  }

  /** The sum of the tiers' sizes, added from the first tier on. */
  function Total(config: seq<TierConfig>): int {
    if config == [] then 0
    else Total(config[..|config| - 1]) + EffectiveCount(config[|config| - 1].count)
  }

  /** Every tier takes zero or more characters. */
  predicate NonNegativeCounts(config: seq<TierConfig>) {
    forall k :: 0 <= k < |config| ==> EffectiveCount(config[k].count) >= 0
  }

  /** Tier `k` alone, with the tiers before it having taken `Total(config[..k])` characters. */
  function TierOf(config: seq<TierConfig>, data: seq<Character>, k: nat): (t: Tier)
    requires k < |config|
    ensures t.caption == config[k].caption && t.count == config[k].count && t.color == config[k].color
    ensures t.startRank == Total(config[..k]) + 1
    ensures |t.characters| <= |data|
  {
    var before := Total(config[..k]);
    Tier(config[k].caption, config[k].count, config[k].color,
      Slice(data, before, before + EffectiveCount(config[k].count)), before + 1)
  }

  /**
   * `tiersWithCharacters`: one tier per configuration entry, each taking the
   * next `count` characters of `data` after those the earlier tiers took.
   */
  method TiersWithCharacters(config: seq<TierConfig>, data: seq<Character>) returns (tiers: seq<Tier>)
    ensures |tiers| == |config|
    ensures forall k :: 0 <= k < |config| ==> tiers[k] == TierOf(config, data, k)
  {
    var currentIndex := 0;
    tiers := [];
    var i := 0;
    while i < |config|
      invariant 0 <= i <= |config|
      invariant |tiers| == i
      invariant currentIndex == Total(config[..i])
      invariant forall k :: 0 <= k < i ==> tiers[k] == TierOf(config, data, k)
    {
      TotalStep(config, i);
      var count := EffectiveCount(config[i].count);
      var tier := Tier(config[i].caption, config[i].count, config[i].color,
        Slice(data, currentIndex, currentIndex + count), currentIndex + 1);
      assert tier == TierOf(config, data, i);
      tiers := tiers + [tier];
      currentIndex := currentIndex + count;
      i := i + 1;
    }
    assert config[..i] == config;
  }

  /** The tiers' characters one after the other, as the tier list shows them. */
  function Flatten(tiers: seq<Tier>): (r: seq<Character>) {
    if tiers == [] then [] else Flatten(tiers[..|tiers| - 1]) + tiers[|tiers| - 1].characters
  }

  /** With no negative sizes, a longer prefix of the configuration never takes fewer characters. */
  lemma {:induction false} TotalMonotone(config: seq<TierConfig>, i: nat, j: nat)
    requires NonNegativeCounts(config)
    requires i <= j <= |config|
    ensures 0 <= Total(config[..i]) <= Total(config[..j])
    decreases j
  {
    if j > 0 {
      assert config[..j][..j - 1] == config[..j - 1];
      if i < j {
        TotalMonotone(config, i, j - 1);
      } else {
        TotalMonotone(config, j - 1, j - 1);
      }
    }
  }

  /** One more tier adds its own size to the total. */
  lemma TotalStep(config: seq<TierConfig>, k: nat)
    requires k < |config|
    ensures Total(config[..k + 1]) == Total(config[..k]) + EffectiveCount(config[k].count)
  {
    assert config[..k + 1][..k] == config[..k];
  }

  /** The characters of the first n tiers are those of the first n - 1, then tier n's. */
  lemma FlattenStep(tiers: seq<Tier>, n: nat)
    requires 0 < n <= |tiers|
    ensures Flatten(tiers[..n]) == Flatten(tiers[..n - 1]) + tiers[n - 1].characters
  {
    assert tiers[..n][..n - 1] == tiers[..n - 1];
  }

  /** Taking `count` more characters after the first `before` extends the prefix taken. */
  lemma SliceStep(data: seq<Character>, before: int, count: int)
    requires before >= 0 && count >= 0
    ensures data[..Min(before, |data|)] + Slice(data, before, before + count) == data[..Min(before + count, |data|)]
  {
    var a, b := Min(before, |data|), Min(before + count, |data|);
    assert Slice(data, before, before + count) == data[a..b];
    assert data[..a] + data[a..b] == data[..b];
  }

  /**
   * With no negative sizes the first `n` tiers hold exactly the first
   * `Total(config[..n])` characters (all of them, if there are fewer), in order.
   */
  lemma {:induction false} PartitionPrefix(config: seq<TierConfig>, data: seq<Character>, tiers: seq<Tier>, n: nat)
    requires NonNegativeCounts(config)
    requires |tiers| == |config| && forall k :: 0 <= k < |config| ==> tiers[k] == TierOf(config, data, k)
    requires n <= |config|
    ensures 0 <= Total(config[..n])
    ensures Flatten(tiers[..n]) == data[..Min(Total(config[..n]), |data|)]
  {
    TotalMonotone(config, n, n);
    if n > 0 {
      PartitionPrefix(config, data, tiers, n - 1);
      TotalStep(config, n - 1);
      FlattenStep(tiers, n);
      assert tiers[n - 1] == TierOf(config, data, n - 1);
      SliceStep(data, Total(config[..n - 1]), EffectiveCount(config[n - 1].count));
    }
  }

  /**
   * The tier list places every character it can: with no negative sizes,
   * the tiers together are the first `Total(config)` characters of `data`
   * in order (all of `data` when the sizes add up to at least its length).
   */
  lemma Partition(config: seq<TierConfig>, data: seq<Character>, tiers: seq<Tier>)
    requires NonNegativeCounts(config)
    requires |tiers| == |config| && forall k :: 0 <= k < |config| ==> tiers[k] == TierOf(config, data, k)
    ensures 0 <= Total(config)
    ensures Flatten(tiers) == data[..Min(Total(config), |data|)]
    ensures Total(config) >= |data| ==> Flatten(tiers) == data
  {
    PartitionPrefix(config, data, tiers, |config|);
    assert tiers[..|tiers|] == tiers && config[..|config|] == config;
  }

  /**
   * The rank shown beside a character (`startRank + index`) is its place in
   * `data`, and it lies inside the range the tier takes.
   */
  lemma ShownRank(config: seq<TierConfig>, data: seq<Character>, k: nat, j: nat)
    requires NonNegativeCounts(config)
    requires k < |config| && j < |TierOf(config, data, k).characters|
    ensures var t := TierOf(config, data, k);
      && 1 <= t.startRank + j <= |data|
      && t.characters[j] == data[t.startRank + j - 1]
      && t.startRank + j - 1 < Total(config[..k + 1])
  {
    TotalMonotone(config, k, k);
    TotalStep(config, k);
    var t := TierOf(config, data, k);
    var before, count := Total(config[..k]), EffectiveCount(config[k].count);
    assert 0 <= before && 0 <= count;
    var lo, hi := Min(before, |data|), Min(before + count, |data|);
    assert t.characters == data[lo..hi];
    assert lo == before by {
      assert |t.characters| == hi - lo;
    }
    assert t.characters[j] == data[before + j];
  }

  /**
   * In rating-ordered data, everyone in an earlier tier is rated at least
   * as high as everyone in a later tier.
   */
  lemma TierOrder(config: seq<TierConfig>, data: seq<Character>, k1: nat, j1: nat, k2: nat, j2: nat)
    requires NonNegativeCounts(config) && Ranking.Descending(data)
    requires k1 < k2 < |config|
    requires j1 < |TierOf(config, data, k1).characters| && j2 < |TierOf(config, data, k2).characters|
    ensures TierOf(config, data, k1).characters[j1].rating >= TierOf(config, data, k2).characters[j2].rating
  {
    ShownRank(config, data, k1, j1);
    ShownRank(config, data, k2, j2);
    TotalMonotone(config, k1 + 1, k2);
  }

  /** The badge turns to a warning when the sizes add up to fewer than the characters. */
  function ShowWarning(config: seq<TierConfig>, data: seq<Character>): (w: bool) {
    Total(config) < |data|
  }

  /** With no negative sizes, the warning shows exactly when some character is in no tier. */
  lemma WarningMeansUnplaced(config: seq<TierConfig>, data: seq<Character>, tiers: seq<Tier>)
    requires NonNegativeCounts(config)
    requires |tiers| == |config| && forall k :: 0 <= k < |config| ==> tiers[k] == TierOf(config, data, k)
    ensures ShowWarning(config, data) <==> |Flatten(tiers)| < |data|
  {
    Partition(config, data, tiers);
  }

  /** The default tiers take 33 places, so none of the 28 roster characters is left out. */
  lemma DefaultPlacesRoster(data: seq<Character>)
    requires |data| <= 28
    ensures NonNegativeCounts(DefaultTierConfig())
    ensures Total(DefaultTierConfig()) == 33
    ensures !ShowWarning(DefaultTierConfig(), data)
  {
    var d := DefaultTierConfig();
    assert d[..0] == [] && d[..1][..0] == d[..0] && d[..2][..1] == d[..1] && d[..3][..2] == d[..2];
    assert d[..4][..3] == d[..3] && d[..5][..4] == d[..4] && d[..6][..5] == d[..5] && d[..6] == d;
    assert Total(d[..1]) == 5;
    assert Total(d[..3]) == 17;
    assert Total(d[..5]) == 28;
  }

  /** The data the screen shows: the stored characters in rating order. */
  function LeaderboardData(
    inBrowser: bool, stored: Option<string>, parse: string -> Option<seq<Storage.StoredCharacter>>): (r: seq<Character>)
    ensures |r| == 28
    ensures Ranking.Descending(r)
    ensures multiset(r) == multiset(Storage.GetStoredCharacters(inBrowser, stored, parse))
  {
    Ranking.SortedPermutation(Storage.GetStoredCharacters(inBrowser, stored, parse));
    Ranking.SortByRating(Storage.GetStoredCharacters(inBrowser, stored, parse))
  }

  /**
   * The value a tier's size input stores: the empty text stays as it is
   * (so the field can be cleared while typing); anything else is read by
   * `parseInt`, a result that is missing or 0 counts as 1, and the number is
   * clamped to 1..28.
   */
  function CountInput(value: string): (c: Count)
    ensures value == "" <==> c == Text("")
    ensures value != "" ==> c.Number? && 1 <= c.n <= MaxTierCount
    ensures value != "" && ParseInt(value).Some? && 1 <= ParseInt(value).value <= MaxTierCount ==>
      c == Number(ParseInt(value).value)
    ensures value != "" && ParseInt(value).Some? && ParseInt(value).value > MaxTierCount ==> c == Number(MaxTierCount)
    ensures value != "" && (ParseInt(value).None? || ParseInt(value).value <= 0) ==> c == Number(1)
  {
    if value == "" then Text("")
    else
      var n := OrDefault(ParseInt(value), 1);
      Number(if n < 1 then 1 else if n > MaxTierCount then MaxTierCount else n)
  }

  /** Typing a size from 1 to 28 stores that size; the size of an edited tier is never negative. */
  lemma CountInputRoundTrip(n: nat, value: string)
    requires 1 <= n <= MaxTierCount
    ensures CountInput(ToRadix(n, 10)) == Number(n)
    ensures 0 <= EffectiveCount(CountInput(value)) <= MaxTierCount
  {
    ParseIntOfString(n);
    assert ToRadix(n, 10) != "";
    if value == "" {
      assert ParseInt("") == None by {
        assert TrimStart("") == "";
      }
    }
  }

  /** The entry `addTier` appends after `n` tiers: labelled `n + 1`, of size 3. */
  function NewTier(n: nat): (t: TierConfig)
    ensures |t.caption| > 0 && AllDigits(t.caption, 10) && t.caption[0] != '0'
    ensures Value(t.caption, 10) == n + 1 && ParseInt(t.caption) == Some(n + 1)
    ensures t.count == Number(3) && t.color == NewTierColor
  {
    ParseIntOfString(n + 1);
    TierConfig(ToRadix(n + 1, 10), Number(3), NewTierColor)
  }

  /** `filter((_, i) => i !== index)`: the list without its entry at `index`, if there is one. */
  function RemoveAt<T>(s: seq<T>, index: int): (r: seq<T>)
    ensures 0 <= index < |s| ==> r == s[..index] + s[index + 1..]
    ensures !(0 <= index < |s|) ==> r == s
  {
    if s == [] then []
    else
      var rest := RemoveAt(s[1..], index - 1);
      assert s == [s[0]] + s[1..];
      if index == 0 then rest else [s[0]] + rest
  }

  /**
   * `getStoredTierConfig`: the parsed `tier-config` entry, or the default
   * tiers outside a browser, without an entry (or with an empty one), or
   * when it does not parse.
   */
  function StoredTierConfig(
    inBrowser: bool, stored: Option<string>, parse: string -> Option<seq<TierConfig>>): (r: seq<TierConfig>)
    ensures !inBrowser || stored.None? || stored == Some("") || parse(stored.value).None? ==> r == DefaultTierConfig()
    ensures inBrowser && stored.Some? && stored != Some("") && parse(stored.value).Some? ==> r == parse(stored.value).value
  {
    if !inBrowser || stored.None? || stored == Some("") then DefaultTierConfig()
    else
      match parse(stored.value)
      case Some(config) => config
      case None => DefaultTierConfig()
  }

  /** The tier settings panel: the configuration and what it last wrote to the store. */
  class TierSettings {
    var config: seq<TierConfig>
    /** The configuration last written under `tier-config`, if any. */
    var saved: Option<seq<TierConfig>>

    constructor Load(stored: Option<string>, parse: string -> Option<seq<TierConfig>>)
      ensures config == StoredTierConfig(true, stored, parse) && saved.None?
    {
      config := StoredTierConfig(true, stored, parse);
      saved := None;
    }

    /** `handleTierCountChange`: the tier at `index` takes the size the input gives. */
    method SetCount(index: nat, value: string)
      requires index < |config|
      modifies this
      ensures saved == Some(config)
      ensures config == old(config)[index := old(config)[index].(count := CountInput(value))]
    {
      config := config[index := config[index].(count := CountInput(value))];
      saved := Some(config);
    }

    /** `handleTierLabelChange`. */
    method SetLabel(index: nat, caption: string)
      requires index < |config|
      modifies this
      ensures saved == Some(config)
      ensures config == old(config)[index := old(config)[index].(caption := caption)]
    {
      config := config[index := config[index].(caption := caption)];
      saved := Some(config);
    }

    /** `handleTierColorChange`. */
    method SetColor(index: nat, color: string)
      requires index < |config|
      modifies this
      ensures saved == Some(config)
      ensures config == old(config)[index := old(config)[index].(color := color)]
    {
      config := config[index := config[index].(color := color)];
      saved := Some(config);
    }

    /** `addTier`: a new last tier labelled with the new number of tiers. */
    method AddTier()
      modifies this
      ensures saved == Some(config)
      ensures config == old(config) + [NewTier(|old(config)|)]
      ensures ParseInt(config[|config| - 1].caption) == Some(|config|)
    {
      var added := NewTier(|config|);
      config := config + [added];
      assert config[|config| - 1] == added;
      saved := Some(config);
    }

    /** `removeTier`: ignored when at most one tier is left; otherwise drops the tier at `index`. */
    method RemoveTier(index: int)
      modifies this
      ensures |old(config)| <= 1 ==> unchanged(this)
      ensures |old(config)| > 1 ==> config == RemoveAt(old(config), index) && saved == Some(config)
      ensures |old(config)| > 1 && 0 <= index < |old(config)| ==> |config| == |old(config)| - 1 >= 1
    {
      if |config| <= 1 {
        return;
      }
      config := RemoveAt(config, index);
      saved := Some(config);
    }

    /** `resetTierConfig`: back to the default tiers. */
    method ResetConfig()
      modifies this
      ensures config == DefaultTierConfig() && saved == Some(DefaultTierConfig())
    {
      config := DefaultTierConfig();
      saved := Some(config);
    }
  }
}
