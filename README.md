# tierlistVoter, modelled in Dafny

tierlistVoter is a browser app for ranking a fixed roster of 28 fighting-game
characters. The user is shown two characters at a time and votes for one;
each vote updates both characters' ratings, which are kept in the browser's
key-value store. A tier list screen cuts the rating-ordered roster into tiers
whose sizes the user configures. A details dialog lists whom a character has
beaten and whom it has lost to.

This project models the discrete part of the app and proves what it
promises. The modules are:

- `Characters`: the roster and its starting statistics.
- `Storage`: the stored character list merged back into the roster, and the
  match history.
- `Ranking`: the rating order and the rank shown for a character.
- `Voting`: the voting screen, modelled as a class. It covers the vote, the
  two timers that follow it, and the undo.
- `Leaderboard`: the tier partition, and the tier settings panel, modelled
  as a class.
- `HexColor`: the `rgb(...)` to `#rrggbb` conversion.
- `CharacterDetails`: the head-to-head lists.
- `Js`: the JavaScript built-ins these use, with their ECMAScript
  behaviour. This covers `find`, `findIndex`, `filter`, `slice` with
  negative indices, `parseInt` (white space, sign, `0x`, digit prefix,
  `NaN` as `None`), `x || d`, `String(n)`, `toString(16)`, `padStart` and
  `startsWith`.

The browser store is not modelled as a live object. Each entry is passed in
as the string read back, or as `None` when the key is absent. `JSON.parse`
is a parameter `parse: string -> Option<...>`, where `None` means it
throws. The pair queue lives outside the modelled files. Its two
operations are handled as follows:

- `popNextPair`: a parameter `pop(updated, k)`, giving the k-th pair popped
  in one advance.
- `pushToQueue`: a log of its arguments, kept in the field `pushedBack`.

The rating engine `calculateNewRatings` is represented by its result for
the vote, a parameter `ratings` of `Vote`. The model uses only what the
engine promises: it returns the winner and the loser with new `rating`,
`rd` and `vol`, and every other property copied.

## Model

| member | source | states |
|---|---|---|
| Characters.CreateChar | src/lib/characters.ts:9-18 | A new character starts at rating 1500, rd 350 and vol 0.06. Its id, name, image, circle image and flippable flag are the arguments. It has no vote count and no last vote time. |
| Characters.Roster | src/lib/characters.ts:20-49 | The roster has 28 entries. |
| Characters.RosterEntries | src/lib/characters.ts:20-49 | Entry i has id i+1 and the starting statistics, so rd and vol are positive. It has a circle image, no vote count and no last vote time. |
| Characters.RosterIds | src/lib/characters.ts:20-49 | The roster ids are distinct, and an id is on the roster exactly when it is between 1 and 28. |
| Js.FindIndex | src/routes/index.tsx:368 | -1 exactly when no element passes. Otherwise the result is the first index whose element passes. |
| Js.Find | src/routes/index.tsx:26 | `None` exactly when no element passes. Otherwise the result is the first element that passes. |
| Js.Filter | src/components/character-details-modal.tsx:40-41 | The result keeps exactly the elements that pass, in their original order, as a subsequence of the input. Each passing value occurs as often as in the input, and a failing one not at all. |
| Js.Slice | src/routes/leaderboard.tsx:345 | For 0 <= start <= end, the result is the elements from start to end, with both bounds clipped to the length. A negative start with an end past the array gives the last -start elements, or the whole array when -start exceeds the length. |
| Js.RelativeIndex | src/routes/leaderboard.tsx:345 | A bound is clipped to the length. A negative bound counts back from the end, and one before the start becomes 0. |
| Js.ParseInt | src/routes/leaderboard.tsx:234 | The empty string is NaN, and so is a string whose first character is not white space, a sign or a decimal digit. |
| Js.ParseIntDecimal | src/routes/leaderboard.tsx:234 | White space, an optional sign, a run of decimal digits, then anything that does not continue the run parses to the signed value of the run. The one exception is a lone `0` followed by `x` or `X`. So `"  12"` is 12, `"-3"` is -3, and `"1e3"`, `"1.5"` and `"12px"` read only their leading digits. |
| Js.ParseIntHex | src/routes/leaderboard.tsx:234 | White space, an optional sign, `0x` or `0X`, then a run of hex digits ended by a non-hex-digit parses to the signed value of the run in base 16. With no hex digit after the prefix, the result is NaN. |
| Js.ParseIntNoDigits | src/routes/leaderboard.tsx:234 | White space and an optional sign not followed by a decimal digit parse to NaN. Without a sign, the rest must not start with one. So `""`, `"   "`, `"+"`, `"-.5"` and `"- 5"` are NaN. |
| Js.ParseDecimal | src/routes/leaderboard.tsx:39 | A non-empty string of decimal digits parses to the value it denotes. |
| Js.ParseIntOfString | src/routes/leaderboard.tsx:257 | `parseInt(String(n))` is n for every natural n. |
| Js.ToRadix | src/routes/leaderboard.tsx:39 | `n.toString(radix)` is a non-empty string of digits of that radix whose value is n. Its first digit is not 0 unless n is 0. It has one digit exactly when n < radix, and two when radix <= n < radix². |
| Js.PadStart | src/routes/leaderboard.tsx:39 | The result has the target length (or the input's, if longer). It ends with the input, and everything before the input is the fill character. |
| Js.OrDefault | src/routes/leaderboard.tsx:234 | `v \|\| d`: NaN and 0 give d, and any other number gives itself. |
| Storage.Saved | src/routes/index.tsx:39-43 | A character is written with its id. |
| Storage.SavedList | src/routes/index.tsx:39-43 | The written list has one entry per character, in order. |
| Storage.Override | src/routes/index.tsx:28 | No contract of its own. It spells out `{...initial, ...found}`: each property present in the stored entry replaces the roster's, and an absent one keeps it. `MergeSaved` and `LoadSavedRoster` state what it yields for saved entries. |
| Storage.MergeOne | src/routes/index.tsx:25-31 | The merged entry keeps the roster id. With no stored entry of that id, it is the roster entry unchanged. Otherwise it is the roster entry with every property of the FIRST stored entry of that id laid over it. |
| Storage.Merge | src/routes/index.tsx:25-31 | The merge has the roster's length, and entry i is roster entry i merged. |
| Storage.GetStoredCharacters | src/routes/index.tsx:18-37 | The result always has 28 entries, and entry i has id i+1. It is exactly the roster outside a browser, without a stored entry, with an empty one, or when parsing fails. Otherwise it is the roster merged with what was parsed. |
| Storage.MergeNothing | src/routes/index.tsx:25-31 | Merging an empty stored list gives the roster back. |
| Storage.MergeOneSaved | src/routes/index.tsx:25-31 | With distinct roster ids, the merge picks stored entry i for roster entry i of a list saved in roster order. |
| Storage.MergeOneAt | src/routes/index.tsx:25-31 | When the entry at k is the first stored entry with the roster id, the merge lays exactly that entry over the roster entry. |
| Storage.MergeSaved | src/routes/index.tsx:25-31 | A list saved in roster order loads back entry by entry. An optional property the saved entry lacks shows the roster's value. |
| Storage.LoadSavedRoster | src/routes/index.tsx:18-43 | Save then load is the identity on every list with ids 1..28 in order and all circle images present. |
| Storage.RecordMatch | src/routes/index.tsx:194-201 | A vote appends its match to a parsed history and starts an absent one as `[match]`. An unparseable history is left as it is. |
| Storage.RemoveLastMatch | src/routes/index.tsx:276-285 | Undo drops the last match of a parsed history, and an empty one stays empty. An absent or unparseable history is left as it is. |
| Storage.RemoveRecorded | src/routes/index.tsx:276-285 | Undo after a vote gives back the history from before the vote. The one exception is an absent history, which comes back as `[]`. |
| Ranking.Insert | src/routes/index.tsx:367 | Inserting adds exactly one element: one more in length, and the multiset gains x. |
| Ranking.InsertDescending | src/routes/index.tsx:367 | Inserting into a rating-descending list keeps it descending. |
| Ranking.SortByRating | src/routes/index.tsx:367 | The sorted list has the input's length. |
| Ranking.SortedPermutation | src/routes/index.tsx:367 | The sorted list is a permutation of the input, ordered by descending rating. |
| Ranking.Rank | src/routes/index.tsx:367-368 | The rank is between 0 and N. It is 0 exactly when the id is absent. Otherwise the sorted list holds that id at position rank-1. |
| Ranking.RankIsFirst | src/routes/index.tsx:368 | No entry before position rank-1 of the sorted list has the id, so the rank points at its first occurrence, as `findIndex` does. |
| Ranking.RankedEntry | src/routes/index.tsx:367-368 | With distinct ids, each entry of the list sits in the sorted list at its rank minus one. |
| Ranking.RankOrder | src/routes/index.tsx:367-368 | With distinct ids, a strictly higher rating gives a strictly smaller rank, and both ranks are positive. |
| Ranking.RankChange | src/routes/index.tsx:371-375 | No change is shown when no previous rank is stored, or when it is 0. Otherwise the change is previous minus current, and it is positive exactly when the character moved up. |
| Voting.WithStats | src/lib/glicko.ts:112-124 | The engine's result carries the new rating, rd and vol, and agrees with the character in every other property. |
| Voting.NextVoteCount | src/routes/index.tsx:207-218 | A missing or zero vote count becomes 1, and any other count is incremented. |
| Voting.Voted | src/routes/index.tsx:205-219 | A voted entry keeps its id and every property except the statistics and the vote count. It gets the engine's statistics and the next vote count. |
| Voting.ApplyVote | src/routes/index.tsx:204-222 | The list keeps its length and id order. The winner's entries become the voted winner, the loser's become the voted loser, and every other entry is identical. |
| Voting.VoteChangesOnlyThePair | src/routes/index.tsx:204-222 | Take a vote between two entries of a list with distinct ids. Exactly those two entries change, each gains one vote and carries its new rating, and the ids stay in order. |
| Voting.PreviousRanks | src/routes/index.tsx:169-176 | The saved ranks are keyed by the pair's two ids, and each value is that id's rank before the vote. |
| Voting.RankChangeDuringVote | src/routes/index.tsx:169-176 | While a result is shown, a pair member on the list shows its rank before the vote minus its current rank. |
| Voting.Resolve | src/routes/index.tsx:251-254 | The result has the same id as the old entry. |
| Voting.ResolveEntry | src/routes/index.tsx:251-254 | The result is the list's first entry with that id if there is one, and otherwise the old entry. |
| Voting.Refreshed | src/routes/index.tsx:231-234 | The refreshed pair has the same ids. |
| Voting.NextSlots | src/routes/index.tsx:244-267 | No contract of its own. It is the slot update of the second timer, whose cases `NextSlotsCases` states. |
| Voting.NextSlotsCases | src/routes/index.tsx:244-267 | If there is a lookahead, it becomes current with refreshed entries and one pop fills the lookahead. Otherwise two pops fill both slots. When no pair can be had, both slots are empty. |
| Voting.AdvancePromotesLookahead | src/routes/index.tsx:249-256 | The promoted pair keeps its ids, and each side that the updated list knows shows the entry from the updated list. |
| Voting.ShouldPushBackAsWritten | src/routes/index.tsx:290 | No contract of its own. It is the source's test: a lookahead exists, and the snapshot had none or its first id differs. `PushBackAsWrittenLosesPair` shows what it misses. |
| Voting.PushBackAsWrittenLosesPair | src/routes/index.tsx:290-292 | The push-back test as written drops lookahead (3, 7) when the snapshot restores (3, 5). |
| Voting.ShouldPushBack | src/routes/index.tsx:290 | No contract of its own. It is the corrected test, comparing both ids; `PushBackKeepsEveryPair` states what it guarantees. |
| Voting.PushBackKeepsEveryPair | src/routes/index.tsx:290-292 | With the corrected test, the overwritten lookahead is either the pair the snapshot restores or it is pushed back, never both. |
| Voting.Unrestored | src/routes/index.tsx:287-296 | The corrected undo's push-backs: at most two pair ids, none of them restored by the snapshot, each from one of the two slots. Every slot's pair that the snapshot does not restore is among them. The lookahead comes first. This restores the dealt order only on an assumption taken from the queue's intended design, that `pushToQueue` puts pairs at the front; the queue's code is not part of this model. |
| Voting.UndoAsWrittenLosesCurrentPair | src/routes/index.tsx:245-246 | After a vote on (1, 2) without lookahead, the advance deals (3, 4) and (5, 6). The undo as written pushes back only (5, 6), so (3, 4) is neither restored nor pushed back. The corrected push-backs are (5, 6) then (3, 4). |
| Voting.VoteScreen.Hydrate | src/routes/index.tsx:149-156 | The screen loads the stored characters merged into the roster and starts idle, with no result, snapshot or timers. |
| Voting.VoteScreen.Vote | src/routes/index.tsx:158-222 | A vote is ignored unless the screen is idle with a current pair. Otherwise it saves the snapshot and the pair's ranks and records the match. It then shows the result and schedules both timers with the updated list. |
| Voting.VoteScreen.ApplyRatings | src/routes/index.tsx:225-236 | The first timer makes the updated list current and saves it, and shows the voted pair with its new entries. |
| Voting.VoteScreen.Advance | src/routes/index.tsx:239-268 | The second timer returns to idle with no result and no ranks, and advances the slots as `NextSlots` says. |
| Voting.VoteScreen.Undo | src/routes/index.tsx:271-297 | Undo is ignored unless the screen is idle with a snapshot. Otherwise it restores and saves the list and drops the last match. It pushes back the current lookahead when the snapshot had none or the first ids differ, as the source tests it. It then restores both slots and forgets the snapshot. |
| Voting.VoteScreen.UndoKeepingPairs | src/routes/index.tsx:271-297 | The corrected undo: as `Undo`, except that it pushes back every pair on screen the snapshot does not restore. |
| Voting.UndoAfterVote | src/routes/index.tsx:158-297 | A vote, both timers and an undo leave the list, both slots and a parsed history as they were. With a lookahead, the pair popped in its place is pushed back only when its first id differs from the lookahead's. Without one, only the second of the two popped pairs can be pushed back, and the first is lost. |
| Voting.UndoAfterVoteKeepingPairs | src/routes/index.tsx:158-297 | The same sequence with the corrected undo restores the same state. Every pair the advance dealt into either slot is restored by the snapshot or pushed back, and at most two are pushed. |
| Leaderboard.DefaultTierConfig | src/routes/leaderboard.tsx:74-81 | There are six default tiers, each of positive numeric size. |
| Leaderboard.DefaultPlacesRoster | src/routes/leaderboard.tsx:74-81 | The default sizes add up to 33, so with at most 28 characters the warning never shows. |
| Leaderboard.EffectiveCount | src/routes/leaderboard.tsx:344 | A numeric size is used as is. A text size is its `parseInt` value, or 0 when that is NaN. |
| Leaderboard.TierOf | src/routes/leaderboard.tsx:341-354 | Tier k keeps entry k's label, count and color. Its start rank is one more than the sizes of the tiers before it. |
| Leaderboard.TiersWithCharacters | src/routes/leaderboard.tsx:341-354 | The loop with its running start index yields one tier per configuration entry, and tier k is exactly `TierOf(config, data, k)`. |
| Leaderboard.Total | src/routes/leaderboard.tsx:406 | No contract of its own. It is the sum of the effective sizes, added from the first tier; `TotalStep` and `TotalMonotone` state its properties. |
| Leaderboard.TotalStep | src/routes/leaderboard.tsx:406 | One more tier adds its effective size to the total. |
| Leaderboard.TotalMonotone | src/routes/leaderboard.tsx:406 | With no negative sizes, the total of a prefix is non-negative and grows with the prefix. |
| Leaderboard.PartitionPrefix | src/routes/leaderboard.tsx:341-354 | With no negative sizes, the first n tiers together are the first `Total(config[..n])` characters, clipped to the length. |
| Leaderboard.Partition | src/routes/leaderboard.tsx:341-354 | With no negative sizes, the tiers in order are a prefix of the data, and all of the data when the sizes cover it. |
| Leaderboard.ShownRank | src/routes/leaderboard.tsx:163 | The rank shown beside a character, `startRank + index`, is its 1-based position in the data. It falls inside its tier's range. |
| Leaderboard.TierOrder | src/routes/leaderboard.tsx:341-354 | In rating-ordered data, every character of an earlier tier is rated at least as high as every character of a later tier. |
| Leaderboard.ShowWarning | src/routes/leaderboard.tsx:407 | No contract of its own. It is the test total < number of characters, whose meaning `WarningMeansUnplaced` states. |
| Leaderboard.WarningMeansUnplaced | src/routes/leaderboard.tsx:406-407 | With no negative sizes, the warning shows exactly when some character is in no tier. |
| Leaderboard.LeaderboardData | src/routes/leaderboard.tsx:203-205 | The tier list's data is the 28 stored characters, rearranged into descending rating order. |
| Leaderboard.CountInput | src/routes/leaderboard.tsx:231-235 | Empty input stays the empty text, and any other input becomes a number in 1..28. A parsed value in range is kept, one above 28 becomes 28, and NaN, 0 or a negative value becomes 1. |
| Leaderboard.CountInputRoundTrip | src/routes/leaderboard.tsx:231-235 | Typing n in 1..28 stores n, and an edited size always counts as 0..28. |
| Leaderboard.NewTier | src/routes/leaderboard.tsx:256-257 | An added tier after n tiers is labelled with the decimal numeral of n+1: digits only, no leading zero, denoting n+1 (so it also parses to n+1). It has size 3 and color #7FFF7F. |
| Leaderboard.RemoveAt | src/routes/leaderboard.tsx:262-264 | Filtering by index removes exactly the entry at a valid index and keeps the order of the rest. An invalid index changes nothing. |
| Leaderboard.StoredTierConfig | src/routes/leaderboard.tsx:84-95 | The result is the parsed configuration. Outside a browser, without an entry (or with an empty one), or when parsing fails, it is the default tiers. |
| Leaderboard.TierSettings.Load | src/routes/leaderboard.tsx:203-206 | The panel starts with the stored configuration and nothing written. |
| Leaderboard.TierSettings.SetCount | src/routes/leaderboard.tsx:231-240 | Only the count of the tier at the index changes, and the new configuration is written. |
| Leaderboard.TierSettings.SetLabel | src/routes/leaderboard.tsx:242-247 | Only the label of the tier at the index changes, and the new configuration is written. |
| Leaderboard.TierSettings.SetColor | src/routes/leaderboard.tsx:249-254 | Only the color of the tier at the index changes, and the new configuration is written. |
| Leaderboard.TierSettings.AddTier | src/routes/leaderboard.tsx:256-260 | The new tier is appended, its label parses to the new number of tiers, and the configuration is written. |
| Leaderboard.TierSettings.RemoveTier | src/routes/leaderboard.tsx:262-267 | Nothing happens with at most one tier. Otherwise the indexed tier is removed (at least one remains) and the configuration is written. |
| Leaderboard.TierSettings.ResetConfig | src/routes/leaderboard.tsx:269-272 | The panel goes back to the default tiers and writes them. |
| HexColor.DigitRuns | src/routes/leaderboard.tsx:37 | Every match of `/\d+/g` is a non-empty run of decimal digits. |
| HexColor.PaddedHexByte | src/routes/leaderboard.tsx:39 | A number below 256, in hexadecimal padded to two digits, is two hex digits that read back as the number. |
| HexColor.Component | src/routes/leaderboard.tsx:39 | No contract of its own. It is one component's conversion, `NaN` when the run does not parse; `ComponentOfRun` states what it gives for a digit run. |
| HexColor.ComponentOfRun | src/routes/leaderboard.tsx:39 | A non-empty run of decimal digits becomes its value in hexadecimal, padded to two digits. |
| HexColor.EnsureHex | src/routes/leaderboard.tsx:35-43 | The input is returned unchanged unless it starts with `rgb` and has three digit runs. In that case the result is `#` and the first three runs converted. |
| HexColor.SkipNonDigits | src/routes/leaderboard.tsx:37 | Non-digits in front add no run. |
| HexColor.RunThenRest | src/routes/leaderboard.tsx:37 | A leading digit run followed by a non-digit is the first match. |
| HexColor.LeadingRun | src/routes/leaderboard.tsx:37 | After a stretch of non-digits, a digit run ended by a non-digit is the first match, followed by the matches of the rest. |
| HexColor.RgbRuns | src/routes/leaderboard.tsx:37 | The runs of `rgb(R, G, B)` are R, G and B. |
| HexColor.RgbToHex | src/routes/leaderboard.tsx:35-43 | For components below 256, `rgb(r, g, b)` becomes `#` followed by r, g and b, each in hexadecimal padded to two digits. By `PaddedHexByte` each pair reads back as its component. |
| CharacterDetails.HeadToHead | src/components/character-details-modal.tsx:29-38 | An opponent is in the won set exactly when some match has the character beating it. It is in the lost set exactly when some match has the character losing to it and it is not the character itself. The character is never in its own lost set. |
| CharacterDetails.WithIdIn | src/components/character-details-modal.tsx:40-41 | The result is a subsequence of the given character list (`allCharacters`, which on the leaderboard is the rating-sorted data) holding exactly its entries whose id is in the set, each as many times as the list has it. |
| CharacterDetails.SubsequenceDistinct | src/components/character-details-modal.tsx:40-41 | A subsequence of a list with distinct ids has distinct ids, so each opponent is listed once. |
| CharacterDetails.HeadToHeadLists | src/components/character-details-modal.tsx:29-41 | Over a roster with distinct ids, both lists have distinct ids. The character is not among those it lost to. |
| CharacterDetails.DetailsModal.constructor | src/components/character-details-modal.tsx:19-20 | The dialog starts with both lists empty. |
| CharacterDetails.DetailsModal.Refresh | src/components/character-details-modal.tsx:22-50 | Nothing changes unless the dialog is open on a character. An absent history empties both lists, and an unparseable one leaves them. Otherwise the lists are the entries of `allCharacters` beaten and lost to, in the order of `allCharacters`, each as many times as that list has it. |

## Left out

- The Glicko-2 rating engine (`src/lib/glicko.ts`) is floating-point work built on `exp`, `log` and `sqrt` with an iterative solver. It is a parameter. Ratings, rd and vol are `real` values that are only compared and copied.
- The pair queue behind `popNextPair`, `pushToQueue`, `queueProgress`, `isFinished` and `resetQueue` is not part of this model. `pop` is an arbitrary function of the updated list and the call number. `pushToQueue` is recorded, not executed.
- The leaderboard's `handleReset` is not modelled. It clears store entries and calls the unmodelled `resetQueue`. The reload it then performs is `GetStoredCharacters` with no stored entry, which gives the roster.
- The match context (`src/lib/match-context.tsx`) is not modelled. The pair slots it restores are parameters of `Hydrate`.
- The module-level `hasHydratedGlobal` flag is not modelled. `Hydrate` and `TierSettings.Load` stand for the one load it allows.
- Timers, animation delays, confetti, the number ticker, image prefetching, sharing and all rendering are not modelled. The first timer is taken to fire before the second; its delay is at most 200 ms and never above the transition delay. Calling `ApplyRatings` and then `Advance` models that order.
- The speed settings are a lookup table of delays with nothing to verify.
- JSON is modelled as follows:
  - Parsing is a parameter.
  - A parsed history that is not an array behaves like one that fails to parse (`Corrupt`), since the `push`/`pop`/`forEach` on it throws.
  - A parsed history that is an array holding values other than matches is not modelled. The source would append to it, pop from it and read it without error.
  - A parsed tier configuration that is not an array (a stored `null`, `5` or `{}`) is not modelled. The source returns it as the configuration, and the page then fails when it maps over the tiers.
  - Stored properties whose values have the wrong type are not modelled.
  - Extra properties in stored characters are not modelled.
- Voting.VoteScreen.ApplyRatings: the non-null assertions on `find` in the first timer are modelled by `Resolve`. That falls back to the old entry where the source would yield `undefined`; it cannot happen when the pair's ids are on the list.
- Leaderboard.TierSettings.SetCount, SetLabel and SetColor require an index inside the configuration. The panel only calls them with the index of a row it shows; a larger index would make the source grow a sparse array.
- Leaderboard.EffectiveCount: a size read from stored JSON may be a fractional or non-finite number in the source. Here it is an integer.
- HexColor.EnsureHex: `parseInt` of digit runs beyond 2^53 loses precision in the source. Here values are exact.
- Ranking.SortByRating: the comparator `b.rating - a.rating` is assumed consistent (ratings are never NaN), and the sort stable, as ECMAScript 2019 requires. Stability is built into `Insert`. It is not stated as a separate property.

## Findings

| source | as written | input that shows it | evidently intended | confidence | as-written member | corrected member |
|---|---|---|---|---|---|---|
| src/routes/index.tsx:290 | Undo pushes the current lookahead back to the queue only when the snapshot had no lookahead or the two lookaheads' FIRST ids differ, and then overwrites the lookahead with the snapshot's | After a vote promotes lookahead (3, 5) and pops (3, 7) as the new lookahead, undo restores (3, 5) and drops (3, 7) without pushing it back | Push the lookahead back unless the snapshot restores that same pair, compared by both ids | not executed | Voting.PushBackAsWrittenLosesPair | Voting.PushBackKeepsEveryPair |
| src/routes/index.tsx:245-246 | Without a lookahead, the advance pops two pairs, one into each slot, but undo only considers the lookahead slot and then overwrites the current slot with the voted pair | Vote on (1, 2) with no lookahead; the advance deals (3, 4) and (5, 6); undo pushes back (5, 6) and restores (1, 2), so (3, 4) is lost | Push back every pair on screen that the snapshot does not restore | not executed | Voting.UndoAsWrittenLosesCurrentPair | Voting.UndoAfterVoteKeepingPairs |
