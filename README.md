# Bac Bo statistics bot — a verified model of its core

The bot watches a live Bac Bo table, reads the three percentages it shows
(player, banker, tie), and tells a Telegram chat to bet when the player
percentage is above 98. This project models the logic that decides what
those numbers are and when a message goes out:

- **Reading the statistics from one browsing context** (`scraper.py`,
  `_extract_stats_from_context`). Four collectors append numbers to three
  candidate lists, which may arrive pre-seeded from the caller:
  - the script-extracted texts and the element texts (only non-blank ones of
    at most 300 characters), using the independent keyword `if`s;
  - the numbers captured by the markup patterns;
  - every `N%` of the markup, filed by the ±200-character window around the
    first occurrence of `N%`, with player before banker before tie, and only
    when not already listed.

  Each list is then voted down to its most frequent value, taking the larger
  value among equally frequent ones. A structural fallback fills the labels
  still missing from `N% KEYWORD` / `KEYWORD N%` in the element texts. Finally
  the plausibility gate (85..110) and the fallbacks build the record.
- **Reading the statistics from a screenshot transcript** (`scraper.py`,
  lines 700-836). First a keyword pass keeps, for each label, the largest
  in-range value. Two heuristics then look for a triple summing to about 100.
  Statistics are emitted only when all three labels are known.
- **The Telegram notifier** (`telegram_bot.py`): the scoreboard counters, the
  assertiveness rate, and the colour an entry alert names.
- **One monitoring cycle** (`bot.py`): the alert gate (threshold and cooldown),
  the status-update debounce, the bookkeeping fields, `stop` and `status`.

Python lists and dictionaries that the source mutates become class fields
(`CandidateLists`, `Notifier`, `Monitor`). Loops become methods proved against
fold-shaped specification functions. What the source promises is proved about
those functions as lemmas. Percentages are parsed from digit strings and are
modelled as exact integers, and the 60% banker estimate and the rate as exact
`real`s. The source computes all of these with Python floats; "## Left out"
says where the two differ.

Where the comments and the code disagree, the model follows the code:

- `scraper.py:624-625` says no result should come from a single percentage.
  The code that follows still emits a record when only the player value is
  known, with an estimated banker and tie (`FinalizeEstimatesFromPlayer`).
- `scraper.py:774-801`: the comment speaks of lines with exactly three
  numbers. The code applies the unlabelled branch to any line with at least
  three percentages, because `nums` always holds the first three of them.
- `scraper.py:825`: the "at least two values" test is implied by the
  all-three test beside it, so success means all three labels are known.
- The structural fallback (`scraper.py:558-591`) does not check the 0..100
  range that every collector applies (`FallbackPlayerIsNotRangeChecked`).

A few lemmas are worked examples on fixed inputs and are not listed below:
`Candidates.VoteTieGoesToLarger`, the `ContextExtraction.FinalizeExample…`
lemmas, `ContextExtraction.FallbackExampleOutOfRange` (a page whose only
element reads `500% JOGADOR` yields player 500, banker -240 and tie 0) and
`Telegram.EntryEmojiIgnoresCase`. They illustrate the contracts of `Vote`,
`Finalize`, `FallbackPlayerIsNotRangeChecked` and `EntryEmoji` and state
nothing beyond them.

## Model

| member | source | states |
|---|---|---|
| Text.Upper | scraper.py:377 | `str.upper()` on ASCII letters; length preserved, letter by letter |
| Text.UpperEqIff | scraper.py:377-380 | the letter-by-letter case-insensitive comparison holds iff upper-casing the text gives the keyword |
| Text.ContainsUpperIff | scraper.py:380 | a keyword occurs in the upper-cased text iff it occurs case-insensitively at some position of the text |
| Text.Find | scraper.py:523 | `str.find`: -1 or a position where the needle occurs entirely inside the text |
| Text.FindIsFirstOccurrence | scraper.py:523 | `find` returns the first occurrence: it occurs there, nowhere before, and -1 only when it occurs nowhere |
| Text.ContainsIff | scraper.py:380 | `kw in text` iff some position holds the keyword |
| Text.LeadingSpaces | scraper.py:416 | the leading whitespace run: all whitespace, followed by a non-space or the end |
| Text.TrailingSpaces | scraper.py:416 | the trailing whitespace run, the mirror of the leading one |
| Text.Strip | scraper.py:416 | `str.strip()`: empty iff the text is all whitespace; otherwise the slice that starts after the leading whitespace, starts and ends with non-space characters, and is followed only by whitespace |
| Text.StripUnpadded | scraper.py:416 | stripping a text without surrounding whitespace changes nothing |
| Text.IndexOf | scraper.py:713 | the first position of the separator, or the length |
| Text.Split | scraper.py:713 | `str.split('\n')`: at least one piece, no piece contains the separator |
| Text.JoinSplit | scraper.py:713 | joining the pieces back with the separator gives the original text |
| Text.DigitRun | scraper.py:334 | the greedy `\d+`: a run of digits, maximal |
| Text.PercentTokens | scraper.py:334 | `re.findall(r'(\d+)%')`: every token is a non-empty digit string |
| Text.PercentValues | scraper.py:381-383 | `float()` of each token: one value per token, the k-th value being the decimal value of the k-th token |
| Text.TokensAgreeFrom | scraper.py:334 | the scanner agrees with the positional description from any start |
| Text.PercentTokensMatchPositions | scraper.py:334 | the tokens are exactly the maximal digit runs followed by `%`, left to right |
| Domain.FirstSomeIndex | scraper.py:566-589 | the index of the first element that offers a value: nothing offered before it |
| Domain.FirstSomeOfNones | scraper.py:566-589 | when no element offers a value, nothing is taken |
| Domain.MentionsIff | scraper.py:380-400 | a text mentions a label iff one of its keywords occurs in the upper-cased text |
| Domain.Window | scraper.py:523-527 | exactly the slice `text[max(0, idx-200):min(len, idx+200)]`, at most 400 characters and non-empty inside the text |
| Domain.WindowHoldsMatch | scraper.py:523-527 | the window around a match of at most 200 characters contains that match, at offset `min(idx, 200)` |
| Domain.WindowLabel | scraper.py:529-540 | the window is filed under player if it mentions player, else banker, else tie, else nowhere (all four iffs) |
| Candidates.Candidates.Extend | scraper.py:385 | appending to one label's list leaves the other two unchanged |
| Candidates.Candidates.Plus | scraper.py:375-452 | each list is extended by the matching contribution |
| Candidates.CandidateLists.constructor | scraper.py:337-342 | the lists start as the caller's candidates (empty when none) |
| Candidates.CandidateLists.Append | scraper.py:385 | `list.append`: l's list gains v at its end and the rest is unchanged |
| Candidates.CandidateLists.AppendIfAbsent | scraper.py:529-539 | `if val not in lst: lst.append(val)` |
| Candidates.Leader | scraper.py:547 | the element of the set that no other is ahead of under the key (count, value) |
| Candidates.Vote | scraper.py:545-553 | None iff no candidates; else a candidate of maximal count, the largest among equally frequent ones |
| Candidates.VoteIgnoresOrder | scraper.py:547 | lists that are permutations of each other elect the same value |
| Candidates.VoteUnanimous | scraper.py:547 | a list of one repeated value elects it |
| Collectors.KeepInRange | scraper.py:383-384 | only values in 0..100 are kept, never more than given |
| Collectors.KeepInRangeCount | scraper.py:382-385 | each in-range value is kept as many times as it was given, every other value never |
| Collectors.KeepInRangeConcat | scraper.py:382-385 | the filter keeps the order: the kept values of `a + b` are those of `a` followed by those of `b` |
| Collectors.KeepInRangeMembers | scraper.py:383-384 | v survives iff it was given and lies in 0..100 |
| Collectors.TextHits | scraper.py:377-407 | a text contributes to a label only if it mentions one of its keywords, and only in-range values |
| Collectors.TextHitsMembers | scraper.py:377-407 | v is in a text's contribution to a label iff the text mentions the label, v is in 0..100 and v is one of its percentages; and it occurs there as often as among the percentages |
| Collectors.TextsHits | scraper.py:375-409 | all script texts contribute only in-range values |
| Collectors.TextsHitsConcat | scraper.py:375-409 | the texts contribute in order: the contribution of `a + b` is that of `a` followed by that of `b` |
| Collectors.TextsHitsMembers | scraper.py:375-409 | v is contributed by the script texts iff some text contributes it |
| Collectors.ElementText | scraper.py:416-418 | an element is used iff its stripped text is non-empty and at most 300 characters |
| Collectors.ElementHits | scraper.py:414-452 | an element contributes only in-range values |
| Collectors.ElementHitsMembers | scraper.py:414-452 | v is in an element's contribution iff the element is used, its stripped text mentions the label, v is in 0..100 and v is one of its percentages |
| Collectors.ElementsHits | scraper.py:414-452 | all elements together contribute only in-range values |
| Collectors.ElementsHitsConcat | scraper.py:414-452 | the elements contribute in order: the contribution of `a + b` is that of `a` followed by that of `b` |
| Collectors.ElementsHitsMembers | scraper.py:414-452 | v is contributed by the elements iff some element contributes it |
| Collectors.AddPatternHits | scraper.py:473-511 | each list gains the in-range numbers the markup patterns captured for its label |
| Collectors.MarkupStep | scraper.py:518-540 | a markup number changes the lists only if it is in range, found, filed under a label by its window, and not yet in that list; then exactly that list gains it |
| Collectors.MarkupStepFiles | scraper.py:518-540 | a number filed under a label (in range, found, its window filed there) ends up in that label's list; a number not filed there leaves the list unchanged |
| Collectors.ScanMarkupAddsOnlyFresh | scraper.py:514-540 | the markup pass only appends, and every value it appends is in range and new to its list |
| Collectors.ScanMarkupMembers | scraper.py:514-540 | after the markup pass v is in a label's list iff it was there before or some markup number with value v is filed under that label |
| Collectors.PageInRange | scraper.py:375-452 | the text and element collectors keep the seed as a prefix and add only in-range values |
| Collectors.MarkupInRange | scraper.py:460-540 | the markup collectors keep what was there as a prefix and add only in-range values |
| Collectors.CollectedInRange | scraper.py:337-540 | after all collectors each list is its seed followed by in-range values |
| Collectors.AppendInRange | scraper.py:382-385 | the `for match in matches` loop appends exactly the in-range values, in order |
| Collectors.CollectText | scraper.py:376-407 | one text's three independent blocks append its contribution |
| Collectors.CollectScriptTexts | scraper.py:375-409 | the loop over script texts appends every text's contribution, in order |
| Collectors.CollectElement | scraper.py:415-452 | one element: skipped when blank or too long, else its text's contribution |
| Collectors.CollectElements | scraper.py:414-452 | the loop over elements appends every element's contribution, in order |
| Collectors.CollectPatternHits | scraper.py:473-511 | the pattern loops append the in-range captured numbers, player's, banker's, then tie's |
| Collectors.CollectMarkupWindows | scraper.py:514-540 | the markup loop leaves the lists as the markup pass specifies |
| Fallback.KeywordLength | scraper.py:567 | positive iff one of the label's keywords matches there case-insensitively, and the match lies inside the text |
| Fallback.SkipSpaces | scraper.py:567 | `\s*` stops inside the text, not before its start |
| Fallback.NumStart | scraper.py:571 | where the digits after a keyword start, inside the text |
| Fallback.NumKwIndex | scraper.py:567 | the leftmost match of `(\d+)%\s*KW`: it matches there and nowhere before |
| Fallback.KwNumIndex | scraper.py:571 | the leftmost match of `KW\s*(\d+)%`: it matches there and nowhere before |
| Fallback.ElementMatch | scraper.py:562-573 | a blank element offers nothing; `N% KW` is preferred to `KW N%` |
| Fallback.Matches | scraper.py:560-589 | one offer per element, in element order |
| Fallback.FillPerLabel | scraper.py:558-591 | a known label keeps its value; a missing one takes the first element's offer, or stays missing when none offers |
| Fallback.SearchElement | scraper.py:562-589 | the six checks on one element fill each missing label from that element |
| Fallback.StructuralFallback | scraper.py:558-591 | the loop, entered only with a label missing, computes the fallback |
| Fallback.NoKeywordStart | scraper.py:567-589 | a text without the first letter of a label's keywords offers nothing for it |
| ContextExtraction.VoteAll | scraper.py:545-553 | each label's value is the vote over its list |
| ContextExtraction.ClampAtZero | scraper.py:615-616 | the clamped remainder is at least 0 and at least the remainder |
| ContextExtraction.Finalize | scraper.py:594-649 | a record iff the player is known, with its player value and `player_winning = p > 50`; banker kept when known, else 60% of the remainder; an observed tie kept in the player-only case |
| ContextExtraction.FinalizeKeepsPlausibleTriple | scraper.py:594-605 | three values summing to 85..110 are emitted unchanged |
| ContextExtraction.FinalizeDerivesTie | scraper.py:609-623 | with player and banker known and the gate failed, the three sum to 100, or the tie is 0 when player and banker exceed 100 |
| ContextExtraction.FinalizeEstimatesFromPlayer | scraper.py:627-646 | player alone: the banker is 60% of 100 minus the player and the tie is the remainder clamped at 0; up to a player of 100 banker and tie split the remainder 60/40 and the three sum to 100, above 100 the tie is 0 |
| ContextExtraction.ExtractFromContext | scraper.py:325-653 | the whole extraction equals collect, vote, fill, then gate |
| ContextExtraction.VotedPlayerIsEmitted | scraper.py:545-653 | any player candidate yields a record whose player is the vote, in 0..100 when the seed is |
| ContextExtraction.FallbackPlayerIsNotRangeChecked | scraper.py:558-591 | with no player candidate the first element's offer becomes the player unchecked; with no banker value anywhere the banker is 60% of 100 minus it, and with no tie value either the tie is the remainder clamped at 0 |
| Transcript.Raise | scraper.py:725-726 | the running maximum: at least the new value and the old one, and one of them |
| Transcript.MaxOf | scraper.py:719-770 | None iff no values; else a value in the list and no smaller than any |
| Transcript.RaiseAllConcat | scraper.py:719-770 | running on through two lists is running through their concatenation |
| Transcript.RaiseAllIsMax | scraper.py:719-770 | a running maximum started empty is the maximum of what it saw |
| Transcript.RaiseInRange | scraper.py:723-727 | the `for pct in percentages_in_line` loop raises the maximum over the in-range values |
| Transcript.Lines | scraper.py:713 | no text gives no lines; otherwise the lines join back to the text and none holds a newline |
| Transcript.WindowHit | scraper.py:748-769 | a percentage yields at most one in-range value, to the label its window is filed under |
| Transcript.WindowHits | scraper.py:748-769 | the window pass yields only in-range values |
| Transcript.KeywordValues | scraper.py:713-769 | every value the keyword pass considers is in range |
| Transcript.KeywordPassIsLargestSeen | scraper.py:713-769 | after the keyword pass a label is known iff some value was seen for it, and its value is the largest such, in 0..100 |
| Transcript.KeywordPassAsRunningMax | scraper.py:713-769 | the keyword pass is three running maxima over the line values then the window values |
| Transcript.ScanLine | scraper.py:715-745 | the three label blocks of one line raise each label's maximum independently |
| Transcript.ScanLines | scraper.py:714-745 | the line loop leaves the running maxima over all line values |
| Transcript.ScanWindow | scraper.py:749-769 | one percentage raises at most the label its window is filed under |
| Transcript.ScanWindows | scraper.py:748-771 | the window loop continues the running maxima over all window values |
| Transcript.RunKeywordPass | scraper.py:713-771 | both loops together compute the keyword pass |
| Transcript.LineTriple | scraper.py:776-801 | a line offers a triple iff it has at least three percentages whose first three sum to 90..110 and it either names all three labels or those three are at most 100; the triple is those three in line order |
| Transcript.LineTriples | scraper.py:775-801 | one candidate triple per line, in line order |
| Transcript.CheckLine | scraper.py:776-801 | the test on one line computes its candidate triple |
| Transcript.FindInlineTriple | scraper.py:775-801 | the loop with its `break` finds the first line offering a triple |
| Transcript.Score | scraper.py:812 | `-abs(mid - min)` is at most 0, and 0 iff the middle value is the smallest |
| Transcript.BestBefore | scraper.py:807-814 | the chosen window is plausible, none scores higher, and every earlier plausible one scores strictly lower |
| Transcript.FindBestWindow | scraper.py:804-814 | the sliding-window loop finds the best window |
| Transcript.TranscriptStats | scraper.py:693-836 | no transcript gives nothing; statistics iff all three labels are known, with `player_winning = p > 50`, marked as read by OCR |
| Transcript.ApplyInlineTriple | scraper.py:774-801 | heuristic 1 runs only with a label missing |
| Transcript.ApplyBestTriple | scraper.py:803-821 | heuristic 2 runs only with a label missing and three percentages in the text |
| Transcript.ParseTranscript | scraper.py:693-836 | the whole transcript reader equals the keyword pass followed by both heuristics and the completeness test |
| Transcript.InlineTripleOverwrites | scraper.py:786-800 | the first qualifying line overwrites all three labels, even known ones, in the order player, tie, banker |
| Transcript.LabelledLineIsNotRangeChecked | scraper.py:786-792 | a line naming all three labels is taken without a range check |
| Transcript.BestTripleFillsOnlyMissing | scraper.py:803-820 | heuristic 2 keeps every known label; with a window at i a missing player takes `nums[i]`, a missing tie `nums[i+1]` and a missing banker `nums[i+2]`; complete readings, fewer than three percentages or no window leave the readings unchanged |
| Transcript.BestWindowIsBest | scraper.py:807-814 | the chosen window sums to 90..110 and no plausible window scores better; none chosen means none is plausible |
| Transcript.InlineTripleIdle | scraper.py:775-801 | without a qualifying line heuristic 1 changes nothing |
| Transcript.BestTripleInRange | scraper.py:804-820 | heuristic 2 supplies only values in 0..100 |
| Transcript.ReadingsInRangeWithoutInlineTriple | scraper.py:713-821 | without heuristic 1 every reading is in 0..100 |
| Transcript.TranscriptStatsInRange | scraper.py:713-836 | without heuristic 1 the emitted statistics lie in 0..100 |
| Telegram.EntryEmoji | telegram_bot.py:119-122 | red circle iff the colour is 'red' in any case, blue circle otherwise |
| Telegram.WinEmoji | telegram_bot.py:189-192 | green circle iff the colour is 'green' in any case, red circle otherwise |
| Telegram.EntryEmojiFollowsPlayer | telegram_bot.py:153-161 | an entry alert shows red iff the player is above 50, blue otherwise |
| Telegram.Rate | telegram_bot.py:84-89 | the rate lies in 0..100, is 100 iff there are no losses, and is 0 iff there are losses and no wins |
| Telegram.WinNeverLowersRate | telegram_bot.py:84-89 | one more win never lowers the rate |
| Telegram.LossNeverRaisesRate | telegram_bot.py:84-89 | one more loss never raises the rate |
| Telegram.Notifier.constructor | telegram_bot.py:65-82 | a client exists iff the token is non-empty; the counters start at zero and satisfy the invariant |
| Telegram.Notifier.AssertivenessRate | telegram_bot.py:84-89 | the notifier's rate lies in 0..100 |
| Telegram.Notifier.SendWinNotification | telegram_bot.py:172-217 | with no client nothing changes and the answer is False; 'win' adds a win and extends the streak, anything else adds a loss and resets it; ties never change; the counters keep the invariant; True iff both sends succeed |
| Telegram.Notifier.SendEntryAlert | telegram_bot.py:141-170 | False with no client; else red iff the player is above 50, and True iff the send succeeds |
| Telegram.Notifier.SendStatusUpdate | telegram_bot.py:269-318 | False with no client, else whether the send succeeded |
| Monitoring.DetectResult | bot.py:65-76 | never reports a result |
| Monitoring.Monitor.constructor | bot.py:31-49 | the notifier gets the given token, or the configured one when none is given, and has a client iff one of them is non-empty; no statistics yet, last alert at time 0, cooldown 30, nothing sent, not stopped |
| Monitoring.Monitor.RunOnce | bot.py:78-133 | no statistics: False, one status update without statistics, and no field changes; otherwise True and the new statistics are remembered, a status update goes out iff it is the first or the player moved by more than 3, an entry alert is attempted iff the gate opens, and the alert time moves to the send time only when the alert was delivered |
| Monitoring.Monitor.Stop | bot.py:264-266 | sets the stop flag and nothing else |
| Monitoring.Monitor.CurrentStatus | bot.py:268-275 | running iff not stopped, the last statistics, threshold 98, interval 5 |
| Monitoring.CooldownSilencesAlerts | bot.py:57-63 | within 30 seconds of the last alert no alert fires, whatever the statistics |
| Monitoring.AlertsAreRed | bot.py:109-119 | every alert the gate lets through tells the reader to bet red (player) |

## Left out

- Browser, driver, page loading, screenshots and the OCR engine are I/O. The
  model takes the page's texts, the element texts, the markup and the
  transcript as inputs.
- The script run in the page (`scraper.py:360-371`) is foreign code. Its
  result, the list of trimmed texts, is an input.
- The six markup regular expressions per label (`scraper.py:464-511`) use
  lazy quantifiers and are not modelled as patterns. The numbers they capture
  are an input (`found`), and the model applies the same range filter.
- `get_betting_statistics` (`scraper.py:855-1141`) decides whether to use the
  OCR, the main page, the iframes or a refresh, which is browser orchestration.
  In that code `player_candidates` is used at lines 1021 and 1043 without
  being defined there. The seeded-candidate iframe path therefore always
  raises and is caught, so the model treats the seed as an ordinary value.
- Exceptions: the `try/except` blocks around the collectors and the whole
  extraction only turn faults of the browser or the network into "no
  result". The modelled code on strings raises none of them.
- Upper-casing, lower-casing and whitespace follow ASCII letters and the
  Python whitespace set. Non-ASCII case mappings are not modelled.
- Telegram sending, the shared event loop and its threads, and the time-out
  are network and concurrency. Each send is a boolean outcome supplied by
  the caller.
- The message texts and the scoreboard text (`telegram_bot.py:91-139`) are
  formatting; only the emoji choices are modelled.
- The run loop, periodic status updates, sleeps and the shutdown thread
  (`bot.py:144-262`) are scheduling. The clock is an input to `RunOnce`.
- `Monitoring.Monitor.RunOnce`: a statistics dictionary is either missing or
  a complete record, so the source's test for an empty dictionary is modelled
  as the missing case, and the `get('player_percent', 0)` default never applies.
- `Candidates.CandidateLists.constructor`: the caller's lists are copied. The
  source appends to the caller's own lists, which the caller could observe,
  but no live caller passes lists (see `get_betting_statistics` above).
- The time stamps of the records are an input (`now`); `time.time()` is not
  modelled.
- The configured bot token (`TELEGRAM_BOT_TOKEN`, read from the environment
  with a default in `config.py`) is a parameter of the monitor's constructor.
- Digits are the ASCII digits `0`-`9`. Python's `\d` and `float()` also
  accept other Unicode decimal digits, which the model treats as ordinary
  characters.
- `ContextExtraction.Finalize` and `ContextExtraction.FinalizeEstimatesFromPlayer`
  compute exactly, while the source uses doubles. The source's 60% and 40%
  estimates round: for a lone player of 97 it gives banker
  1.7999999999999998 and tie 1.2000000000000002, where the model states 1.8
  and 1.2. Every gate and threshold compares small integers, which doubles
  hold exactly, so no decision differs.
- `Telegram.Rate` computes `wins / total * 100` exactly. In doubles, one loss
  and at least 2^54 - 1 wins round the rate to 100.0, so `rate == 100 iff no
  losses` holds only for counts below that.
- `ContextExtraction.FallbackPlayerIsNotRangeChecked` keeps the exact value
  of any digit run. `float()` rounds runs above 2^53 and turns runs of about
  309 or more digits into `inf`, which makes the banker estimate `-inf` and
  the tie `nan`. `Transcript.LabelledLineIsNotRangeChecked` is not affected:
  its line needs a sum between 90 and 110, so each value is at most 110 and
  `float()` holds it exactly.
- Logging (the `logger` calls and `print`s) has no effect on the modelled
  state and is not modelled.
