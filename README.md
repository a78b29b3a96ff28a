# Tabmaker: tab rendering, break selection, custom-form ordering and game results

A Dafny model of three small pieces of a debate-tournament tabulation
site (British Parliamentary format):

- **Tab rendering and break selection** (`apps/tournament/views.py`).
  The team tab is a header row plus one ranked row per team. Tied teams
  share a rank (competition ranking). Closed rounds are masked unless
  everything is shown. The playoff column gets a label: not in break,
  winner, finalists or "1/2^k". The speaker tab lists every speaker.
  When shown, speakers are sorted. When hidden, they are shuffled and
  every score is zero. Around these sit the `check_tournament` chain,
  the `_confirm_page` guard and the `generate_break` view. The break
  view starts the playoff only when the number of ticked teams equals
  the configured break size.
- **The ordered question list of a custom form**
  (`apps/custom_form/views.py`). A class `CustomForm` holds the
  questions and the next primary key. Its methods add a question at the
  next position, edit one, remove one (closing the gap), and swap two
  neighbours. Questions bound to a required alias are protected.
- **Game results** (`apps/tournament/models/game.py`). A game seats four
  teams in the roles OG, OO, CG and CO. A result is a sum type: a
  qualification result or a playoff result. One accessor per role
  returns the record {team, place, speaker_1, speaker_2, revert}.

Module layout:

- `ranking.dfy`: the ordering of tab entries, the stable descending sort
  and the rank column.
- `tab.dfy`: the team and speaker tabs.
- `guards.dfy`: `check_tournament` and `_confirm_page`.
- `break.dfy`: `generate_break`.
- `custom_form.dfy`: the question list.
- `game.dfy`: games and results.
- `wrappers.dfy`: `Option`.

What the tab code is given, and how the model treats it:

- **Ordering.** Team and speaker results are compared by a module that
  is not part of this model (`apps/tournament/logic.py`). The model
  compares a key lexicographically, larger being better. For teams the
  key is (total points, total speaker points). For speakers it is the
  total of their points. Two entries are "equal" exactly when their keys
  are equal. Every rank property is stated relative to this order.
- **Sorting.** Python's `sorted(..., reverse=True)` is stable. It is
  modelled by an insertion sort (`Ranking.SortDesc`) that keeps equal
  entries in input order.
- **Shuffling.** Python's `random.shuffle` is a Fisher-Yates shuffle of
  the list in place. It is modelled that way over an array. The random
  source is the parameter `draws`.
- **Speaker totals.** A speaker's total (`sum_points()`,
  apps/tournament/views.py:224) is defined in `logic.py`. The model
  assumes it is the sum of the speaker's per-round points.
- **Inputs from `logic.py`.** `get_tab`, `extract_speakers_result` and
  the check functions of `logic.py` become parameters. So do the posted
  form values and the `REQUIRED_ALIASES` constant.
- **Constants.** Label and message strings become enumerations. The
  "1/%s" label is `OneOver(d)`. Round cells are numbers, not their
  `str()` text.

Two points about `apps/tournament/views.py` that a reader might not expect:

- The hidden speaker tab is shuffled, and every score in it is set to
  zero (apps/tournament/views.py:211, 224-226).
- The break view checks only that the number of ticked teams equals
  `count_teams_in_break` (apps/tournament/views.py:690). It does not
  check that the break size is a power of two. Any such check would
  belong to `generate_playoff`, which is not part of this model.

## Model

| member | source | states |
|---|---|---|
| `Ranking.BetterIsStrictTotal` | apps/tournament/views.py:190 | the assumed ordering: "strictly better" is irreflexive and transitive, and any two keys are comparable or equal |
| `Ranking.SortDesc` | apps/tournament/views.py:190 | the result is sorted descending (no entry is strictly better than an earlier one) and is a permutation of the input |
| `Ranking.SortDescFixpoint` | apps/tournament/views.py:665-666 | sorting an already sorted table returns it unchanged. Under the modelled key, which does not read `show_all`, `generate_break`'s second sort therefore keeps row i on the team of checkbox i |
| `Ranking.RankAt` | apps/tournament/views.py:193 | the rank of row i lies between 1 and i+1 |
| `Ranking.RankMonotone` | apps/tournament/views.py:193 | ranks never decrease down the table |
| `Ranking.RankCountsBetter` | apps/tournament/views.py:193 | in a sorted table, the rank of row i is 1 plus the number of entries strictly better than it: every row above position rank-1 is better, no row from there on is |
| `Ranking.SameRankIffTied` | apps/tournament/views.py:193 | in a sorted table two rows have the same rank if and only if their entries are tied |
| `TabRender.PlayoffPosition` | apps/tournament/views.py:167-177 | not in break iff no playoff rounds or position 0; winner iff position > count > 0; finalists iff position = count > 0; otherwise "1/2^(count-position)" |
| `TabRender.FractionsOrderPositions` | apps/tournament/views.py:177 | for 0 < p < q < count, the "1/d" denominators are at least 2 and strictly decrease as the position grows |
| `TabRender.PlayoffLabelInjective` | apps/tournament/views.py:167-177 | two bracket positions in 1..count with the same label are equal |
| `TabRender.Max0` | apps/tournament/views.py:180 | the result bounds every element and is one of them, or 0 (also for the empty table) |
| `TabRender.BuildHeader` | apps/tournament/views.py:181-185 | the header is the fixed labels followed by "round 1" … "round count" |
| `TabRender.RoundCells` | apps/tournament/views.py:195-197 | one cell per round: the round's points when it is not closed or everything is shown, 0 otherwise |
| `TabRender.BuildTeamTable` | apps/tournament/views.py:180-200 | the header has the 5 fixed labels and one label per round up to the longest round list; there is one row per team of the sorted table, carrying its rank, name, totals, playoff label and masked round cells |
| `TabRender.ConvertTabToTable` | apps/tournament/views.py:166-200 | sets `show_all` on every entry in place and nothing else, then yields the header and rows of `BuildTeamTable` for the updated table |
| `TabRender.TeamRanksAreCompetitionRanks` | apps/tournament/views.py:190-194 | two team rows share a rank iff the teams are tied; the teams ahead of a row's rank are exactly the strictly better ones |
| `TabRender.TeamTableListsEveryEntry` | apps/tournament/views.py:187-198 | every entry of the input is described by some row |
| `TabRender.CollectSpeakers` | apps/tournament/views.py:204-206 | the speakers of all standings, concatenated in table order |
| `TabRender.Shuffle` | apps/tournament/views.py:211 | the array afterwards is a permutation of the array before |
| `TabRender.SpeakerCells` | apps/tournament/views.py:225-226 | one cell per round: the points when shown, 0 when hidden |
| `TabRender.BuildSpeakerLines` | apps/tournament/views.py:221-227 | one row per speaker in the given order, with its rank, name, team, total (0 when hidden) and per-round points (0 when hidden) |
| `TabRender.ConvertTabToSpeakerTable` | apps/tournament/views.py:203-229 | the rows list a permutation of all extracted speakers, sorted descending when shown; when hidden every total and every round point is 0; the header has one label per round up to the longest point list |
| `TabRender.ShownSpeakerRanks` | apps/tournament/views.py:208-223 | in a shown speaker tab, two rows share a rank iff their totals are equal, and totals never increase down the table |
| `TournamentGuards.FirstError` | apps/tournament/views.py:100-116 | the result is "" iff all messages are empty, otherwise the first non-empty message |
| `TournamentGuards.CheckTournament` | apps/tournament/views.py:100-116 | the wrapped view is called iff all three checks pass; otherwise the first failing check's message (last-round results, then teams/adjudicators, then final) is shown |
| `TournamentGuards.EarlierCheckWins` | apps/tournament/views.py:102-108 | a failing earlier check decides the outcome whatever the later checks say |
| `TournamentGuards.ConfirmPage` | apps/tournament/views.py:134-140 | the callback runs iff the request is a valid POST whose message equals the needed text; a valid POST with another text renders with the error flag; anything else renders without it |
| `BreakSelection.Selected` | apps/tournament/views.py:669-673 | no more selected teams than rows |
| `BreakSelection.SelectedAreTicked` | apps/tournament/views.py:669-673 | every selected team is the team of a ticked row, and the team of every ticked row is selected |
| `BreakSelection.PostedTicks` | apps/tournament/views.py:670-673 | after a submission, row i shows whether its checkbox came back ticked |
| `BreakSelection.DefaultTicks` | apps/tournament/views.py:674-682 | before a submission, exactly the rows i < `count_teams_in_break` are ticked |
| `BreakSelection.DefaultSelectionIsTop` | apps/tournament/views.py:669-682 | submitting the pre-ticked page unchanged selects exactly the top `count_teams_in_break` teams (all when fewer) |
| `BreakSelection.CollectTicks` | apps/tournament/views.py:669-686 | on POST the ticked teams in table order and the posted ticks; otherwise no teams and the default ticks |
| `BreakSelection.GenerateBreak` | apps/tournament/views.py:664-707 | the playoff is generated (with exactly the ticked teams) iff the request is a POST and the number of ticked teams equals `count_teams_in_break`; otherwise the page is rendered, with the error flag iff it was a POST, the table's header row (fixed labels, then one label per round) and rows that describe the sorted table |
| `GameModel.GetTeams` | apps/tournament/models/game.py:23-24 | four teams, the i-th being the team seated in the i-th role of OG, OO, CG, CO |
| `GameModel.SpeakersOf` | apps/tournament/models/game.py:49-71 | the two speaker positions of a role are distinct and both belong to that role |
| `GameModel.SpeakersCoverPositions` | apps/tournament/models/game.py:49-71 | every speaker position is one of its role's two positions |
| `GameModel.GetResult` | apps/tournament/models/game.py:73-103 | the record holds the role's team, its place, its reversal flag, and the scores of the role's two speakers (pm/dpm, lo/dlo, mg/gw, mo/ow), or 0 and 0 for a playoff result |
| `GameModel.ResultsFollowTeams` | apps/tournament/models/game.py:73-83 | the four role results, in OG, OO, CG, CO order, name the teams of `get_teams`; each speaker's score is reported in its own role's result in its own slot |
| `GameModel.PlaceKindMatchesVariant` | apps/tournament/models/game.py:86-103 | the place is a number exactly for qualification results and an advanced flag exactly for playoff results |
| `GameModel.NewQualificationResult` | apps/tournament/models/game.py:31-71 | a new qualification result has all four reversal flags false and all eight speaker-exists flags true, and stores the given places and scores |
| `GameModel.NewPlayoffResult` | apps/tournament/models/game.py:31-34 | a new playoff result has all four reversal flags false and stores the given advanced flags |
| `GameModel.DefaultsNotReverted` | apps/tournament/models/game.py:31-38 | with the defaults, no role result reports reversed speakers |
| `CustomForms.IndexOf` | apps/custom_form/views.py:85 | the index of the first question with the id, or nothing when no question has it |
| `CustomForms.MaxPosition` | apps/custom_form/views.py:98 | the largest position of a non-empty list |
| `CustomForms.NextPosition` | apps/custom_form/views.py:98 | the new position is above every existing one; it is 1 for an empty form and one past the largest otherwise |
| `CustomForms.EditResponse` | apps/custom_form/views.py:75-111 | the request succeeds iff the text is non-empty and either the id is 0 or it names a question not bound to a required alias. An empty text is refused first, then a missing id, then a required question, each with the list unchanged. A save changes only that question's text, comment and required flag. An add appends a question with the new key and no alias at `NextPosition`. Required questions are never changed, and no existing question changes id or position |
| `CustomForms.AddKeepsPositionsValid` | apps/custom_form/views.py:98-105 | when positions are 1..n, adding at the next position keeps them 1..n+1 and puts the new question after all others |
| `CustomForms.RemovedAt` | apps/custom_form/views.py:125-126 | the list without the removed entry, with every position greater than the removed one decremented |
| `CustomForms.RemoveResponse` | apps/custom_form/views.py:114-128 | the question is removed iff it exists and is not bound to a required alias. A missing question gets "not found" and a required one "not removable", with the list unchanged. On success the list is `RemovedAt` the question's index |
| `CustomForms.RemoveKeepsRequired` | apps/custom_form/views.py:122-123 | a question bound to a required alias survives any removal with its id and contents |
| `CustomForms.RemoveKeepsPositionsValid` | apps/custom_form/views.py:125-126 | positions 1..n become 1..n-1 and the remaining questions keep their relative order |
| `CustomForms.SwapAt` | apps/custom_form/views.py:131-144 | the swap succeeds iff both questions exist and prev's position + 1 equals field's. On success the list is `Swapped` (field's position minus one, prev's plus one). A missing question gets "not found" and non-neighbours "cannot reorder", with the list unchanged. Ids never change |
| `CustomForms.SwapResponse` | apps/custom_form/views.py:147-164 | the same guard and the same new list, stated on the positions that the two ids are looked up at |
| `CustomForms.SwapExchangesPositions` | apps/custom_form/views.py:138-142 | field's position number drops by one (it moves up the list) and prev's rises by one; no other question changes; the multiset of positions is unchanged; valid positions stay valid |
| `CustomForms.SwapRoundTrip` | apps/custom_form/views.py:147-164 | after a successful move of one question before another, moving the other one back before it succeeds and restores the original list |
| `CustomForms.DispatchResponse` | apps/custom_form/views.py:57-70 | an unknown action is answered with the bad status and changes nothing; every refused request leaves the list unchanged; removal and reordering answer only with their own replies |
| `CustomForms.CustomForm.FindQuestion` | apps/custom_form/views.py:85 | the loop finds what `IndexOf` specifies |
| `CustomForms.CustomForm.EditField` | apps/custom_form/views.py:75-111 | the reply and the new question list are those of `EditResponse`; the next key advances only when a question is added; valid keys and valid positions are preserved |
| `CustomForms.CustomForm.UpdateQuestion` | apps/custom_form/views.py:92-96 | only the text, comment and required flag of that one question change |
| `CustomForms.CustomForm.AddQuestion` | apps/custom_form/views.py:98-105 | appends a question with a fresh key, no alias, at the next position |
| `CustomForms.CustomForm.RemoveField` | apps/custom_form/views.py:114-128 | the reply and the new list are those of `RemoveResponse`; keys and valid positions are preserved |
| `CustomForms.CustomForm.SwapField` | apps/custom_form/views.py:131-144 | the reply and the new list are those of `SwapAt` |
| `CustomForms.CustomForm.UpField` | apps/custom_form/views.py:147-154 | moves the question before `prevId` as `SwapResponse(fieldId, prevId)` specifies |
| `CustomForms.CustomForm.DownField` | apps/custom_form/views.py:157-164 | moves the question after the next one as `SwapResponse(nextId, fieldId)` specifies |
| `CustomForms.CustomFormEditField` | apps/custom_form/views.py:51-72 | a missing form or one of another tournament gets the bad status and nothing changes; otherwise the chosen action's response; the status always matches the reply |

## Left out

- Pairing, standings, playoff generation and removal, the checks
  `check_last_round_results`, `check_teams_and_adjudicators` and
  `check_final`, the comparison of results and `extract_speakers_result`
  all live in `apps/tournament/logic.py`, which is not part of this
  model. Their results are parameters, and the ordering is the assumed
  key described above.
- `access_by_status` and `ajax_request` are left out. They need the
  `AccessToPage` table and the request object, which are not part of
  this model.
- ORM queries, persistence (`save`, `delete`), form validation
  (`CheckboxForm`, the confirmation form) and template rendering are
  left out. A form's validity and posted values are inputs.
- Redirect targets, `_show_message` pages, `json_response` and the
  message texts are left out. They are presentation only.
- The effect of the `_confirm_page` callback (deleting or finishing a
  tournament) is left out. It is the caller's code.
- The effect of `generate_playoff` and of the change to playoff status
  is left out. The outcome `PlayoffGenerated` records only that they
  happen and with which teams.
- `show_all` is set on every entry, but its effect on the standings
  computation in `logic.py` is not modelled.
- Ranking.SortDescFixpoint: the modelled key ignores `show_all`.
  `generate_break` sorts once, sets `show_all`, and the table rendering
  sorts again. If the comparison in `logic.py` did read
  `show_all`, the rows and the checkboxes could come apart. The model
  does not capture that case.
- `check_tournament`: the checks are modelled as values computed up
  front. The source skips later checks after a failure. The checks are
  in `logic.py`, which is not part of this model. The model assumes they
  do not change state, so evaluating them all changes nothing
  observable.
- `int()` of a posted value that is not a number raises an error. That
  crash path is not modelled: posted numbers are naturals.
- Primary keys are global in the database. The model keeps one key
  counter per form.
- The e-mail, Telegram and spreadsheet-import views, the team, place,
  profile and round views, the Room model, settings and URLs are left
  out. They are glue around code that is not part of this model.
- Result-entry rules are left out: no ties within a qualification room,
  and exactly two teams advancing from a playoff room. `game.py` and the
  views do not enforce them.
- TabRender.Shuffle: states only that the result is a permutation. It
  does not state that every permutation is reachable or that the draw
  is uniform.
- Ranking.SortDesc: states that the result is sorted and a permutation.
  Stability holds by construction but is not stated as a separate
  property.
