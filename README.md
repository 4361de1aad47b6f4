# Puppy roster page: a verified model of its decision layer

The page `index.js` shows a roster of puppies ("players") fetched from a
roster service, a detail panel for the player the user clicked, a team
selector, and a form that adds a player. Around three module-level
variables — `players`, `selectedPlayer` and `teams` — it decides what the
service's replies mean, how the state changes after each user action, and
what the roster, the detail panel and the team selector show.

This project models that layer in Dafny:

- `wrappers.dfy` (`Wrappers`): `Option`, for JavaScript's `null`/`undefined`.
- `decimal.dfy` (`Decimal`): the decimal text of an integral number (`"Team #" + id`,
  `opt.value = t.id`) and a reader that inverts it.
- `roster.dfy` (`Roster`): players and teams; JavaScript truthiness of the optional
  fields (`Truthy` for strings: present and non-empty; `Assigned` for the team id:
  present and non-zero); `FindTeam`, the first team with a given id.
- `envelope.dfy` (`Envelope`): the service's replies (`Threw`, no `data`, or `data`
  with or without the expected key) and what `fetchAllPlayers`, `fetchSinglePlayer`
  and `getTeams` make of them.
- `details.dfy` (`Details`): the detail panel — the field fallbacks, the team-name
  precedence and the "no selection" prompt.
- `form.dfy` (`Form`): the submit handler's validation and payload.
- `views.dfy` (`Views`): roster cards, the roster region, and the team selector's options.
- `store.dfy` (`Store`): class `PuppyStore`, with the page state as fields and one
  method per handler that reassigns it; the loops of `PlayerList` and
  `renderTeamOptions` are `while`/`for` loops with invariants.

Each network call is an input: a `Reply` for the calls whose body is read, a
`Transport` (`Completed` or `Failed`) for the POST and the DELETE, whose bodies
are not read. A `fetch` that resolves with any HTTP status counts as completed,
as in the code; only a thrown error is a failure.

Behaviour of the page worth noting:

- The form rejects only a falsy name or breed; whitespace is not trimmed.
- A failed or empty single-player fetch sets the selection to `null` (index.js:35-43, 115),
  replacing any previous selection.
- After a completed delete the selection is cleared whatever id was removed (index.js:64).
- A thrown error while fetching teams keeps the previous team list (index.js:82-84).
- Nothing discards a card-click reply that arrives after a remove, and the remove button
  stays enabled while its request runs.

## Model

| member | source | states |
|---|---|---|
| `Decimal.NatToString` | index.js:176 | the digits of a number are a non-empty run of decimal digits with no leading zero |
| `Decimal.IntToString` | index.js:176 | the text of an integer is non-empty and starts with a minus sign exactly when the integer is negative; with `ParseIntToString` it is the `"Team #" + id` and `opt.value = t.id` conversion |
| `Decimal.ParseNatToString` | index.js:176 | reading the digits of `n` back gives `n` |
| `Decimal.ParseIntToString` | index.js:176 | the text of any integer, sign included, reads back as that integer |
| `Decimal.IntToStringInjective` | index.js:205 | two integers with the same text are equal |
| `Roster.FindTeam` | index.js:170-172 | `teams.find` by id: nothing exactly when no team has the id; otherwise the team at the first index with that id |
| `Envelope.Field` | index.js:19 | the `data.<key>` guard yields a value exactly when the reply has `data` carrying the key, and then it is that value |
| `Envelope.PlayersFrom` | index.js:14-28 | the roster fetch yields the delivered list; a thrown error, a missing `data` or a missing `players` yields `[]`; a non-empty result always came from a delivered list |
| `Envelope.PlayerFrom` | index.js:30-44 | the single-player fetch yields the delivered `data.player` when the reply carries it, and a player only then; error, missing `data` or missing `player` yield `null` |
| `Envelope.TeamsAfter` | index.js:72-85 | the team fetch yields the delivered list, `[]` when the envelope lacks it, and the previous list when it throws |
| `Details.OrElse` | index.js:146-164 | a field shows its value when truthy (`Roster.Truthy`: present and non-empty), the fallback otherwise; a non-empty fallback never shows an empty string |
| `Details.TeamName` | index.js:166-178 | total and non-empty; embedded team name first; else for a truthy `teamId` (`Roster.Assigned`: present and non-zero) the first same-id team's truthy name, else `"Team #<id>"`, including when no team has the id; else `"Unassigned"` |
| `Details.PlayerProfile` | index.js:144-188 | the profile carries the player's id, image and name defaulting to `""`, breed and status defaulting to `"Unknown"` (never empty), and the resolved team name |
| `Details.Detail` | index.js:137-196 | the panel is the prompt "Select a puppy to see details." exactly when nothing is selected, whatever the team lookup holds; otherwise exactly `PlayerProfile` of the selected player |
| `Details.FallbackShowsUnknown` | index.js:156-164 | breed (status) shows "Unknown" iff the field is missing, empty, or literally "Unknown" |
| `Details.EmptyFieldsActAsMissing` | index.js:146-164 | an empty string field and a missing one give the same profile |
| `Details.SynthesisedNameCarriesId` | index.js:176 | the label `SynthesisedName(id)`, `"Team #" + id`, starts with the prefix and the rest reads back as the id |
| `Details.ZeroTeamIdIsUnassigned` | index.js:166-169 | a `teamId` of 0 without an embedded name gives "Unassigned", even if a team has id 0 |
| `Form.BuildPayload` | index.js:228-251 | no payload exactly when name or breed is falsy; otherwise name and breed as entered (non-empty), and `teamId = Number(value)` present exactly when the team field is truthy |
| `Form.TeamFieldOnlyAffectsTeamId` | index.js:237-251 | the team field changes neither whether a payload is sent nor its name and breed |
| `Views.PlayerListItem` | index.js:87-110 | a card shows the player's id, image and name (`""` when missing), and is marked iff a selection exists with the same id |
| `Views.Cards` | index.js:127 | one card per player, in roster order |
| `Views.RosterOf` | index.js:212-217 | the roster region is "No puppies found." exactly when the roster is empty; otherwise the cards |
| `Views.NoSelectionMarksNothing` | index.js:90-92 | with no selection no card is marked |
| `Views.AtMostOneMarked` | index.js:90-92 | when the roster's ids are distinct, at most one card is marked |
| `Views.TeamOption` | index.js:203-208 | a team's option has as value the text of `t.id` and as text `t.name` (empty when missing) |
| `Views.TeamOptionValueReadsBack` | index.js:205 | a team's option value reads back as the team's id, so `Number(teamIdValue)` on submit recovers it |
| `Views.Kept` | index.js:199-201 | the removal loop keeps exactly the first option, or nothing if there was none |
| `Views.OptionsOf` | index.js:203-208 | one option per team, in team order |
| `Views.TeamOptions` | index.js:198-209 | afterwards the first option is the original first option, followed by one option per team in order; with no first option, just the team options |
| `Views.TeamOptionsIdempotent` | index.js:198-209 | with a first option present, rebuilding the options twice equals rebuilding once |
| `Views.OptionValuesIdentifyTeams` | index.js:205 | two options with the same value belong to teams with the same id, by `Decimal.IntToStringInjective` |
| `Store.PuppyStore.constructor` | index.js:4-6 | the page starts with an empty roster, no selection, no teams, and the selector as the markup has it |
| `Store.PuppyStore.GetTeams` | index.js:72-85 | `teams` becomes the reply's list or `[]`, and is unchanged when the fetch throws |
| `Store.PuppyStore.SelectCard` | index.js:113-118 | a card click sets the selection to the delivered player, or to `null` on any failure |
| `Store.PuppyStore.AddNewPlayer` | index.js:46-59 | after a completed POST the roster is replaced wholesale by the reloaded list; after a thrown POST it is unchanged |
| `Store.PuppyStore.RemovePlayer` | index.js:61-70 | after a completed DELETE the selection is `null`, whatever id was removed, and the roster is the reloaded list; after a thrown DELETE neither changes |
| `Store.PuppyStore.SubmitForm` | index.js:223-260 | a falsy name or breed sends nothing, sets no status and changes nothing; otherwise the built payload is sent, "Puppy added!" is shown, and the roster follows `AddNewPlayer` |
| `Store.PuppyStore.PlayerList` | index.js:123-135 | the list holds one card per player in order, each with the player's id and marked iff it has the selected id |
| `Store.PuppyStore.Render` | index.js:211-221 | the roster region and detail panel are those the state determines; the empty message appears exactly when the roster is empty |
| `Store.PuppyStore.RenderTeamOptions` | index.js:198-209 | the option list becomes its first option followed by one option per team, in order |
| `Store.PuppyStore.RemoveTrailingOptions` | index.js:199-201 | the removal loop leaves exactly the first option, or nothing if there was none |
| `Store.PuppyStore.AppendTeamOptions` | index.js:203-208 | the append loop adds one option per team after the existing ones, in team order |
| `Store.RenderTeamOptionsTwice` | index.js:198-209 | rendering the team options twice, on a selector with a first option, leaves them as one rendering does, and changes no other state |

## Left out

- Network I/O (`fetch`, methods, headers, `response.json()`): each outcome is an input value.
- DOM construction, `innerHTML` markup, `classList`, `replaceChildren`, `FormData`, event
  binding: the model keeps the derived view data (cards, detail profile, options).
- `$form.reset()`: it happens exactly when `SubmitForm` sends a payload; the form's fields are not modelled.
- `console.error` logging and the `COHORT`/`API_BASE` constants.
- `init()` (index.js:262-269): its ordering of `getTeams`, the roster fetch and the two renders is
  not modelled; each step is a method of its own.
- Asynchrony: `addNewPlayer` is not awaited by the submit handler, so "Puppy added!" appears before,
  and regardless of, the request's outcome; the model runs the request to completion within
  `SubmitForm`. Interleavings of a card-click fetch with a remove are not modelled.
- `Number()` on arbitrary strings: `SubmitForm` and `BuildPayload` take the already-converted
  team number as the parameter `teamNumber`.
- Number precision: ids are assumed to be safe integers (magnitude at most 2^53); `IntToString` agrees
  with JavaScript's conversion only for magnitudes below 10^21, where JavaScript switches to exponent form.
- Non-string values in string fields and non-integer ids: ids are integers, the other fields
  optional strings; an embedded team's id is carried but unused.
- A team whose name is missing shows an empty option text.
