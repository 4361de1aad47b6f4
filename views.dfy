/** The roster list and the team selector, derived from the page state. */
module Views {
  import opened Wrappers
  import opened Decimal
  import opened Roster
  import opened Details

  const EmptyRosterText := "No puppies found."

  /** One roster card: the player's id, image, name, and whether it is marked selected. */
  datatype Card = Card(id: int, image: string, name: string, selected: bool)

  /** What the roster region shows: the empty message, or one card per player. */
  datatype RosterView = EmptyRoster(text: string) | CardList(cards: seq<Card>)

  /** An `<option>` of the team selector: its value attribute and its text. */
  datatype SelectOption = SelectOption(value: string, text: string)

  /** `PlayerListItem`: the card of `p`, marked when the selection has the same id. */
  function PlayerListItem(p: Player, selected: Option<Player>): (c: Card)
    ensures c.id == p.id
    ensures c.selected <==> selected.Some? && selected.value.id == p.id
    ensures c.image == OrElse(p.imageUrl, "") && c.name == OrElse(p.name, "")
  {
    Card(p.id, OrElse(p.imageUrl, ""), OrElse(p.name, ""), selected.Some? && p.id == selected.value.id)
  }

  /** `players.map(PlayerListItem)`: the cards, in roster order. */
  function Cards(players: seq<Player>, selected: Option<Player>): (cards: seq<Card>)
    ensures |cards| == |players|
    ensures forall i :: 0 <= i < |players| ==> cards[i] == PlayerListItem(players[i], selected)
  {
    seq(|players|, i requires 0 <= i < |players| => PlayerListItem(players[i], selected))
  }

  /** The roster region as `render` fills it. */
  function RosterOf(players: seq<Player>, selected: Option<Player>): (v: RosterView)
    ensures v.EmptyRoster? <==> players == []
    ensures v.EmptyRoster? ==> v.text == EmptyRosterText
    ensures v.CardList? ==> v.cards == Cards(players, selected)
  {
    if |players| == 0 then EmptyRoster(EmptyRosterText) else CardList(Cards(players, selected))
  }

  /** With no selection, no card is marked. */
  lemma NoSelectionMarksNothing(players: seq<Player>)
    ensures forall i :: 0 <= i < |players| ==> !Cards(players, None)[i].selected
  {
  }

  /** A card is marked exactly when it shows the selected id; so at most one card is marked when ids are distinct. */
  lemma AtMostOneMarked(players: seq<Player>, selected: Option<Player>, i: int, j: int)
    requires forall a, b :: 0 <= a < b < |players| ==> players[a].id != players[b].id
    requires 0 <= i < |players| && 0 <= j < |players|
    requires Cards(players, selected)[i].selected && Cards(players, selected)[j].selected
    ensures i == j
  {
  }

  /** The option for a team: `value = t.id`, text `t.name` (empty when missing). */
  function TeamOption(t: Team): (o: SelectOption)
    ensures o.value == IntToString(t.id) && o.text == t.name.GetOr("")
  {
    SelectOption(IntToString(t.id), t.name.GetOr(""))
  }

  /** A team's option value reads back as the team's id, as `Number(teamIdValue)` does on submit. */
  lemma TeamOptionValueReadsBack(t: Team)
    ensures ParseInt(TeamOption(t).value) == Some(t.id)
  {
    ParseIntToString(t.id);
  }

  /** The part of the option list that `renderTeamOptions` keeps: the first option, if any. */
  function Kept(options: seq<SelectOption>): (r: seq<SelectOption>)
    ensures |r| <= 1 && |r| <= |options| && r == options[..|r|]
    ensures options != [] ==> r == [options[0]]
  {
    if options == [] then [] else options[..1]
  }

  /** The options of the given teams, in order. */
  function OptionsOf(teams: seq<Team>): (r: seq<SelectOption>)
    ensures |r| == |teams|
    ensures forall k :: 0 <= k < |teams| ==> r[k] == TeamOption(teams[k])
  {
    seq(|teams|, k requires 0 <= k < |teams| => TeamOption(teams[k]))
  }

  /** The option list after `renderTeamOptions`: the first option kept, then one per team. */
  function TeamOptions(options: seq<SelectOption>, teams: seq<Team>): (r: seq<SelectOption>)
    ensures options != [] ==> |r| == |teams| + 1 && r[0] == options[0]
    ensures options != [] ==> forall k :: 0 <= k < |teams| ==> r[k + 1] == TeamOption(teams[k])
    ensures options == [] ==> r == OptionsOf(teams)
  {
    var kept, added := Kept(options), OptionsOf(teams);
    assert forall k :: 0 <= k < |added| ==> (kept + added)[|kept| + k] == added[k];
    kept + added
  }

  /** With the sentinel option in place, rebuilding the options a second time changes nothing. */
  lemma TeamOptionsIdempotent(options: seq<SelectOption>, teams: seq<Team>)
    requires options != []
    ensures TeamOptions(TeamOptions(options, teams), teams) == TeamOptions(options, teams)
  {
    assert Kept(TeamOptions(options, teams)) == Kept(options);
  }

  /** Each team's option value reads back as that team's id, so distinct ids give distinct values. */
  lemma OptionValuesIdentifyTeams(a: Team, b: Team)
    ensures TeamOption(a).value == TeamOption(b).value ==> a.id == b.id
  {
    IntToStringInjective(a.id, b.id);
  }
}
