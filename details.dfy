/**
 * The detail panel for the selected player: field fallbacks, the team-name
 * rule, and the "no selection" prompt.
 */
module Details {
  import opened Wrappers
  import opened Decimal
  import opened Roster

  const NoSelectionText := "Select a puppy to see details."
  const UnknownText := "Unknown"
  const UnassignedText := "Unassigned"
  const TeamPrefix := "Team #"

  /** What the detail panel shows: the prompt, or the selected player's profile. */
  datatype DetailView =
    | Prompt(text: string)
    | Profile(id: int, image: string, name: string, breed: string, status: string, team: string)

  /** `let v = fallback; if (field) { v = field; }` */
  function OrElse(field: Option<string>, fallback: string): (s: string)
    ensures Truthy(field) ==> s == field.value
    ensures !Truthy(field) ==> s == fallback
    ensures fallback != "" ==> s != ""
  {
    if Truthy(field) then field.value else fallback
  }

  /** The name of the team embedded in the player, when it is truthy. */
  predicate HasEmbeddedName(p: Player) {
    p.team.Some? && Truthy(p.team.value.name)
  }

  /** The label for a team id that no team in the lookup names. */
  function SynthesisedName(teamId: int): string {
    TeamPrefix + IntToString(teamId)
  }

  /**
   * The team line of the detail panel: the embedded team's name; else, for a
   * truthy `teamId`, the name of the first team with that id if truthy, else
   * "Team #<id>"; else "Unassigned".
   */
  function TeamName(p: Player, teams: seq<Team>): (r: string)
    ensures r != ""
    ensures HasEmbeddedName(p) ==> r == p.team.value.name.value
    ensures !HasEmbeddedName(p) && !Assigned(p.teamId) ==> r == UnassignedText
    ensures !HasEmbeddedName(p) && Assigned(p.teamId) ==>
      forall k :: FirstWithId(teams, p.teamId.value, k) ==>
        r == (if Truthy(teams[k].name) then teams[k].name.value else SynthesisedName(p.teamId.value))
    ensures (!HasEmbeddedName(p) && Assigned(p.teamId) &&
             forall k :: 0 <= k < |teams| ==> teams[k].id != p.teamId.value) ==>
              r == SynthesisedName(p.teamId.value)
  {
    if HasEmbeddedName(p) then p.team.value.name.value
    else if Assigned(p.teamId) then
      var found := FindTeam(teams, p.teamId.value);
      if found.Some? && Truthy(found.value.name) then found.value.name.value
      else SynthesisedName(p.teamId.value)
    else UnassignedText
  }

  /** The profile of a selected player, every missing field replaced by its fallback. */
  function PlayerProfile(p: Player, teams: seq<Team>): (d: DetailView)
    ensures d.Profile? && d.id == p.id
    ensures d.image == OrElse(p.imageUrl, "") && d.name == OrElse(p.name, "")
    ensures d.breed != "" && d.status != "" && d.team != ""
    ensures d.breed == OrElse(p.breed, UnknownText) && d.status == OrElse(p.status, UnknownText)
    ensures d.team == TeamName(p, teams)
  {
    Profile(p.id, OrElse(p.imageUrl, ""), OrElse(p.name, ""),
            OrElse(p.breed, UnknownText), OrElse(p.status, UnknownText), TeamName(p, teams))
  }

  /** `SelectedPlayer`: the prompt when nothing is selected, else the profile. */
  function Detail(selected: Option<Player>, teams: seq<Team>): (d: DetailView)
    ensures selected.None? <==> d == Prompt(NoSelectionText)
    ensures selected.Some? ==> d == PlayerProfile(selected.value, teams) && d.id == selected.value.id
  {
    match selected
    case None => Prompt(NoSelectionText)
    case Some(p) => PlayerProfile(p, teams)
  }

  /**
   * A breed or status shows as "Unknown" exactly when the field is missing or
   * empty, or holds "Unknown" itself; otherwise it shows unchanged.
   */
  lemma FallbackShowsUnknown(p: Player, teams: seq<Team>)
    ensures PlayerProfile(p, teams).breed == UnknownText <==> !Truthy(p.breed) || p.breed.value == UnknownText
    ensures PlayerProfile(p, teams).status == UnknownText <==> !Truthy(p.status) || p.status.value == UnknownText
  {
  }

  /** Missing and empty string fields are indistinguishable in the detail panel. */
  lemma EmptyFieldsActAsMissing(p: Player, teams: seq<Team>)
    ensures PlayerProfile(p, teams) ==
      PlayerProfile(p.(name := Absent(p.name), breed := Absent(p.breed), status := Absent(p.status),
                       imageUrl := Absent(p.imageUrl)), teams)
  {
  }

  /** A falsy string field made explicitly missing. */
  function Absent(s: Option<string>): Option<string> {
    if Truthy(s) then s else None
  }

  /** A synthesised "Team #<id>" label carries the id: the text after the prefix reads back as it. */
  lemma {:induction false} SynthesisedNameCarriesId(teamId: int)
    ensures |SynthesisedName(teamId)| > |TeamPrefix|
    ensures SynthesisedName(teamId)[..|TeamPrefix|] == TeamPrefix
    ensures ParseInt(SynthesisedName(teamId)[|TeamPrefix|..]) == Some(teamId)
  {
    assert SynthesisedName(teamId)[|TeamPrefix|..] == IntToString(teamId);
    ParseIntToString(teamId);
  }

  /** A team id of 0 is unassigned, even when a team with id 0 exists. */
  lemma ZeroTeamIdIsUnassigned(p: Player, teams: seq<Team>)
    requires !HasEmbeddedName(p) && p.teamId == Some(0)
    ensures TeamName(p, teams) == UnassignedText
  {
  }
}
