/**
 * The records the roster service returns, and the JavaScript truthiness tests
 * the page applies to their optional fields.
 */
module Roster {
  import opened Wrappers

  /** A team: `id` and `name`; a team embedded in a player uses only its name. */
  datatype Team = Team(id: int, name: Option<string>)

  /** A player ("puppy"). Every field other than `id` may be missing (`None`). */
  datatype Player = Player(
    id: int,
    name: Option<string>,
    breed: Option<string>,
    status: Option<string>,
    imageUrl: Option<string>,
    teamId: Option<int>,
    team: Option<Team>)

  /** A string field is truthy when present and non-empty. */
  predicate Truthy(s: Option<string>) {
    s.Some? && s.value != ""
  }

  /** A numeric team id is truthy when present and non-zero. */
  predicate Assigned(teamId: Option<int>) {
    teamId.Some? && teamId.value != 0
  }

  /** `k` is the first index of `teams` whose id is `id`. */
  ghost predicate FirstWithId(teams: seq<Team>, id: int, k: int) {
    0 <= k < |teams| && teams[k].id == id && forall j :: 0 <= j < k ==> teams[j].id != id
  }

  /** `teams.find(team => team.id === id)`: the first team with that id, if any. */
  function FindTeam(teams: seq<Team>, id: int): (r: Option<Team>)
    ensures r.None? <==> forall k :: 0 <= k < |teams| ==> teams[k].id != id
    ensures forall k :: FirstWithId(teams, id, k) ==> r == Some(teams[k])
    decreases |teams|
  {
    if teams == [] then None
    else if teams[0].id == id then Some(teams[0])
    else
      var rest := FindTeam(teams[1..], id);
      assert forall k :: FirstWithId(teams, id, k) ==> k >= 1 && FirstWithId(teams[1..], id, k - 1);
      rest
  }
}
