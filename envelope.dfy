/**
 * The replies of the roster service as the page reads them: either the fetch
 * threw, or the parsed body has no `data`, or `data` with or without the
 * expected key (`players`, `player` or `teams`).
 */
module Envelope {
  import opened Wrappers
  import opened Roster

  datatype Reply<T> = Threw | NoData | Data(field: Option<T>)

  /** A request whose body is not read (POST, DELETE): it completed or it threw. */
  datatype Transport = Completed | Failed

  /** `result.data && result.data.<key>`: the expected field when the envelope carries it. */
  function Field<T>(r: Reply<T>): (f: Option<T>)
    ensures f.Some? <==> r.Data? && r.field.Some?
    ensures f.Some? ==> r == Data(Some(f.value))
  {
    if r.Data? then r.field else None
  }

  /** `fetchAllPlayers`: the delivered list, or the empty list on any other reply, an error included. */
  function PlayersFrom(r: Reply<seq<Player>>): (players: seq<Player>)
    ensures r.Data? && r.field.Some? ==> players == r.field.value
    ensures players != [] ==> r == Data(Some(players))
    ensures r.Threw? || r.NoData? || r == Data(None) ==> players == []
  {
    Field(r).GetOr([])
  }

  /** `fetchSinglePlayer`: the delivered player, or `null` on any other reply, an error included. */
  function PlayerFrom(r: Reply<Player>): (player: Option<Player>)
    ensures r.Data? && r.field.Some? ==> player == r.field
    ensures player.Some? ==> r == Data(player)
    ensures r.Threw? || r.NoData? || r == Data(None) ==> player == None
  {
    Field(r)
  }

  /**
   * `getTeams`: the delivered list, or the empty list when the envelope lacks it;
   * when the fetch throws, the previous list stays.
   */
  function TeamsAfter(r: Reply<seq<Team>>, previous: seq<Team>): (teams: seq<Team>)
    ensures r.Threw? ==> teams == previous
    ensures r.Data? && r.field.Some? ==> teams == r.field.value
    ensures r.NoData? || r == Data(None) ==> teams == []
  {
    if r.Threw? then previous else Field(r).GetOr([])
  }
}
