/**
 * The page's state — the roster, the selected player, the team lookup and the
 * team selector's options — and the handlers that update it.
 */
module Store {
  import opened Wrappers
  import opened Roster
  import opened Envelope
  import opened Details
  import opened Form
  import opened Views

  const AddedText := "Puppy added!"

  class PuppyStore {
    /** The roster, in the order the service listed it. */
    var players: seq<Player>
    /** The player shown in the detail panel, as fetched on its own. */
    var selected: Option<Player>
    /** The team lookup used for team names and the selector. */
    var teams: seq<Team>
    /** The team selector's options; the page starts it with a sentinel option. */
    var options: seq<SelectOption>

    /** The page at load: nothing fetched, the selector as the markup has it. */
    constructor (pageOptions: seq<SelectOption>)
      ensures players == [] && selected == None && teams == [] && options == pageOptions
    {
      players := [];
      selected := None;
      teams := [];
      options := pageOptions;
    }

    /** `getTeams`: replace the lookup with the reply's list; keep it when the fetch throws. */
    method GetTeams(reply: Reply<seq<Team>>)
      modifies this`teams
      ensures teams == TeamsAfter(reply, old(teams))
      ensures reply.Threw? ==> teams == old(teams)
    {
      if reply.Threw? {
        return;
      }
      if reply.Data? && reply.field.Some? {
        teams := reply.field.value;
      } else {
        teams := [];
      }
    }

    /** A card click: the selection becomes the fetched player, or `null` on any failure. */
    method SelectCard(reply: Reply<Player>)
      modifies this`selected
      ensures selected == PlayerFrom(reply)
      ensures reply.Data? && reply.field.Some? ==> selected == reply.field
      ensures reply.Threw? ==> selected == None
    {
      selected := PlayerFrom(reply);
    }

    /** `addNewPlayer`: after the POST completes, the roster is replaced by a fresh listing. */
    method AddNewPlayer(post: Transport, reload: Reply<seq<Player>>)
      modifies this`players
      ensures post.Completed? ==> players == PlayersFrom(reload)
      ensures post.Failed? ==> players == old(players)
    {
      if post.Failed? {
        return;
      }
      players := PlayersFrom(reload);
    }

    /**
     * `removePlayer`: after the DELETE completes, the selection is cleared whatever
     * `id` was removed and the roster is replaced by a fresh listing; if the
     * DELETE throws, nothing changes.
     */
    method RemovePlayer(id: int, delete: Transport, reload: Reply<seq<Player>>)
      modifies this`players, this`selected
      ensures delete.Completed? ==> selected == None && players == PlayersFrom(reload)
      ensures delete.Failed? ==> selected == old(selected) && players == old(players)
    {
      if delete.Failed? {
        return;
      }
      selected := None;
      players := PlayersFrom(reload);
    }

    /**
     * The form's submit handler. When name or breed is falsy it returns before
     * any request, and `sent` is `None`; otherwise it sends the payload, and
     * `status` is the confirmation shown whether or not the request succeeds.
     */
    method SubmitForm(form: FormInput, teamNumber: int, post: Transport, reload: Reply<seq<Player>>)
      returns (sent: Option<Payload>, status: Option<string>)
      modifies this`players
      ensures sent == BuildPayload(form, teamNumber)
      ensures sent.None? <==> !Truthy(form.name) || !Truthy(form.breed)
      ensures sent.None? ==> status == None && players == old(players)
      ensures sent.Some? ==> status == Some(AddedText)
      ensures sent.Some? && post.Completed? ==> players == PlayersFrom(reload)
      ensures sent.Some? && post.Failed? ==> players == old(players)
    {
      sent := BuildPayload(form, teamNumber);
      if sent.None? {
        status := None;
        return;
      }
      AddNewPlayer(post, reload);
      status := Some(AddedText);
    }

    /** `PlayerList`: the cards of `players.map(PlayerListItem)`, appended one by one. */
    method PlayerList() returns (list: seq<Card>)
      ensures list == Cards(players, selected)
      ensures |list| == |players|
      ensures forall i :: 0 <= i < |list| ==>
        list[i].id == players[i].id && (list[i].selected <==> selected.Some? && selected.value.id == players[i].id)
    {
      var items := Cards(players, selected);
      list := [];
      for i := 0 to |items|
        invariant list == items[..i]
      {
        list := list + [items[i]];
      }
    }

    /** `render`: the roster region and the detail panel for the current state. */
    method Render() returns (roster: RosterView, detail: DetailView)
      ensures roster == RosterOf(players, selected)
      ensures detail == Detail(selected, teams)
      ensures players == [] <==> roster == EmptyRoster(EmptyRosterText)
    {
      if |players| == 0 {
        roster := EmptyRoster(EmptyRosterText);
      } else {
        var list := PlayerList();
        roster := CardList(list);
      }
      detail := Detail(selected, teams);
    }

    /**
     * `renderTeamOptions`: remove every option after the first, then append one
     * option per team in order.
     */
    method RenderTeamOptions()
      modifies this`options
      ensures options == TeamOptions(old(options), teams)
    {
      RemoveTrailingOptions();
      AppendTeamOptions();
    }

    /** `while ($team.options.length > 1) $team.remove(1)`: keep only the first option. */
    method RemoveTrailingOptions()
      modifies this`options
      ensures options == Kept(old(options))
    {
      while |options| > 1
        invariant old(options) == [] ==> options == []
        invariant old(options) != [] ==> |options| >= 1 && options[0] == old(options)[0]
        decreases |options|
      {
        options := options[..1] + options[2..];
      }
    }

    /** `teams.forEach(...)`: append one option per team, in order. */
    method AppendTeamOptions()
      modifies this`options
      ensures options == old(options) + OptionsOf(teams)
    {
      ghost var added := OptionsOf(teams);
      var k := 0;
      while k < |teams|
        invariant 0 <= k <= |teams|
        invariant options == old(options) + added[..k]
      {
        var option := TeamOption(teams[k]);
        assert added[..k + 1] == added[..k] + [option];
        options := options + [option];
        k := k + 1;
      }
      assert added[..k] == added;
    }
  }

  /** Rendering the team options twice leaves them as rendering once does. */
  method RenderTeamOptionsTwice(s: PuppyStore)
    requires s.options != []
    modifies s`options
    ensures s.options == TeamOptions(old(s.options), old(s.teams))
    ensures s.teams == old(s.teams) && s.players == old(s.players) && s.selected == old(s.selected)
  {
    s.RenderTeamOptions();
    s.RenderTeamOptions();
    TeamOptionsIdempotent(old(s.options), s.teams);
  }
}
