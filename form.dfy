/** The add-player form: validation and the request payload. */
module Form {
  import opened Wrappers
  import opened Roster

  /** The form fields as `FormData.get` reads them (`None` for a missing field). */
  datatype FormInput = FormInput(name: Option<string>, breed: Option<string>, teamId: Option<string>)

  /** The body of the create request; `teamId` is left out when `None`. */
  datatype Payload = Payload(name: string, breed: string, teamId: Option<int>)

  /**
   * The submit handler's payload, or `None` when it returns early. `teamNumber`
   * is `Number(teamIdValue)`, the numeric reading of the team field.
   */
  function BuildPayload(form: FormInput, teamNumber: int): (r: Option<Payload>)
    ensures r.Some? <==> Truthy(form.name) && Truthy(form.breed)
    ensures r.Some? ==> r.value.name == form.name.value && r.value.breed == form.breed.value
    ensures r.Some? ==> r.value.name != "" && r.value.breed != ""
    ensures r.Some? ==> (r.value.teamId.Some? <==> Truthy(form.teamId))
    ensures r.Some? && r.value.teamId.Some? ==> r.value.teamId.value == teamNumber
  {
    if !Truthy(form.name) || !Truthy(form.breed) then None
    else if Truthy(form.teamId) then Some(Payload(form.name.value, form.breed.value, Some(teamNumber)))
    else Some(Payload(form.name.value, form.breed.value, None))
  }

  /** The team field never changes what is sent for the name and breed. */
  lemma TeamFieldOnlyAffectsTeamId(form: FormInput, teamId: Option<string>, teamNumber: int, otherNumber: int)
    ensures BuildPayload(form, teamNumber).Some? == BuildPayload(form.(teamId := teamId), otherNumber).Some?
    ensures BuildPayload(form, teamNumber).Some? ==>
      BuildPayload(form, teamNumber).value.(teamId := None) ==
      BuildPayload(form.(teamId := teamId), otherNumber).value.(teamId := None)
  {
  }
}
