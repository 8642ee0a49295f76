/**
 The agents of main/agent.py as decision rules. Each agent holds no fields;
 each tool returns a text, a new agent to hand the conversation to, or None.
 */
module MainAgent {
  import opened Outcomes
  import opened PyStr
  import opened DbDriver
  import opened VinMatch
  import MainApi

  datatype AgentKind = GreetingAgent | RegistrationAgent | ServiceAgent

  /** What a tool hands back to the session. */
  datatype ToolResult = Text(text: string) | Handoff(next: AgentKind) | NoResult

  /**
   `GreetingAgent.handle_user_response`: a reply mentioning "vin" in any case
   is looked up as a VIN, the whole reply being the key; any other reply hands
   over to a new RegistrationAgent.
   */
  function HandleUserResponse(t: Table, response: string): (r: ToolResult)
    requires KeyedByVin(t)
  {
    if Contains(Lower(response), "vin") then Text(MainApi.LookupCar(t, response))
    else Handoff(RegistrationAgent)
  }

  /** "VIN", "Vin", "vIn", ... anywhere in the reply trigger the lookup of the whole reply. */
  lemma GreetingVinAnyCase(t: Table, response: string, i: nat)
    requires KeyedByVin(t)
    requires i + 3 <= |response| && Lower(response[i..i + 3]) == "vin"
    ensures HandleUserResponse(t, response) == Text(MainApi.LookupCar(t, response))
  {
    LowerSlice(response, i, i + 3);
    assert OccursAt(Lower(response), "vin", i);
  }

  /** A reply without "vin" in any case starts registration; no rule ever reaches ServiceAgent. */
  lemma GreetingOtherwiseRegisters(t: Table, response: string)
    requires KeyedByVin(t)
    ensures !Contains(Lower(response), "vin") ==> HandleUserResponse(t, response) == Handoff(RegistrationAgent)
    ensures HandleUserResponse(t, response) != Handoff(ServiceAgent)
  {
  }

  /**
   The key looked up is the whole reply, never an extracted token. Since "I"
   is outside the VIN alphabet, a reply that triggers the lookup is never a
   well-formed VIN: a caller who answers with just their VIN is sent to
   registration, and against a store keyed by well-formed VINs the lookup
   always answers "Car not found.".
   */
  lemma GreetingNeverLooksUpWellFormedVin(t: Table, response: string)
    requires KeyedByVin(t)
    ensures WellFormedVin(response) ==> HandleUserResponse(t, response) == Handoff(RegistrationAgent)
    ensures (forall v :: v in t ==> WellFormedVin(v)) && HandleUserResponse(t, response).Text? ==>
      HandleUserResponse(t, response) == Text(MainApi.NOT_FOUND_REPLY)
  {
    if Contains(Lower(response), "vin") {
      var i :| OccursAt(Lower(response), "vin", i);
      assert Lower(response)[i + 1] == "vin"[1] == 'i';
      assert !IsVinChar(response[i + 1]);
      assert !WellFormedVin(response);
      MainApi.LookupNotFoundIff(t, response);
    }
  }

  /**
   `RegistrationAgent.collect_car_details`: forwards the four fields unchanged
   to `create_car`.
   */
  method CollectCarDetails(db: DatabaseDriver, make: string, model: string, year: int, vin: string)
    returns (r: Outcome<string>)
    requires db.Valid()
    modifies db
    ensures db.Valid()
    ensures !FitsInteger(year) ==> r == Raised(OverflowError) && db.cars == old(db.cars)
    ensures FitsInteger(year) && vin in old(db.cars) ==> r == Raised(IntegrityError) && db.cars == old(db.cars)
    ensures FitsInteger(year) && vin !in old(db.cars) ==>
      && db.cars == old(db.cars)[vin := Car(vin, make, model, year)]
      && r == Returned(MainApi.CREATED_PREFIX + MainApi.Summary(Car(vin, make, model, year)))
  {
    r := MainApi.CreateCar(db, make, model, year, vin);
  }

  /** `ServiceAgent.handle_query`: ignores the query and returns what `get_car_details` returns. */
  function ServiceHandleQuery(query: string): (r: ToolResult)
    ensures r == NoResult
  {
    match MainApi.GetCarDetails()
    case Some(text) => Text(text)
    case None => NoResult
  }

  /** The service agent's answer does not depend on the query. */
  lemma ServiceIgnoresQuery(q1: string, q2: string)
    ensures ServiceHandleQuery(q1) == ServiceHandleQuery(q2) == NoResult
  {
  }
}
