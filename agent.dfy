/**
 The intent router of agent.py: the `Assistant` decides, for each user turn,
 whether to look up a VIN it detected, to answer from the car it already
 holds, or to ask for a VIN; and it dispatches the language model's tool calls
 by name. Each `session.generate_reply(...)` call is a returned `Reply`.
 */
module Agent {
  import opened Outcomes
  import opened PyStr
  import opened DbDriver
  import opened Api
  import opened VinMatch

  /** `generate_reply(user_message=...)` or `generate_reply(instructions=...)`. */
  datatype Reply = UserMessage(text: string) | Instructions(text: string)

  const FAILED_LOOKUP_NOTE := "\n\nNote: A VIN was detected but no matching car was found. "
                            + "Please explain that the VIN wasn't found and ask for correct information."
  const FOUND_OPENING := "I found your car information. "
  const FOUND_CLOSING := " How can I help you with your car today?"
  const DETAILS_OPENING := "Here are your current car details: "
  const NOT_FOUND_MARK := "not found"

  /**
   `find_profile`: instructions built from the (unmodelled) LOOKUP_VIN_MESSAGE
   template, with the failed-lookup note appended when a VIN was tried.
   */
  function FindProfile(lookupVinMessage: string -> string, text: string, failedLookup: bool): Reply {
    Instructions(lookupVinMessage(text) + if failedLookup then FAILED_LOOKUP_NOTE else "")
  }

  /** The lower-cased text asks for the car details. */
  predicate AsksForDetails(text: string) {
    Contains(Lower(text), "car details") || Contains(Lower(text), "show car")
  }

  /** `handle_query` with the car `d` held: the details on request, else the text verbatim. */
  function QueryReply(d: CarDetails, text: string): Reply {
    if AsksForDetails(text) then UserMessage(DETAILS_OPENING + Details(d)) else UserMessage(text)
  }

  /**
   `on_message` as a step: from the held car `d`, the store `t` and the
   utterance, the new held car and the reply.
   */
  function Turn(d: CarDetails, t: Table, text: string, lookupVinMessage: string -> string): (CarDetails, Reply)
    requires KeyedByVin(t)
  {
    var found := Search(text);
    if !Identified(d) && found.Some? then
      var (d', response) := Lookup(d, t, Token(text, found.value));
      if !Contains(response, NOT_FOUND_MARK) then
        (d', UserMessage(FOUND_OPENING + response + FOUND_CLOSING))
      else
        (d', FindProfile(lookupVinMessage, text, true))
    else if Identified(d) then
      (d, QueryReply(d, text))
    else
      (d, FindProfile(lookupVinMessage, text, false))
  }

  lemma NotFoundMarkInMiss()
    ensures Contains(CAR_NOT_FOUND, NOT_FOUND_MARK)
  {
    assert OccursAt(CAR_NOT_FOUND, NOT_FOUND_MARK, 4);
  }

  /**
   With no car held, a detected VIN that the store lacks leaves the session as
   it was and asks again with the failed-lookup note.
   */
  lemma TurnUnknownVin(d: CarDetails, t: Table, text: string, lookupVinMessage: string -> string)
    requires KeyedByVin(t) && !Identified(d)
    requires Search(text).Some? && Token(text, Search(text).value) !in t
    ensures Turn(d, t, text, lookupVinMessage) == (d, Instructions(lookupVinMessage(text) + FAILED_LOOKUP_NOTE))
  {
    NotFoundMarkInMiss();
  }

  /**
   With no car held, a detected VIN that the store holds is adopted; when the
   lookup text lacks "not found" the reply embeds it, so it names the car's
   make and model.
   */
  lemma TurnKnownVin(d: CarDetails, t: Table, text: string, lookupVinMessage: string -> string)
    requires KeyedByVin(t) && !Identified(d)
    requires Search(text).Some? && Token(text, Search(text).value) in t
    requires !Contains(Details(FromCar(t[Token(text, Search(text).value)])), NOT_FOUND_MARK)
    ensures var vin := Token(text, Search(text).value);
      var (d', reply) := Turn(d, t, text, lookupVinMessage);
      && d' == FromCar(t[vin]) && Identified(d')
      && reply == UserMessage(FOUND_OPENING + Details(d') + FOUND_CLOSING)
      && Contains(reply.text, t[vin].make) && Contains(reply.text, t[vin].model)
  {
    var i := Search(text).value;
    var vin := Token(text, i);
    TokenIsWellFormed(text, i);
    var d' := FromCar(t[vin]);
    var details := Details(d');
    DetailsNameEveryField(d');
    ContainsRight(FOUND_OPENING, details, d'.make);
    ContainsLeft(FOUND_OPENING + details, FOUND_CLOSING, d'.make);
    ContainsRight(FOUND_OPENING, details, d'.model);
    ContainsLeft(FOUND_OPENING + details, FOUND_CLOSING, d'.model);
  }

  /**
   The success test is a substring test on the reply text: a stored car whose
   details contain "not found" anywhere is adopted, yet the user is told the
   VIN was not found. With `TurnKnownVin` this covers every stored VIN.
   */
  lemma TurnMisreportsFoundCar(d: CarDetails, t: Table, text: string, lookupVinMessage: string -> string)
    requires KeyedByVin(t) && !Identified(d)
    requires Search(text).Some? && Token(text, Search(text).value) in t
    requires Contains(Details(FromCar(t[Token(text, Search(text).value)])), NOT_FOUND_MARK)
    ensures var vin := Token(text, Search(text).value);
      var (d', reply) := Turn(d, t, text, lookupVinMessage);
      && d' == FromCar(t[vin]) && Identified(d')
      && reply == Instructions(lookupVinMessage(text) + FAILED_LOOKUP_NOTE)
  {
    TokenIsWellFormed(text, Search(text).value);
  }

  /** For instance, a stored car whose make is "not found". */
  lemma NotFoundMakeMisreported(d: CarDetails, t: Table, text: string, lookupVinMessage: string -> string)
    requires KeyedByVin(t) && !Identified(d)
    requires Search(text).Some? && Token(text, Search(text).value) in t
    requires t[Token(text, Search(text).value)].make == NOT_FOUND_MARK
    ensures var vin := Token(text, Search(text).value);
      Turn(d, t, text, lookupVinMessage)
        == (FromCar(t[vin]), Instructions(lookupVinMessage(text) + FAILED_LOOKUP_NOTE))
  {
    DetailsNameEveryField(FromCar(t[Token(text, Search(text).value)]));
    TurnMisreportsFoundCar(d, t, text, lookupVinMessage);
  }

  /** The utterance "My VIN is <vin>" is matched at the VIN. */
  lemma SpokenVinFound(vin: string)
    requires WellFormedVin(vin)
    ensures Search("My VIN is " + vin) == Some(10)
    ensures Token("My VIN is " + vin, 10) == vin
  {
    assert "My VIN is " + vin == "My VIN is" + [' '] + vin;
    VinAfterPrefix("My VIN is", ' ', vin);
  }

  /** "My VIN is <vin>" with a vin the store lacks: the session stays without a car. */
  lemma ExampleUnknownVin(t: Table, vin: string, lookupVinMessage: string -> string)
    requires KeyedByVin(t) && WellFormedVin(vin) && vin !in t
    ensures var text := "My VIN is " + vin;
      Turn(BLANK, t, text, lookupVinMessage) == (BLANK, Instructions(lookupVinMessage(text) + FAILED_LOOKUP_NOTE))
  {
    SpokenVinFound(vin);
    TurnUnknownVin(BLANK, t, "My VIN is " + vin, lookupVinMessage);
  }

  /** `str(2003)`. */
  lemma YearText2003()
    ensures Str(Number(2003)) == "2003"
  {
    assert NatToString(2003) == NatToString(200) + "3";
    assert NatToString(200) == NatToString(20) + "0";
    assert NatToString(20) == "20";
  }

  /** No line of a 2003 Honda Accord's summary holds a "u". */
  lemma HondaSummaryLacksU(vin: string)
    requires WellFormedVin(vin)
    ensures 'u' !in CarStr(CarDetails(vin, "Honda", "Accord", Number(2003)))
  {
    var d := CarDetails(vin, "Honda", "Accord", Number(2003));
    YearText2003();
    CarStrFormat(d);
    assert 'u' !in vin by {
      forall k | 0 <= k < |vin| ensures vin[k] != 'u' {
        assert IsVinChar(vin[k]);
      }
    }
    var a, b, c, e := "VIN: " + vin + "\n", "Make: " + "Honda" + "\n", "Model: " + "Accord" + "\n", "Year: " + "2003" + "\n";
    assert 'u' !in a && 'u' !in b && 'u' !in c && 'u' !in e;
    assert CarStr(d) == a + b + c + e;
  }

  /** The details of a 2003 Honda Accord hold no "u", so no "not found". */
  lemma ExampleDetailsLackMark(vin: string)
    requires WellFormedVin(vin)
    ensures !Contains(Details(CarDetails(vin, "Honda", "Accord", Number(2003))), NOT_FOUND_MARK)
    ensures Str(Number(2003)) == "2003"
  {
    YearText2003();
    HondaSummaryLacksU(vin);
    var d := CarDetails(vin, "Honda", "Accord", Number(2003));
    assert 'u' !in Details(d);
    MissingCharNotContained(Details(d), NOT_FOUND_MARK, 6);
  }

  /**
   "My VIN is <vin>" once that vin was registered as a 2003 Honda Accord: the
   session adopts the car and the reply names make, model and year.
   */
  lemma ExampleRegisteredVin(t: Table, vin: string, lookupVinMessage: string -> string)
    requires KeyedByVin(t) && WellFormedVin(vin)
    requires vin in t && t[vin] == Car(vin, "Honda", "Accord", 2003)
    ensures var (d', reply) := Turn(BLANK, t, "My VIN is " + vin, lookupVinMessage);
      && d' == CarDetails(vin, "Honda", "Accord", Number(2003))
      && reply.UserMessage?
      && Contains(reply.text, "Honda") && Contains(reply.text, "Accord") && Contains(reply.text, "2003")
  {
    var text := "My VIN is " + vin;
    SpokenVinFound(vin);
    var d' := FromCar(t[vin]);
    ExampleDetailsLackMark(vin);
    TurnKnownVin(BLANK, t, text, lookupVinMessage);
    var details := Details(d');
    DetailsNameEveryField(d');
    ContainsRight(FOUND_OPENING, details, "2003");
    ContainsLeft(FOUND_OPENING + details, FOUND_CLOSING, "2003");
  }

  /** With a car held, every utterance goes to `handle_query`: no second lookup, even with a VIN in it. */
  lemma TurnWithCarIsQuery(d: CarDetails, t: Table, text: string, lookupVinMessage: string -> string)
    requires KeyedByVin(t) && Identified(d)
    ensures Turn(d, t, text, lookupVinMessage) == (d, QueryReply(d, text))
  {
  }

  /** With no car and no VIN, the reply is the lookup-VIN instructions without the note. */
  lemma TurnNoCarNoVin(d: CarDetails, t: Table, text: string, lookupVinMessage: string -> string)
    requires KeyedByVin(t) && !Identified(d)
    requires Search(text).None?
    ensures Turn(d, t, text, lookupVinMessage) == (d, Instructions(lookupVinMessage(text)))
  {
    assert lookupVinMessage(text) + "" == lookupVinMessage(text);
  }

  /** A turn never drops a held car and keeps the held car a record of the store. */
  lemma TurnKeepsHeldCar(d: CarDetails, t: Table, text: string, lookupVinMessage: string -> string)
    requires KeyedByVin(t) && Holds(d, t)
    ensures Holds(Turn(d, t, text, lookupVinMessage).0, t)
    ensures Identified(d) ==> Turn(d, t, text, lookupVinMessage).0 == d
  {
    HoldsPreserved(d, t, if Search(text).Some? then Token(text, Search(text).value) else "", "", "", 0);
  }

  /** The details phrases are matched in any letter case. */
  lemma DetailsPhraseAnyCase(d: CarDetails, text: string, i: nat, phrase: string)
    requires phrase == "car details" || phrase == "show car"
    requires i + |phrase| <= |text| && Lower(text[i..i + |phrase|]) == phrase
    ensures QueryReply(d, text) == UserMessage(DETAILS_OPENING + Details(d))
  {
    LowerSlice(text, i, i + |phrase|);
    assert OccursAt(Lower(text), phrase, i);
  }

  /** Any other query is forwarded verbatim. */
  lemma OtherQueryForwarded(d: CarDetails, text: string)
    requires !Contains(Lower(text), "car details") && !Contains(Lower(text), "show car")
    ensures QueryReply(d, text) == UserMessage(text)
  {
  }

  // ------------------------------------------------------ tool-call dispatch

  /** The tool calls `process_function_call` tells apart. */
  datatype Intent =
    | LookupCall(vin: string)
    | DetailsCall
    | CreateCall(vin: string, make: string, model: string, year: string)
    | Unrecognised

  const UNRECOGNISED_CALL := "Function not found or missing required parameters"

  /** The branch `process_function_call` takes for a call name and its arguments. */
  function Dispatch(name: string, kwargs: map<string, string>): Intent {
    if name == "lookup_car" && "vin" in kwargs then LookupCall(kwargs["vin"])
    else if name == "get_car_details" then DetailsCall
    else if name == "create_car" && "vin" in kwargs && "make" in kwargs && "model" in kwargs && "year" in kwargs then
      CreateCall(kwargs["vin"], kwargs["make"], kwargs["model"], kwargs["year"])
    else Unrecognised
  }

  /** Carrying out an intent: the new held car, the new table and how the call ends. */
  function Perform(d: CarDetails, t: Table, intent: Intent): (CarDetails, Table, Outcome<string>)
    requires KeyedByVin(t)
  {
    match intent
    case LookupCall(vin) =>
      var (d', response) := Lookup(d, t, vin);
      (d', t, Returned(response))
    case DetailsCall => (d, t, Returned(Details(d)))
    case CreateCall(vin, make, model, year) =>
      (match ParseInt(year)
       case Raised(e) => (d, t, Raised(e))
       case Returned(y) => Create(d, t, vin, make, model, y))
    case Unrecognised => (d, t, Returned(UNRECOGNISED_CALL))
  }

  /**
   The dispatch table: "lookup_car" needs `vin`, "create_car" needs all four
   fields, "get_car_details" needs nothing, and every other call is refused.
   */
  lemma DispatchCases(name: string, kwargs: map<string, string>)
    ensures Dispatch(name, kwargs).LookupCall? <==> name == "lookup_car" && "vin" in kwargs
    ensures Dispatch(name, kwargs).DetailsCall? <==> name == "get_car_details"
    ensures Dispatch(name, kwargs).CreateCall? <==>
      name == "create_car" && {"vin", "make", "model", "year"} <= kwargs.Keys
    ensures Dispatch(name, kwargs).Unrecognised? <==>
      && !(name == "lookup_car" && "vin" in kwargs)
      && name != "get_car_details"
      && !(name == "create_car" && {"vin", "make", "model", "year"} <= kwargs.Keys)
  {
  }

  /** An unrecognised call answers with the fixed text and changes nothing. */
  lemma UnrecognisedChangesNothing(d: CarDetails, t: Table)
    requires KeyedByVin(t)
    ensures Perform(d, t, Unrecognised) == (d, t, Returned(UNRECOGNISED_CALL))
  {
  }

  /** A create call whose year is the decimal text of an int creates with that int. */
  lemma CreateCallWithDecimalYear(d: CarDetails, t: Table, vin: string, make: string, model: string, year: int)
    requires KeyedByVin(t)
    ensures Perform(d, t, CreateCall(vin, make, model, IntToString(year)))
         == Create(d, t, vin, make, model, year)
  {
    ParseIntToString(year);
  }

  /**
   A create call whose year text is the decimal form of an int outside the
   INTEGER range parses, then raises OverflowError in the store; nothing changes.
   */
  lemma CreateCallWithOverflowingYear(d: CarDetails, t: Table, vin: string, make: string, model: string, year: int)
    requires KeyedByVin(t) && !FitsInteger(year)
    ensures Perform(d, t, CreateCall(vin, make, model, IntToString(year))) == (d, t, Raised(OverflowError))
  {
    CreateCallWithDecimalYear(d, t, vin, make, model, year);
    CreateOutcomes(d, t, vin, make, model, year);
  }

  /** A create call whose year holds no digit at all raises ValueError before touching the store. */
  lemma CreateCallWithBadYear(d: CarDetails, t: Table, vin: string, make: string, model: string, year: string)
    requires KeyedByVin(t)
    requires forall k :: 0 <= k < |year| ==> !IsDigit(year[k])
    ensures Perform(d, t, CreateCall(vin, make, model, year)) == (d, t, Raised(ValueError))
  {
  }

  // --------------------------------------------------------- _format_message

  /** An element of a list message: an image part, or any other item as `str(item)`. */
  datatype Part = ImagePart | TextPart(text: string)

  /** A user message: a list of parts, or any other value as `str(message)`. */
  datatype Message = Plain(text: string) | Parts(parts: seq<Part>)

  const IMAGE_PLACEHOLDER := "[image]"

  function PartText(p: Part): string {
    match p
    case ImagePart => IMAGE_PLACEHOLDER
    case TextPart(s) => s
  }

  /** `_format_message`. */
  function FormatMessage(m: Message): string {
    match m
    case Plain(s) => s
    case Parts(parts) => Join(seq(|parts|, i requires 0 <= i < |parts| => PartText(parts[i])), '\n')
  }

  /** A message that is not a list is rendered as its own text, unchanged. */
  lemma FormatPlainUnchanged(s: string)
    ensures FormatMessage(Plain(s)) == s
  {
  }

  /**
   A list message renders one line per part, images as "[image]": splitting
   the text at newlines gives the parts back when none of them holds a newline.
   */
  lemma FormatPartsOnePerLine(parts: seq<Part>)
    requires |parts| > 0
    requires forall i :: 0 <= i < |parts| ==> '\n' !in PartText(parts[i])
    ensures var lines := Split(FormatMessage(Parts(parts)), '\n');
      && |lines| == |parts|
      && forall i :: 0 <= i < |parts| ==> lines[i] == if parts[i].ImagePart? then "[image]" else parts[i].text
  {
    var texts := seq(|parts|, i requires 0 <= i < |parts| => PartText(parts[i]));
    SplitJoin(texts, '\n');
  }

  // ------------------------------------------------------------- Assistant

  /** `Assistant`: the session's tools object and the prompt template it uses. */
  class Assistant {
    const assistantFnc: AssistantFnc
    const lookupVinMessage: string -> string

    constructor (db: DatabaseDriver, lookupVinMessage: string -> string)
      requires db.Valid()
      ensures assistantFnc.Valid() && assistantFnc.db == db && fresh(assistantFnc)
      ensures assistantFnc.carDetails == BLANK
      ensures this.lookupVinMessage == lookupVinMessage
    {
      assistantFnc := new AssistantFnc(db);
      this.lookupVinMessage := lookupVinMessage;
    }

    /** `on_message`: one user turn. */
    method OnMessage(messageText: string) returns (reply: Reply)
      requires assistantFnc.Valid()
      modifies assistantFnc
      ensures assistantFnc.Valid()
      ensures (assistantFnc.carDetails, reply)
           == Turn(old(assistantFnc.carDetails), assistantFnc.db.cars, messageText, lookupVinMessage)
    {
      var potentialVin := Search(messageText);
      if !assistantFnc.HasCar() && potentialVin.Some? {
        var vin := Token(messageText, potentialVin.value);
        var response := assistantFnc.LookupCar(vin);
        if !Contains(response, NOT_FOUND_MARK) {
          reply := UserMessage(FOUND_OPENING + response + FOUND_CLOSING);
        } else {
          reply := FindProfile(lookupVinMessage, messageText, true);
        }
      } else if assistantFnc.HasCar() {
        reply := HandleQuery(messageText);
      } else {
        reply := FindProfile(lookupVinMessage, messageText, false);
      }
    }

    /** `handle_query`: reads the held car, writes nothing. */
    method HandleQuery(messageText: string) returns (reply: Reply)
      ensures reply == QueryReply(assistantFnc.carDetails, messageText)
    {
      var lowered := Lower(messageText);
      if Contains(lowered, "car details") || Contains(lowered, "show car") {
        var carDetails := assistantFnc.GetCarDetails();
        reply := UserMessage(DETAILS_OPENING + carDetails);
      } else {
        reply := UserMessage(messageText);
      }
    }

    /** `process_function_call`: dispatch on the tool name. */
    method ProcessFunctionCall(functionName: string, kwargs: map<string, string>) returns (r: Outcome<string>)
      requires assistantFnc.Valid()
      modifies assistantFnc, assistantFnc.db
      ensures assistantFnc.Valid()
      ensures (assistantFnc.carDetails, assistantFnc.db.cars, r)
           == Perform(old(assistantFnc.carDetails), old(assistantFnc.db.cars), Dispatch(functionName, kwargs))
    {
      if functionName == "lookup_car" && "vin" in kwargs {
        var response := assistantFnc.LookupCar(kwargs["vin"]);
        r := Returned(response);
      } else if functionName == "get_car_details" {
        var details := assistantFnc.GetCarDetails();
        r := Returned(details);
      } else if functionName == "create_car" && "vin" in kwargs && "make" in kwargs
             && "model" in kwargs && "year" in kwargs {
        var year := ParseInt(kwargs["year"]);
        if year.Raised? {
          return Raised(year.error);
        }
        r := assistantFnc.CreateCar(kwargs["vin"], kwargs["make"], kwargs["model"], year.value);
      } else {
        r := Returned(UNRECOGNISED_CALL);
      }
    }
  }
}
