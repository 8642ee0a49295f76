# Vehicle-lookup voice assistant: session state, intent router and record store

This project models the part of the voice customer-service assistant that the
repository itself decides. The speech, language-model and speech-synthesis
pipeline around it is third-party and is not modelled. The model covers four
parts:

- **the record store** (`main/db_driver.py`, module `DbDriver`): a `cars`
  table keyed by VIN, with insert and exact-match lookup as its only
  operations. `DatabaseDriver` is a class whose `cars` field is a
  `map<string, Car>`. An insert whose year lies outside SQLite's signed
  64-bit INTEGER range raises `OverflowError` while sqlite3 binds the
  parameters. Otherwise an insert of a vin that is already a key raises
  `IntegrityError`. Nothing catches either. api.py imports `db_driver` as
  well; the model uses main/db_driver.py for that driver in both flows.
- **the session state** (`api.py`, module `Api`): `AssistantFnc` is a class
  whose `carDetails` field is the `_car_details` dictionary, and the store is
  injected into it. `get_car_str` is a loop that appends one line per entry.
  `lookup_car` and `create_car` replace the field only when they succeed.
  The invariant `Valid()` says that the held car is blank or is a record of
  the store.
- **the intent router** (`agent.py`, modules `VinMatch` and `Agent`):
  - VIN detection (`re.search(r'\b[A-HJ-NPR-Z0-9]{17}\b', ...)`) is the
    function `Search`. It is proved to return the leftmost match.
  - A user turn is the pure step `Turn`, which gives the new held car and the
    `Reply`. `Assistant.OnMessage` is proved equal to it.
  - Tool calls are classified by `Dispatch` into a closed `Intent` and then
    carried out by `Perform`. `Assistant.ProcessFunctionCall` is proved equal
    to the two.
  - `_format_message` is `FormatMessage`.
- **the multi-agent variant** (`main/api.py` and `main/agent.py`, modules
  `MainApi` and `MainAgent`): the tool wrappers that format store results as
  text, and the three agents' tools as decision rules over the same store
  model.

The Python built-ins that the core relies on are modelled in `PyStr`:
`lower()`, `in`, `str(int)`, `int(str)` and `"\n".join`. `PyStr` also
defines a `split`, which the core never calls; it serves only to state what
the join in `_format_message` produces.
`Outcomes` holds `Option` and `Outcome`. An `Outcome` is a value that was
returned or an exception that was raised.

Behaviours of the code that the model states and proves:

- `DatabaseDriver.create_car` never returns None. So the
  `"Failed to create car"` branch of `AssistantFnc.create_car`
  (api.py:61-62) is never taken. A duplicate vin reaches the caller as an
  uncaught `IntegrityError`, not as a user-facing message. A year outside the
  64-bit range reaches it as an uncaught `OverflowError`. In both cases the
  session and the store are unchanged (`Api.CreateOutcomes`).
- `on_message` judges a lookup by `"not found" not in response`. A stored car
  whose details contain "not found" anywhere is adopted as the session's car,
  but the reply says that the VIN was not found
  (`Agent.TurnMisreportsFoundCar`).
- A successful lookup or create of the vin `""` leaves `has_car()` false. It
  even clears a car that was held before. So "no operation resets to no car"
  holds exactly in this form: a failed operation never changes `has_car()`,
  and after a successful one `has_car()` is `vin != ""`
  (`Api.IdentifiedAfterSteps`).
- The greeting agent looks up the whole reply text, not a VIN token taken
  from it. A well-formed VIN contains no `I` (the alphabet excludes it), so a
  reply that mentions "vin" is never a well-formed VIN. So a caller who
  answers with just their VIN is sent to registration
  (`MainAgent.GreetingNeverLooksUpWellFormedVin`).
- Nothing ever hands over to `ServiceAgent`, and its `handle_query` returns
  None whatever the query.

The code checks neither the VIN's shape before registration nor that make
and model are non-empty, and it catches no store error; the model does the
same.

## Model

| member | source | states |
|---|---|---|
| `DbDriver.Insert` | main/db_driver.py:30-38 | an insert raises OverflowError exactly when the year lies outside the signed 64-bit range, and otherwise IntegrityError exactly when the vin is already a key; a successful insert adds that one key, holding the given car, and leaves every other row unchanged |
| `DbDriver.InsertAll` | main/db_driver.py:30-38 | when a run of inserts completes, the keys are the old ones plus the inserted vins, the old rows are unchanged and the table stays keyed by vin |
| `DbDriver.InsertAllSucceedsIff` | main/db_driver.py:22-36 | a run of inserts completes exactly when every year fits an INTEGER, no inserted vin was already stored and no vin is inserted twice |
| `DbDriver.InsertAllStoresEach` | main/db_driver.py:30-38 | after a run of inserts completes, every inserted car is stored under its own vin |
| `DbDriver.Find` | main/db_driver.py:40-47 | the lookup finds a row exactly when the vin is a key, and the row it returns is the stored one, whose vin equals the query |
| `DbDriver.InitTableIdempotent` | main/db_driver.py:17-28 | creating the table when it already exists changes nothing |
| `DbDriver.InsertKeepsKeys` | main/db_driver.py:22 | the primary key holds after every insert: each row is stored under its own vin |
| `DbDriver.InsertThenFind` | main/db_driver.py:30-47 | inserting a new vin succeeds exactly when its year fits an INTEGER, and then the lookup of that vin returns a Car equal in all four fields |
| `DbDriver.DuplicateInsertFails` | main/db_driver.py:22-36 | once a vin is stored, a second insert of it raises IntegrityError, or OverflowError when its year does not fit an INTEGER; the first record is still found |
| `DbDriver.FindNeverInserted` | main/db_driver.py:13-47 | after any run of successful inserts into the opened table, a vin that neither the file held nor any inserted car carried is not found |
| `DbDriver.InsertPreservesRows` | main/db_driver.py:12-47 | no operation changes a stored record: an insert leaves the lookup of every existing vin as it was |
| `DbDriver.DatabaseDriver.constructor` | main/db_driver.py:13-15 | opening a file keeps the rows of its existing `cars` table, and a file without that table starts empty |
| `DbDriver.DatabaseDriver.InitDb` | main/db_driver.py:17-28 | the table exists afterwards and its rows are those that were there before |
| `DbDriver.DatabaseDriver.CreateCar` | main/db_driver.py:30-38 | a year outside the INTEGER range raises OverflowError; otherwise an existing vin raises IntegrityError; both leave the table unchanged; otherwise the row is added and a Car built from the arguments is returned |
| `DbDriver.DatabaseDriver.GetCarByVin` | main/db_driver.py:40-47 | reads the table only and returns the row stored under the vin, or None |
| `Api.CarStrFormat` | api.py:28-33 | the summary is exactly one "Name: value\n" line per field, in the order VIN, Make, Model, Year |
| `Api.DetailsNameEveryField` | api.py:52-55 | the details text contains the held vin, make, model and year |
| `Api.FreshSessionHasNoCar` | api.py:20-26 | a fresh session has no car, and its details show four empty fields |
| `Api.LookupMissKeepsState` | api.py:39-41 | a lookup of an absent vin answers "Car not found" and leaves the held car unchanged |
| `Api.LookupHitAdoptsRecord` | api.py:43-50 | a lookup of a stored vin sets all four fields from the record and answers with the details prefix and the new fields; the session then has a car exactly when the vin is non-empty |
| `Api.CreateOutcomes` | api.py:57-71 | a create of a new vin whose year fits an INTEGER adopts its arguments, stores that car and answers "car created!"; a duplicate raises IntegrityError and an out-of-range year OverflowError, both with the session and store unchanged; "Failed to create car" is never the answer |
| `Api.IdentifiedAfterSteps` | api.py:35-75 | a failed lookup or create (an absent vin; a duplicate vin or an out-of-range year) never changes `has_car()`; after a successful one, `has_car()` is `vin != ""` |
| `Api.HoldsAfterInsert` | api.py:57-69 | a store insert keeps the held car a record of the store |
| `Api.HoldsPreserved` | api.py:35-71 | lookup and create keep the held car either blank or a record of the store |
| `Api.AssistantFnc.constructor` | api.py:20-26 | a new `AssistantFnc` holds the blank dictionary, so it has no car |
| `Api.AssistantFnc.HasCar` | api.py:73-75 | has_car is true exactly when the VIN field is not the empty text |
| `Api.AssistantFnc.GetCarStr` | api.py:28-33 | the loop over the dictionary's entries builds the summary of the held fields |
| `Api.AssistantFnc.LookupCar` | api.py:35-50 | keeps the session invariant; the new fields and the answer are those of the lookup step |
| `Api.AssistantFnc.GetCarDetails` | api.py:52-55 | read-only; the answer is "The car details are: " followed by the summary of the held fields |
| `Api.AssistantFnc.CreateCar` | api.py:57-71 | keeps the session invariant; the new fields, the new table and the outcome are those of the create step |
| `VinMatch.SearchFrom` | agent.py:42-43 | the search from an index returns the first index at or after it where the pattern matches, or None when there is none |
| `VinMatch.Search` | agent.py:42-43 | `re.search` returns the leftmost index where 17 alphabet characters stand between two word boundaries, or None when no index matches |
| `VinMatch.TokenIsWellFormed` | agent.py:42-46 | the detected token is 17 characters from the VIN alphabet and holds no I, O, Q or lower-case letter |
| `VinMatch.WholeVinMatches` | agent.py:42-43 | a well-formed VIN on its own is matched at its start |
| `VinMatch.VinAfterPrefix` | agent.py:42-43 | a well-formed VIN after a non-word separator is the match when the text before it holds none |
| `VinMatch.LongerRunHasNoMatch` | agent.py:42 | the word boundaries make the count exact: a run of 18 alphabet characters holds no match |
| `Agent.NotFoundMarkInMiss` | agent.py:49-51 | the miss answer "Car not found" contains "not found", so a miss takes the failed-lookup branch |
| `Agent.TurnUnknownVin` | agent.py:45-67 | with no car held, a detected VIN the store lacks leaves the session unchanged and replies with the lookup-VIN instructions plus the failed-lookup note |
| `Agent.TurnKnownVin` | agent.py:45-54 | with no car held, a detected stored VIN is looked up with exactly that token and adopted; when the lookup text lacks "not found", the reply is a user message embedding it, naming make and model |
| `Agent.TurnMisreportsFoundCar` | agent.py:49-67 | a stored car whose details contain "not found" anywhere is adopted, yet the reply is the failed-lookup instructions; with `TurnKnownVin` this covers every stored VIN |
| `Agent.NotFoundMakeMisreported` | agent.py:49-67 | in particular, a stored car whose make is "not found" is adopted and answered with the failed-lookup instructions |
| `Agent.SpokenVinFound` | agent.py:42-46 | in "My VIN is <vin>", the token found is that vin |
| `Agent.ExampleUnknownVin` | agent.py:38-67 | "My VIN is <vin>" with the vin unknown to the store: no car is held afterwards, and the reply carries the failed-lookup note |
| `Agent.ExampleDetailsLackMark` | agent.py:49-51 | the details of a 2003 Honda Accord do not contain "not found" |
| `Agent.ExampleRegisteredVin` | agent.py:38-54 | "My VIN is <vin>" after that vin was registered as a 2003 Honda Accord: the car is held and the reply names Honda, Accord and 2003 |
| `Agent.TurnWithCarIsQuery` | agent.py:45-59 | with a car held, every utterance goes to handle_query even when it contains a VIN: no second lookup, the held car unchanged |
| `Agent.TurnNoCarNoVin` | agent.py:60-67 | with no car and no VIN, the reply is the lookup-VIN instructions without the note, and nothing changes |
| `Agent.TurnKeepsHeldCar` | agent.py:38-62 | a turn never replaces a held car and keeps the held car a record of the store |
| `Agent.DetailsPhraseAnyCase` | agent.py:76-80 | "car details" or "show car" in any letter case yields the current details |
| `Agent.OtherQueryForwarded` | agent.py:81-85 | any other query is forwarded verbatim as the user message |
| `Agent.DispatchCases` | agent.py:87-102 | "lookup_car" dispatches exactly when `vin` is given; "get_car_details" dispatches always; "create_car" dispatches exactly when all of vin, make, model and year are given; every other call is refused |
| `Agent.UnrecognisedChangesNothing` | agent.py:101-102 | a refused call answers "Function not found or missing required parameters" and changes neither session nor store |
| `Agent.CreateCallWithDecimalYear` | agent.py:94-100 | a create call whose year is the decimal text of an int creates the car with that int |
| `Agent.CreateCallWithOverflowingYear` | agent.py:94-100 | a create call whose year text is the decimal form of an int outside the INTEGER range parses, then raises OverflowError from the store; nothing changes |
| `Agent.CreateCallWithBadYear` | agent.py:99 | a create call whose year holds no digit at all raises ValueError before the store is touched |
| `Agent.FormatPartsOnePerLine` | agent.py:105-108 | a list message renders one line per item, an image as "[image]" and any other item as its text |
| `Agent.FormatPlainUnchanged` | agent.py:108 | a message that is not a list is rendered as its own text, unchanged |
| `Agent.Assistant.constructor` | agent.py:25-28 | a new assistant holds a fresh `AssistantFnc` with no car |
| `Agent.Assistant.OnMessage` | agent.py:38-62 | one turn: the new held car and the reply are those of the step function, and the store is unchanged |
| `Agent.Assistant.HandleQuery` | agent.py:75-85 | reads the held car only; the reply is the details on request and otherwise the text verbatim |
| `Agent.Assistant.ProcessFunctionCall` | agent.py:87-102 | the new held car, the new store and the outcome are those of the dispatched intent |
| `PyStr.Contains` | agent.py:51 | Python's `t in s` holds exactly when `t` occurs at some index of `s` |
| `PyStr.Lower` | agent.py:76 | the model's lower() keeps the length and lowers each upper-case ASCII letter in place |
| `PyStr.ParseIntSignedDigits` | agent.py:99 | the model's `int()` returns exactly for an optional sign followed by one or more ASCII digits, and then gives their decimal value with the sign applied |
| `PyStr.ParseIntToString` | agent.py:99 | `int(str(n)) == n` |
| `PyStr.SplitJoin` | agent.py:107 | splitting a "\n"-join at "\n" gives back the parts when no part holds a newline |
| `MainApi.LookupNotFoundIff` | main/api.py:7-13 | the lookup tool answers "Car not found." exactly when the vin is absent; otherwise it answers "Car found: make model, year" |
| `MainApi.CreateCar` | main/api.py:15-18 | the tool passes its arguments to the store as vin, make, model, year, then answers "Car created: make model, year"; a year outside the INTEGER range raises OverflowError and a duplicate vin IntegrityError, both leaving the store unchanged |
| `MainApi.CreateThenLookupAgree` | main/api.py:8-18 | after a successful insert of a new vin, the lookup of that vin describes the car in the same words as the create's reply |
| `MainApi.GetCarDetails` | main/api.py:20-23 | the details tool returns None |
| `MainAgent.GreetingVinAnyCase` | main/agent.py:22-23 | "vin" in any letter case starts a lookup whose key is the whole reply text |
| `MainAgent.GreetingOtherwiseRegisters` | main/agent.py:24-25 | a reply without "vin" hands over to a new RegistrationAgent; no rule hands over to ServiceAgent |
| `MainAgent.GreetingNeverLooksUpWellFormedVin` | main/agent.py:15-25 | a well-formed VIN as the reply goes to registration; against a store keyed by well-formed VINs, every greeting lookup answers "Car not found." |
| `MainAgent.CollectCarDetails` | main/agent.py:34-41 | forwards make, model, year and vin unchanged to the create tool and returns its outcome, including its OverflowError and IntegrityError |
| `MainAgent.ServiceHandleQuery` | main/agent.py:50-56 | the service agent's query tool returns None |
| `MainAgent.ServiceIgnoresQuery` | main/agent.py:51-56 | the service answer does not depend on the query |

## Left out

- app.py, main/main.py and the `entrypoint` in agent.py: they only connect to the room, build the speech/LLM/TTS session and run the command-line app.
- The `user_message` and `function_call` event callbacks and their `asyncio.create_task` scheduling: turns are modelled as processed one at a time.
- The bodies of `session.generate_reply` and `session.say`, and which tool calls the language model chooses: these are foreign calls, so a reply is a returned value and a tool call is an argument.
- The agents' `on_enter` greetings, which only speak fixed text.
- The `prompts` module is not part of this model. `LOOKUP_VIN_MESSAGE` is an opaque `string -> string` constant of the `Assistant`. `INSTRUCTIONS` and `WELCOME_MESSAGE` are not used by any modelled decision.
- db_reader.py: it only prints the table.
- The SQLite connection, commits, durability and transactions: the table is an in-memory map. The contents of an existing database file are a constructor argument. Errors from an unreadable database are not modelled.
- Logging throughout.
- `VinMatch.Search`: only ASCII characters count as word characters for `\b`. Python also counts non-ASCII letters and digits, so before or after such a letter Python finds no match where the model finds one.
- `PyStr.Lower`: only ASCII letters are lowered. Python's `lower()` also lowers other scripts, and can change the length of a text (`"İ".lower()` has two code points). Neither can produce the ASCII phrases being looked for.
- `PyStr.ParseIntSignedDigits`: it characterises the model's `int()`, not Python's, which also returns for the texts named on the next line.
- `PyStr.ParseInt`: it accepts an optional sign and ASCII digits only. Python's `int()` also accepts surrounding whitespace, underscores between digits and non-ASCII digits. Python 3.11 and later, and the security releases of 3.7 to 3.10, also refuse a text of more than 4300 digits with ValueError. In the model such a year parses and then raises OverflowError in the store.
- Tool-call arguments are modelled as text. A JSON number is represented by its decimal text (`PyStr.ParseIntToString` shows that nothing is lost for the year). A non-text vin, make or model, and a float year, are not modelled.
- The `session` property of `Assistant`, and a reply sent before the session is set.
