# obcs_cc_sample chaincode, modelled in Dafny

A Hyperledger Fabric chaincode that keeps "human" records (`docType`,
`name`, `birthday`) in the world state, stored as JSON text. Its `Invoke`
dispatches by function name to five handlers:

- `queryHuman` reads one record.
- `initLedger` writes the two seed records `Human0` and `Human1`.
- `createHuman` writes a new record.
- `queryAllHuman` scans the key range `Human0` to `Human999` and returns every
  record as a JSON array of `{Key, Record}`.
- `changeHumanName` reads a record, sets its name and writes it back.

The project has six modules:

- `Wrappers` (`wrappers.dfy`): `Option` and `Result`.
- `Json` (`json.dfy`): JSON values as the chaincode sees them. Objects are
  ordered lists of properties, as in JavaScript. Property assignment keeps an
  existing property's place and adds a new one last. An encoder
  (`JSON.stringify`) and a decoder (`JSON.parse`, where a duplicate name keeps
  the last value) come with a proof that decoding what was encoded gives back
  the value.
- `Ledger` (`ledger.dfy`): the stub, whose world state is a `map` from key to
  text that `PutState` updates in place. Reading an absent key gives the empty
  value. A range iterator counts its `next()` and `close()` calls. What the
  ledger delivers to a range query is a parameter: a sequence of iterator
  answers. Past their end, `next()` reports done.
- `Contract` (`contract.dfy`): each handler as a function from the state
  before the call and the arguments to the result and the state after. The
  lemmas prove the properties these promise.
- `Chaincode` (`chaincode.dfy`): the handlers as imperative methods against the
  stub. `initLedger` tags an array of records in a `for` loop. `queryAllHuman`
  pulls from the iterator in a `while (true)` loop until an answer is done,
  then closes it. Each method is proved to have exactly the effect its
  `Contract` function gives.
- `Scenarios` (`scenarios.dfy`): properties of sequences of calls.

A handler's error is a value of `Contract.Error`. Its message text is named
where the chaincode builds one: "Incorrect number of arguments. Expecting "
followed by `expecting`, or the key followed by " does not exist: ". An
unknown function name throws before any handler runs (`Thrown`). A handler's
error becomes an error reply (`Err`).

## Model

| member | source | states |
|---|---|---|
| Contract.QueryHuman | obcs_cc_sample.js:41-53 | Succeeds iff there is exactly one argument and the key holds a non-empty value. Success returns the stored value. A wrong count fails with "Expecting HumanNumber ex: HUMAN01". A missing or empty key fails with DoesNotExist(key). |
| Chaincode.QueryHuman | obcs_cc_sample.js:41-53 | The handler reads through the stub, writes nothing, and returns exactly what Contract.QueryHuman gives. |
| Contract.CreateHuman | obcs_cc_sample.js:75-89 | Fails iff the argument count is not 3, and then writes nothing. Otherwise it writes only args[0], keeps every other key, and the text stored there parses to {docType: "human", name: args[1], birthday: args[2]}. |
| Chaincode.CreateHuman | obcs_cc_sample.js:75-89 | The handler's reply and the new world state are those of Contract.CreateHuman. |
| Contract.InitLedger | obcs_cc_sample.js:55-73 | Adds exactly the keys Human0 and Human1 and keeps every other key. Each parses to its seed record, name and birthday first, then docType "human". |
| Contract.SeedRecords | obcs_cc_sample.js:57-69 | 'Human' + 0 and 'Human' + 1 are "Human0" and "Human1". Each seed record, tagged and encoded, parses back to the record with docType added last. |
| Contract.SeedRecordTagged | obcs_cc_sample.js:67-69 | Setting docType on a seed record, which has no docType, appends it after name and birthday. The written text parses back to that record. |
| Chaincode.InitLedger | obcs_cc_sample.js:55-73 | The for loop over the array tags each record and writes it under 'Human' + i. The final state is Contract.InitLedger of the initial one, and the reply carries no payload. |
| Scenarios.InitLedgerWrites | obcs_cc_sample.js:67-71 | initLedger's effect is two overwrites, Human0 then Human1, each with its tagged seed record. |
| Scenarios.InitLedgerIdempotent | obcs_cc_sample.js:55-73 | Running initLedger twice leaves the same world state as running it once. |
| Contract.AssignName | obcs_cc_sample.js:132 | `human.name = args[1]` in strict mode. Fails (TypeError) iff the parsed value is neither an object nor an array. An array comes back unchanged, since JSON.stringify drops the new property. |
| Contract.ChangeHumanName | obcs_cc_sample.js:124-136 | Any failure leaves the state unchanged. A wrong count fails with "Expecting 2". Text that does not parse fails with SyntaxError, and so does an absent key, which reads as empty text. A primitive or null fails with TypeError. Succeeds iff the text parses to an object or an array. Success writes only args[0] and keeps every other key. |
| Contract.ChangeNameKeepsOtherFields | obcs_cc_sample.js:130-134 | On a stored object the rename succeeds. The record read back has name = args[1], and every other property keeps its value and its place. |
| Contract.ChangeNameOfArray | obcs_cc_sample.js:130-134 | On a stored array the rename succeeds and writes back the same array. |
| Chaincode.ChangeHumanName | obcs_cc_sample.js:124-136 | The read-parse-assign-write handler's reply and new state are those of Contract.ChangeHumanName. |
| Scenarios.CreateThenQuery | obcs_cc_sample.js:41-89 | After createHuman([key, name, birthday]), queryHuman([key]) succeeds with text that parses to the new record. |
| Scenarios.CreateThenChangeName | obcs_cc_sample.js:75-136 | After createHuman, changeHumanName([key, newName]) succeeds, and the record reads back as {docType: "human", name: newName, birthday}, in that order. |
| Scenarios.ChangeNameOfMissingKey | obcs_cc_sample.js:130-131 | Renaming an absent key fails with SyntaxError and writes nothing. |
| Scenarios.DecodedIsNonEmpty | obcs_cc_sample.js:48 | Text that parses is never empty, so queryHuman finds any key holding a record. |
| Contract.RecordOf | obcs_cc_sample.js:107-112 | Record is the parsed value when the text parses, else the raw text. |
| Contract.Consumed | obcs_cc_sample.js:99-120 | The answers the loop reads: it always ends with one that is done. |
| Contract.ConsumedSteps | obcs_cc_sample.js:99-120 | The loop reads the answers in the order next() gives them, stops at the first done answer, and none before it is done. |
| Contract.DoneStepCollected | obcs_cc_sample.js:102-120 | When the first done answer is at position p, exactly answers 0..p are read. An entry delivered on the done answer is still collected. |
| Contract.NoDoneStepReadsAll | obcs_cc_sample.js:99-120 | When no delivered answer is done, all of them are read, then the exhausted one. Every kept entry is collected. |
| Contract.KeptIndices | obcs_cc_sample.js:102 | The positions of answers with an entry and a non-empty value: increasing, and all of them. |
| Contract.CollectInOrder | obcs_cc_sample.js:102-113 | allResults has one {Key, Record} per kept answer, in iterator order, and nothing else. |
| Contract.CollectAppend | obcs_cc_sample.js:99-114 | Collecting two runs of answers gives the first run's results, then the second's. |
| Contract.ScanOfEntries | obcs_cc_sample.js:96-122 | A range that delivers entries with non-empty values yields one result per entry, in order, with its key and parsed record. |
| Contract.QueryAllHuman | obcs_cc_sample.js:91-122 | The payload parses back to the JSON array of {Key, Record} for the collected results. |
| Chaincode.QueryAllHuman | obcs_cc_sample.js:91-122 | Opens the range Human0 to Human999 and returns Contract.QueryAllHuman of what was delivered. Calls next() exactly once per consumed answer and close() exactly once. Writes nothing. |
| Scenarios.InitLedgerThenQueryAll | obcs_cc_sample.js:55-122 | After initLedger, a scan delivering Human0 then Human1 yields both seed records, parsed, in that order. |
| Contract.OperationNamed | obcs_cc_sample.js:27-31 | A name selects an operation iff it is that operation's name, and the name of an operation selects that operation. |
| Contract.Run | obcs_cc_sample.js:32-38 | A failed handler leaves the state unchanged. queryHuman and queryAllHuman never change it. |
| Contract.Invoke | obcs_cc_sample.js:23-39 | Throws UnknownFunction(fcn) iff fcn names none of the five handlers. A known name runs the handler of that name and keeps the state it leaves. The handler's payload becomes Ok(payload) and its error becomes Err(error). A throw or an error reply leaves the world state unchanged. |
| Contract.NameInjective | obcs_cc_sample.js:27 | No two handlers share a name, so a name selects at most one of them. |
| Chaincode.Invoke | obcs_cc_sample.js:23-39 | The dispatcher's outcome and new state are exactly Contract.Invoke's. |
| Ledger.ValueAt | obcs_cc_sample.js:47 | getState gives the stored value, or the empty value for an absent key. |
| Ledger.StepAt | obcs_cc_sample.js:100 | Past the delivered answers, next() reports done with no entry. |
| Ledger.Stub.GetState | obcs_cc_sample.js:47 | Reads ValueAt of the current state. |
| Ledger.Stub.PutState | obcs_cc_sample.js:69 | Writes one key and nothing else. |
| Ledger.Stub.GetStateByRange | obcs_cc_sample.js:96 | Returns a fresh iterator over the given range that has not been advanced or closed. |
| Ledger.RangeIterator.Next | obcs_cc_sample.js:100 | Returns the next answer and advances by one. |
| Ledger.RangeIterator.Close | obcs_cc_sample.js:117 | Counts one more close. |
| Json.Lookup | obcs_cc_sample.js:132 | Reading a property gives a value iff the object has it, and that value is the one stored under it. |
| Json.SetMemberEffect | obcs_cc_sample.js:132 | After assignment the property holds the new value, and every other property reads as before. An existing property keeps its place. A new one is added last. |
| Json.SetMemberWf | obcs_cc_sample.js:68 | Assigning a property keeps property names distinct. |
| Json.Decode | obcs_cc_sample.js:131 | Whatever JSON.parse returns has distinct property names in every object. |
| Json.NoRawControlConsumed | obcs_cc_sample.js:131 | Whatever part of a string literal parses holds no raw character below U+0020, so a literal containing one before its closing quote is rejected. |
| Json.LeadingZeroRejected | obcs_cc_sample.js:131 | A number written with a leading zero, such as `01`, does not parse, as `JSON.parse` refuses it. |
| Json.StringRoundTrip | obcs_cc_sample.js:69 | A string body escaped as JSON.stringify does it parses back to the original string, and the text after it is left as it was. The escapes are `\"`, `\\`, `\b`, `\t`, `\n`, `\f` and `\r`, and `\u00XX` for other control characters. |
| Json.NumberRoundTrip | obcs_cc_sample.js:69 | An integer's decimal text parses back to the integer when followed by a non-digit. |
| Json.ValueRoundTrip | obcs_cc_sample.js:134 | The encoding of any value whose objects have distinct property names, followed by text that does not start with a digit, parses back to the value with that text left over. |
| Json.DecodeEncode | obcs_cc_sample.js:87 | JSON.parse(JSON.stringify(v)) is v for every value whose objects have distinct property names. |

## Left out

- The `Init` hook (lines 15-18) only acknowledges instantiation, so it is not modelled.
- Console logging, the `async`/`await` scheduling and the fabric-shim runtime (`shim.start`, `getFunctionAndParameters`) are not modelled.
- Buffers and UTF-8 are not modelled: stored values are text, and `toString()` on them is the identity.
- The ledger's own guarantees are not modelled: which entries a range query delivers, their key order, and snapshot consistency. The delivered answers are a parameter, and the scan properties hold for any of them.
- The shim's validation of keys, such as rejecting an empty key, is not modelled.
- Contract.Invoke: the lookup `this[fcn]` also finds `Init`, `Invoke`, `constructor` and members inherited from `Object.prototype`. The model treats only the five handler names as operations and every other name as unknown.
- Json.Decode: reads only compact JSON. It rejects whitespace, fractions and exponents. Like `JSON.parse`, it rejects numbers with a leading zero. It also rejects a `\u` escape of a surrogate code unit, including both halves of an escaped pair. Text outside this subset fails to parse in the model even where `JSON.parse` would accept it. changeHumanName then reports SyntaxError, and queryAllHuman falls back to the raw text. Everything the encoder writes lies inside the subset.
- Json.Decode: numbers are unbounded integers, whereas JavaScript numbers are doubles. A stored integer above 2^53 is kept exactly where `JSON.parse` rounds it, so a record that changeHumanName writes back, or that queryAllHuman returns, keeps digits that the chaincode would change. `JSON.stringify` writes integers from 1e21 up in exponent form, and the encoder does not.
- JavaScript's ordering of integer-like property names, which come first in ascending order, is not modelled. Properties keep insertion order.
- Contract.Error: carries the kind of an engine-raised SyntaxError or TypeError but not its message text.
- Failures of the store itself are not modelled: `PutState` and `GetState` always succeed.
- The code leaves some cases unguarded, and the model keeps them as they are:
  - changeHumanName makes no existence check. An absent key reads as empty text, so `JSON.parse` throws a SyntaxError.
  - changeHumanName writes back whatever the stored text parsed to. A record without `docType`, or an array, is written back as it was read.
  - `close()` is reached only on the done path of queryAllHuman.
