/**
 * The chaincode's handlers as they run against the stub: each reads and
 * writes the world state through `Stub` and is proved to have exactly the
 * effect module Contract gives it.
 */
module Chaincode {
  import opened Wrappers
  import opened Json
  import opened Ledger
  import Contract

  /** `queryHuman`: reads one key and writes nothing. */
  method QueryHuman(stub: Stub, args: seq<string>) returns (r: Result<string, Contract.Error>)
    ensures r == Contract.QueryHuman(stub.state, args)
  {
    if |args| != 1 {
      return Failure(Contract.IncorrectArguments("HumanNumber ex: HUMAN01"));
    }
    var humanNumber := args[0];
    var humanAsBytes := stub.GetState(humanNumber);
    if humanAsBytes == "" {
      return Failure(Contract.DoesNotExist(humanNumber));
    }
    return Success(humanAsBytes);
  }

  /**
   * `initLedger`: builds the two seed records in an array, then tags and
   * writes them one at a time under `Human0` and `Human1`.
   */
  method InitLedger(stub: Stub) returns (r: Result<string, Contract.Error>)
    modifies stub
    ensures r == Success(Contract.NoPayload)
    ensures stub.state == Contract.InitLedger(old(stub.state))
  {
    var seeds := Contract.SeedHumans();
    var human := new seq<Member>[|seeds|];
    human[0] := seeds[0];
    human[1] := seeds[1];
    for i := 0 to human.Length
      invariant stub.state == Contract.SeedWrites(old(stub.state), i)
      invariant forall j :: 0 <= j < i ==> human[j] == Contract.Tagged(seeds[j])
      invariant forall j :: i <= j < human.Length ==> human[j] == seeds[j]
    {
      human[i] := SetMember(human[i], "docType", Contract.DocType);
      stub.PutState(Contract.HumanKey(i), Encode(JObj(human[i])));
    }
    return Success(Contract.NoPayload);
  }

  /** `createHuman`: writes one new record, or fails before writing anything. */
  method CreateHuman(stub: Stub, args: seq<string>) returns (r: Result<string, Contract.Error>)
    modifies stub
    ensures Contract.Outcome(r, stub.state) == Contract.CreateHuman(old(stub.state), args)
  {
    if |args| != 3 {
      return Failure(Contract.IncorrectArguments("3"));
    }
    var human := Contract.Human(args[1], args[2]);
    stub.PutState(args[0], Encode(human));
    return Success(Contract.NoPayload);
  }

  /**
   * `queryAllHuman`: pulls answers from a range iterator until one is done,
   * collecting a result for each entry with a non-empty value, then closes the
   * iterator. `it` is the iterator the handler opened.
   */
  method QueryAllHuman(stub: Stub, delivered: seq<Step>)
    returns (r: Result<string, Contract.Error>, ghost it: RangeIterator)
    ensures r == Success(Contract.QueryAllHuman(delivered))
    ensures it.startKey == Contract.StartKey && it.endKey == Contract.EndKey && it.steps == delivered
    ensures it.pos == |Contract.Consumed(delivered)|
    ensures it.closeCount == 1
  {
    var iter := stub.GetStateByRange(Contract.StartKey, Contract.EndKey, delivered);
    it := iter;
    ghost var consumed := Contract.Consumed(delivered);
    Contract.ConsumedSteps(delivered);
    var allResults: seq<Contract.ScanResult> := [];
    while true
      invariant iter.startKey == Contract.StartKey && iter.endKey == Contract.EndKey
      invariant iter.steps == delivered
      invariant iter.pos < |consumed|
      invariant iter.closeCount == 0
      invariant allResults == Contract.Collect(consumed[..iter.pos])
      decreases |consumed| - iter.pos
    {
      var res := iter.Next();
      assert consumed[..iter.pos] == consumed[..iter.pos - 1] + [res];
      Contract.CollectAppend(consumed[..iter.pos - 1], [res]);
      if res.entry.Some? && res.entry.value.value != "" {
        var jsonRes := Contract.ScanResult(res.entry.value.key, Contract.RecordOf(res.entry.value.value));
        allResults := allResults + [jsonRes];
      }
      if res.done {
        iter.Close();
        assert consumed[..iter.pos] == consumed;
        assert allResults == Contract.ScanResults(delivered);
        return Success(Encode(JArr(Contract.ResultsJson(allResults)))), it;
      }
    }
  }

  /** `changeHumanName`: read, decode, set `name`, write back. */
  method ChangeHumanName(stub: Stub, args: seq<string>) returns (r: Result<string, Contract.Error>)
    modifies stub
    ensures Contract.Outcome(r, stub.state) == Contract.ChangeHumanName(old(stub.state), args)
  {
    if |args| != 2 {
      return Failure(Contract.IncorrectArguments("2"));
    }
    var humanAsBytes := stub.GetState(args[0]);
    var parsed := Decode(humanAsBytes);
    if parsed.None? {
      return Failure(Contract.SyntaxError);
    }
    var human := Contract.AssignName(parsed.value, args[1]);
    if human.None? {
      return Failure(Contract.TypeError);
    }
    stub.PutState(args[0], Encode(human.value));
    return Success(Contract.NoPayload);
  }

  /**
   * `Invoke`: looks the function up by name and runs it. An unknown name
   * throws; a handler's failure becomes an error reply.
   */
  method Invoke(stub: Stub, fcn: string, params: seq<string>, delivered: seq<Step>)
    returns (r: Contract.Invocation)
    modifies stub
    ensures Contract.Invoked(r, stub.state) == Contract.Invoke(old(stub.state), fcn, params, delivered)
  {
    var op := Contract.OperationNamed(fcn);
    if op.None? {
      return Contract.Thrown(Contract.UnknownFunction(fcn));
    }
    var payload: Result<string, Contract.Error>;
    match op.value {
      case QueryHumanOp =>
        payload := QueryHuman(stub, params);
      case InitLedgerOp =>
        payload := InitLedger(stub);
      case CreateHumanOp =>
        payload := CreateHuman(stub, params);
      case QueryAllHumanOp =>
        ghost var it;
        payload, it := QueryAllHuman(stub, delivered);
      case ChangeHumanNameOp =>
        payload := ChangeHumanName(stub, params);
    }
    match payload {
      case Success(p) => r := Contract.Replied(Contract.Ok(p));
      case Failure(e) => r := Contract.Replied(Contract.Err(e));
    }
  }
}
