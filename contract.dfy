/**
 * What each operation of the `obcs_cc_sample` chaincode does to the world
 * state, as functions of the state before the call and the call's arguments.
 * The methods of module Chaincode are proved to do exactly this.
 */
module Contract {
  import opened Wrappers
  import opened Json
  import opened Ledger

  /**
   * Why an operation fails. The message the chaincode gives for a wrong
   * argument count is "Incorrect number of arguments. Expecting " followed by
   * `expecting`; a missing record's is the key followed by " does not exist: ".
   */
  datatype Error =
    | IncorrectArguments(expecting: string)
    | DoesNotExist(key: string)
    | SyntaxError
    | TypeError
    | UnknownFunction(name: string)

  /** An operation's result and the world state it leaves. */
  datatype Outcome = Outcome(result: Result<string, Error>, state: map<string, string>)

  /** The payload of an operation that returns nothing. */
  const NoPayload: string := ""

  const DocType: Json := JStr("human")

  // ---------------------------------------------------------------------------
  // queryHuman

  /** The stored text of one record; absent and empty are both "does not exist". */
  function QueryHuman(state: map<string, string>, args: seq<string>): (r: Result<string, Error>)
    ensures r.Success? <==> |args| == 1 && ValueAt(state, args[0]) != ""
    ensures r.Success? ==> args[0] in state && r.value == state[args[0]]
    ensures |args| != 1 ==> r == Failure(IncorrectArguments("HumanNumber ex: HUMAN01"))
    ensures |args| == 1 && r.Failure? ==> r == Failure(DoesNotExist(args[0]))
  {
    if |args| != 1 then Failure(IncorrectArguments("HumanNumber ex: HUMAN01"))
    else
      var bytes := ValueAt(state, args[0]);
      if bytes == "" then Failure(DoesNotExist(args[0])) else Success(bytes)
  }

  // ---------------------------------------------------------------------------
  // createHuman

  /** The record `createHuman` builds, with its properties in the order written. */
  function Human(name: string, birthday: string): Json {
    JObj([Member("docType", DocType), Member("name", JStr(name)), Member("birthday", JStr(birthday))])
  }

  lemma HumanWf(name: string, birthday: string)
    ensures Wf(Human(name, birthday))
  {
  }

  /**
   * Exactly three arguments, or nothing is written; otherwise exactly the key
   * `args[0]` is written, and what it holds reads back as the new record.
   */
  function CreateHuman(state: map<string, string>, args: seq<string>): (o: Outcome)
    ensures o.result.Failure? <==> |args| != 3
    ensures |args| != 3 ==> o == Outcome(Failure(IncorrectArguments("3")), state)
    ensures |args| == 3 ==>
      && o.result == Success(NoPayload)
      && o.state.Keys == state.Keys + {args[0]}
      && (forall k :: k in state && k != args[0] ==> o.state[k] == state[k])
      && Decode(o.state[args[0]]) == Some(Human(args[1], args[2]))
  {
    if |args| != 3 then Outcome(Failure(IncorrectArguments("3")), state)
    else
      HumanWf(args[1], args[2]);
      DecodeEncode(Human(args[1], args[2]));
      Outcome(Success(NoPayload), state[args[0] := Encode(Human(args[1], args[2]))])
  }

  // ---------------------------------------------------------------------------
  // initLedger

  /** The records `initLedger` starts from, before it tags them. */
  function SeedHumans(): seq<seq<Member>> {
    [ [Member("name", JStr("Tanaka")), Member("birthday", JStr("19900101"))],
      [Member("name", JStr("Yamada")), Member("birthday", JStr("19800401"))] ]
  }

  /** `human[i].docType = 'human'`: the tag is added after the existing properties. */
  function Tagged(human: seq<Member>): seq<Member> {
    SetMember(human, "docType", DocType)
  }

  /** The key of the `i`-th seed record: 'Human' + i. */
  function HumanKey(i: nat): string {
    "Human" + NatDigits(i)
  }

  /** The state after the first `n` seed records are written. */
  function SeedWrites(state: map<string, string>, n: nat): map<string, string>
    requires n <= |SeedHumans()|
  {
    if n == 0 then state
    else SeedWrites(state, n - 1)[HumanKey(n - 1) := Encode(JObj(Tagged(SeedHumans()[n - 1])))]
  }

  /**
   * Writes exactly `Human0` and `Human1`, each holding its seed record with
   * `docType` set to "human"; every other key keeps its value.
   */
  function InitLedger(state: map<string, string>): (s: map<string, string>)
    ensures s.Keys == state.Keys + {"Human0", "Human1"}
    ensures forall k :: k in state && k != "Human0" && k != "Human1" ==> s[k] == state[k]
    ensures Decode(s["Human0"]) == Some(JObj(
      [Member("name", JStr("Tanaka")), Member("birthday", JStr("19900101")), Member("docType", DocType)]))
    ensures Decode(s["Human1"]) == Some(JObj(
      [Member("name", JStr("Yamada")), Member("birthday", JStr("19800401")), Member("docType", DocType)]))
  {
    SeedRecords();
    var s1 := SeedWrites(state, 1);
    assert SeedWrites(state, 0) == state;
    assert s1 == state[HumanKey(0) := Encode(JObj(Tagged(SeedHumans()[0])))];
    assert SeedWrites(state, 2) == s1[HumanKey(1) := Encode(JObj(Tagged(SeedHumans()[1])))];
    SeedWrites(state, 2)
  }

  lemma SeedRecords()
    ensures HumanKey(0) == "Human0" && HumanKey(1) == "Human1"
    ensures Decode(Encode(JObj(Tagged(SeedHumans()[0])))) == Some(JObj(
      [Member("name", JStr("Tanaka")), Member("birthday", JStr("19900101")), Member("docType", DocType)]))
    ensures Decode(Encode(JObj(Tagged(SeedHumans()[1])))) == Some(JObj(
      [Member("name", JStr("Yamada")), Member("birthday", JStr("19800401")), Member("docType", DocType)]))
  {
    assert NatDigits(0) == "0" && NatDigits(1) == "1";
    SeedRecordTagged(0);
    assert SeedHumans()[0] + [Member("docType", DocType)] ==
      [Member("name", JStr("Tanaka")), Member("birthday", JStr("19900101")), Member("docType", DocType)];
    SeedRecordTagged(1);
    assert SeedHumans()[1] + [Member("docType", DocType)] ==
      [Member("name", JStr("Yamada")), Member("birthday", JStr("19800401")), Member("docType", DocType)];
  }

  lemma SeedRecordTagged(i: nat)
    requires i < |SeedHumans()|
    ensures var h := SeedHumans()[i];
      Decode(Encode(JObj(Tagged(h)))) == Some(JObj(h + [Member("docType", DocType)]))
  {
    var h := SeedHumans()[i];
    assert !HasKey(h, "docType");
    assert Tagged(h) == h + [Member("docType", DocType)];
    DecodeEncode(JObj(Tagged(h)));
  }

  // ---------------------------------------------------------------------------
  // changeHumanName

  /**
   * `human.name = name` on what JSON.parse returned, in strict mode, as far as
   * JSON.stringify can see it: an object gets the property; an array accepts it
   * but does not serialise it; null and primitives throw a TypeError (None).
   */
  function AssignName(human: Json, name: string): (r: Option<Json>)
    ensures r.None? <==> !human.JObj? && !human.JArr?
    ensures human.JArr? ==> r == Some(human)
  {
    match human
    case JObj(ms) => Some(JObj(SetMember(ms, "name", JStr(name))))
    case JArr(_) => Some(human)
    case _ => None
  }

  /** Read the record at `args[0]`, replace its name with `args[1]`, write it back. */
  function ChangeHumanName(state: map<string, string>, args: seq<string>): (o: Outcome)
    ensures o.result.Failure? ==> o.state == state
    ensures |args| != 2 ==> o.result == Failure(IncorrectArguments("2"))
    ensures |args| == 2 && Decode(ValueAt(state, args[0])) == None ==> o.result == Failure(SyntaxError)
    ensures |args| == 2 && args[0] !in state ==> o.result == Failure(SyntaxError)
    ensures |args| == 2 && Decode(ValueAt(state, args[0])).Some? && AssignName(Decode(ValueAt(state, args[0])).value, args[1]).None?
      ==> o.result == Failure(TypeError)
    ensures o.result.Success? <==>
      |args| == 2 && Decode(ValueAt(state, args[0])).Some? && AssignName(Decode(ValueAt(state, args[0])).value, args[1]).Some?
    ensures o.result.Success? ==>
      && |args| == 2 && o.result.value == NoPayload
      && o.state.Keys == state.Keys + {args[0]}
      && (forall k :: k in state && k != args[0] ==> o.state[k] == state[k])
  {
    if |args| != 2 then Outcome(Failure(IncorrectArguments("2")), state)
    else
      match Decode(ValueAt(state, args[0]))
      case None => Outcome(Failure(SyntaxError), state)
      case Some(human) =>
        match AssignName(human, args[1])
        case None => Outcome(Failure(TypeError), state)
        case Some(renamed) => Outcome(Success(NoPayload), state[args[0] := Encode(renamed)])
  }

  /**
   * Renaming a stored object: the call succeeds, and the record read back has
   * the new name while every other property keeps its value and its place.
   */
  lemma ChangeNameKeepsOtherFields(state: map<string, string>, args: seq<string>, ms: seq<Member>)
    requires |args| == 2
    requires Decode(ValueAt(state, args[0])) == Some(JObj(ms))
    ensures var o := ChangeHumanName(state, args);
      && o.result == Success(NoPayload)
      && args[0] in o.state
      && Decode(o.state[args[0]]).Some? && Decode(o.state[args[0]]).value.JObj?
      && var r := Decode(o.state[args[0]]).value.members;
        && Lookup(r, "name") == Some(JStr(args[1]))
        && (forall k :: k != "name" ==> Lookup(r, k) == Lookup(ms, k))
        && |ms| <= |r|
        && (forall i :: 0 <= i < |ms| ==> r[i].key == ms[i].key)
  {
    var renamed := SetMember(ms, "name", JStr(args[1]));
    assert Wf(JObj(ms));
    SetMemberEffect(ms, "name", JStr(args[1]));
    SetMemberWf(ms, "name", JStr(args[1]));
    assert Wf(JObj(renamed));
    DecodeEncode(JObj(renamed));
  }

  /**
   * Renaming a stored array: JSON.stringify ignores the new property, so the
   * same array is written back.
   */
  lemma ChangeNameOfArray(state: map<string, string>, args: seq<string>, items: seq<Json>)
    requires |args| == 2
    requires Decode(ValueAt(state, args[0])) == Some(JArr(items))
    ensures var o := ChangeHumanName(state, args);
      && o.result == Success(NoPayload)
      && args[0] in o.state
      && Decode(o.state[args[0]]) == Some(JArr(items))
  {
    DecodeEncode(JArr(items));
  }

  // ---------------------------------------------------------------------------
  // queryAllHuman

  const StartKey: string := "Human0"
  const EndKey: string := "Human999"

  /** One element of `allResults`: `{Key, Record}`. */
  datatype ScanResult = ScanResult(key: string, record: Json)

  /** What JSON.parse makes of a stored value, or the raw text when it throws. */
  function RecordOf(value: string): (r: Json)
    ensures Wf(r)
    ensures Decode(value).Some? ==> r == Decode(value).value
    ensures Decode(value).None? ==> r == JStr(value)
  {
    match Decode(value)
    case Some(v) => v
    case None => JStr(value)
  }

  /** A step contributes a result when it carries an entry with a non-empty value. */
  predicate Kept(s: Step) {
    s.entry.Some? && s.entry.value.value != ""
  }

  function ResultOf(s: Step): ScanResult
    requires Kept(s)
  {
    ScanResult(s.entry.value.key, RecordOf(s.entry.value.value))
  }

  /** The results a run of steps adds to `allResults`, in order. */
  function Collect(steps: seq<Step>): seq<ScanResult> {
    if steps == [] then []
    else
      var last := steps[|steps| - 1];
      Collect(steps[..|steps| - 1]) + (if Kept(last) then [ResultOf(last)] else [])
  }

  /** The steps the loop pulls: all of them up to and including the first that is done. */
  function Consumed(steps: seq<Step>): (c: seq<Step>)
    ensures |c| > 0 && c[|c| - 1].done
  {
    if steps == [] then [Exhausted]
    else if steps[0].done then [steps[0]]
    else [steps[0]] + Consumed(steps[1..])
  }

  function ScanResults(steps: seq<Step>): seq<ScanResult> {
    Collect(Consumed(steps))
  }

  function ToJson(r: ScanResult): Json {
    JObj([Member("Key", JStr(r.key)), Member("Record", r.record)])
  }

  function ResultsJson(rs: seq<ScanResult>): (js: seq<Json>)
    ensures |js| == |rs|
    ensures forall i :: 0 <= i < |rs| ==> js[i] == ToJson(rs[i])
  {
    if rs == [] then [] else [ToJson(rs[0])] + ResultsJson(rs[1..])
  }

  /** `JSON.stringify(allResults)`: the payload reads back as the list of results. */
  function QueryAllHuman(steps: seq<Step>): (payload: string)
    ensures Decode(payload) == Some(JArr(ResultsJson(ScanResults(steps))))
  {
    var js := ResultsJson(ScanResults(steps));
    assert forall i :: 0 <= i < |js| ==> Wf(js[i]) by {
      forall i | 0 <= i < |js| ensures Wf(js[i]) {
        assert Wf(ScanResults(steps)[i].record) by {
          CollectWf(Consumed(steps));
        }
      }
    }
    DecodeEncode(JArr(js));
    Encode(JArr(js))
  }

  lemma {:induction false} CollectWf(steps: seq<Step>)
    ensures forall i :: 0 <= i < |Collect(steps)| ==> Wf(Collect(steps)[i].record)
  {
    if steps != [] {
      CollectWf(steps[..|steps| - 1]);
    }
  }

  /** The positions of the steps that contribute a result, in iterator order. */
  function KeptIndices(steps: seq<Step>): (idx: seq<nat>)
    ensures forall j :: 0 <= j < |idx| ==> idx[j] < |steps| && Kept(steps[idx[j]])
    ensures forall j, j' :: 0 <= j < j' < |idx| ==> idx[j] < idx[j']
    ensures forall i :: 0 <= i < |steps| && Kept(steps[i]) ==> i in idx
  {
    if steps == [] then []
    else
      var front := steps[..|steps| - 1];
      assert forall i :: 0 <= i < |front| ==> front[i] == steps[i];
      KeptIndices(front) + (if Kept(steps[|steps| - 1]) then [|steps| - 1] else [])
  }

  /**
   * `allResults` holds one result per kept step, in the order the iterator
   * delivered them; steps with no entry or an empty value add nothing.
   */
  lemma {:induction false} CollectInOrder(steps: seq<Step>)
    ensures |Collect(steps)| == |KeptIndices(steps)|
    ensures forall j :: 0 <= j < |Collect(steps)| ==>
      Collect(steps)[j] == ResultOf(steps[KeptIndices(steps)[j]])
  {
    if steps != [] {
      var front := steps[..|steps| - 1];
      CollectInOrder(front);
      assert forall i :: 0 <= i < |front| ==> front[i] == steps[i];
    }
  }

  /** `allResults` over two runs of steps is the results of the first, then of the second. */
  lemma {:induction false} CollectAppend(a: seq<Step>, b: seq<Step>)
    ensures Collect(a + b) == Collect(a) + Collect(b)
    decreases |b|
  {
    if b == [] {
      assert a + b == a;
    } else {
      var front := b[..|b| - 1];
      assert (a + b)[..|a + b| - 1] == a + front;
      CollectAppend(a, front);
    }
  }

  /**
   * The loop calls `next()` once per step, stops at the first answer that is
   * done, and never asks past it.
   */
  lemma {:induction false} ConsumedSteps(steps: seq<Step>)
    ensures var c := Consumed(steps);
      && |c| <= |steps| + 1
      && (forall p :: 0 <= p < |c| ==> c[p] == StepAt(steps, p))
      && (forall p :: 0 <= p < |c| - 1 ==> !c[p].done)
  {
    if steps != [] && !steps[0].done {
      ConsumedSteps(steps[1..]);
      var c := Consumed(steps);
      assert forall p :: 1 <= p < |c| ==> c[p] == Consumed(steps[1..])[p - 1];
    }
  }

  /**
   * When the first done answer is at position `p`, exactly the steps up to
   * and including it are read, and an entry delivered on that last answer is
   * still collected.
   */
  lemma DoneStepCollected(steps: seq<Step>, p: nat)
    requires p < |steps| && steps[p].done
    requires forall j :: 0 <= j < p ==> !steps[j].done
    ensures Consumed(steps) == steps[..p + 1]
    ensures ScanResults(steps) == Collect(steps[..p]) + (if Kept(steps[p]) then [ResultOf(steps[p])] else [])
  {
    var c := Consumed(steps);
    ConsumedSteps(steps);
    assert c[|c| - 1] == StepAt(steps, |c| - 1);
    assert |c| - 1 >= p;
    assert p < |c| ==> c[p].done;
    assert |c| == p + 1;
    assert c == steps[..p + 1];
    assert c[..p] == steps[..p];
  }

  /** When no answer is done, every delivered step is read, then the exhausted one. */
  lemma {:induction false} NoDoneStepReadsAll(steps: seq<Step>)
    requires forall j :: 0 <= j < |steps| ==> !steps[j].done
    ensures Consumed(steps) == steps + [Exhausted]
    ensures ScanResults(steps) == Collect(steps)
  {
    if steps != [] {
      NoDoneStepReadsAll(steps[1..]);
      assert [steps[0]] + (steps[1..] + [Exhausted]) == steps + [Exhausted];
    }
    assert (steps + [Exhausted])[..|steps|] == steps;
  }

  /** The answers of an iterator that delivers `entries` in order and then runs out. */
  function Delivering(entries: seq<Entry>): (steps: seq<Step>)
    ensures |steps| == |entries|
    ensures forall i :: 0 <= i < |entries| ==> steps[i] == Step(Some(entries[i]), false)
  {
    if entries == [] then [] else [Step(Some(entries[0]), false)] + Delivering(entries[1..])
  }

  /**
   * A range whose stored values are all non-empty yields one result per entry,
   * in the order delivered, each with the entry's key and its parsed record.
   */
  lemma {:induction false} ScanOfEntries(entries: seq<Entry>)
    requires forall i :: 0 <= i < |entries| ==> entries[i].value != ""
    ensures |ScanResults(Delivering(entries))| == |entries|
    ensures forall i :: 0 <= i < |entries| ==>
      ScanResults(Delivering(entries))[i] == ScanResult(entries[i].key, RecordOf(entries[i].value))
  {
    NoDoneStepReadsAll(Delivering(entries));
    CollectInOrder(Delivering(entries));
    KeptAll(Delivering(entries));
  }

  /** When every step is kept, the kept positions are all positions, in order. */
  lemma {:induction false} KeptAll(steps: seq<Step>)
    requires forall i :: 0 <= i < |steps| ==> Kept(steps[i])
    ensures |KeptIndices(steps)| == |steps|
    ensures forall i :: 0 <= i < |steps| ==> KeptIndices(steps)[i] == i
  {
    if steps != [] {
      var front := steps[..|steps| - 1];
      KeptAll(front);
    }
  }

  // ---------------------------------------------------------------------------
  // Invoke

  datatype Operation = QueryHumanOp | InitLedgerOp | CreateHumanOp | QueryAllHumanOp | ChangeHumanNameOp

  function Name(op: Operation): string {
    match op
    case QueryHumanOp => "queryHuman"
    case InitLedgerOp => "initLedger"
    case CreateHumanOp => "createHuman"
    case QueryAllHumanOp => "queryAllHuman"
    case ChangeHumanNameOp => "changeHumanName"
  }

  /** Distinct operations have distinct names. */
  lemma NameInjective(a: Operation, b: Operation)
    requires Name(a) == Name(b)
    ensures a == b
  {
  }

  /** The operation a function name selects, if any. */
  function OperationNamed(fcn: string): (r: Option<Operation>)
    ensures r.Some? ==> Name(r.value) == fcn
    ensures r.None? ==> forall op: Operation :: Name(op) != fcn
    ensures forall op: Operation :: Name(op) == fcn ==> r == Some(op)
  {
    if fcn == "queryHuman" then Some(QueryHumanOp)
    else if fcn == "initLedger" then Some(InitLedgerOp)
    else if fcn == "createHuman" then Some(CreateHumanOp)
    else if fcn == "queryAllHuman" then Some(QueryAllHumanOp)
    else if fcn == "changeHumanName" then Some(ChangeHumanNameOp)
    else None
  }

  /** Runs one operation; `delivered` is what the ledger answers a range query with. */
  function Run(op: Operation, state: map<string, string>, args: seq<string>, delivered: seq<Step>): (o: Outcome)
    ensures o.result.Failure? ==> o.state == state
    ensures op == QueryHumanOp || op == QueryAllHumanOp ==> o.state == state
  {
    match op
    case QueryHumanOp => Outcome(QueryHuman(state, args), state)
    case InitLedgerOp => Outcome(Success(NoPayload), InitLedger(state))
    case CreateHumanOp => CreateHuman(state, args)
    case QueryAllHumanOp => Outcome(Success(QueryAllHuman(delivered)), state)
    case ChangeHumanNameOp => ChangeHumanName(state, args)
  }

  /** What the host receives: `shim.success(payload)` or `shim.error(err)`. */
  datatype Reply = Ok(payload: string) | Err(error: Error)

  /** An invocation either replies, or throws before any operation runs. */
  datatype Invocation = Replied(reply: Reply) | Thrown(error: Error)

  datatype Invoked = Invoked(invocation: Invocation, state: map<string, string>)

  /**
   * Dispatch by name. An unknown name throws; an operation's failure becomes an
   * error reply. Either way a failed call leaves the world state as it was.
   */
  function Invoke(state: map<string, string>, fcn: string, args: seq<string>, delivered: seq<Step>): (r: Invoked)
    ensures r.invocation.Thrown? <==> fcn !in {"queryHuman", "initLedger", "createHuman", "queryAllHuman", "changeHumanName"}
    ensures r.invocation.Thrown? ==> r.invocation.error == UnknownFunction(fcn)
    ensures !r.invocation.Replied? || r.invocation.reply.Err? ==> r.state == state
    ensures forall op: Operation :: Name(op) == fcn ==>
      var o := Run(op, state, args, delivered);
      && r.state == o.state
      && (o.result.Success? ==> r.invocation == Replied(Ok(o.result.value)))
      && (o.result.Failure? ==> r.invocation == Replied(Err(o.result.error)))
  {
    match OperationNamed(fcn)
    case None => Invoked(Thrown(UnknownFunction(fcn)), state)
    case Some(op) =>
      var o := Run(op, state, args, delivered);
      match o.result
      case Success(payload) => Invoked(Replied(Ok(payload)), o.state)
      case Failure(e) => Invoked(Replied(Err(e)), o.state)
  }
}
