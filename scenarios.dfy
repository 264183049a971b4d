/**
 * Properties of sequences of calls: what one handler writes, the next one
 * reads back.
 */
module Scenarios {
  import opened Wrappers
  import opened Json
  import opened Ledger
  import opened Contract

  const Tanaka: Json := JObj([Member("name", JStr("Tanaka")), Member("birthday", JStr("19900101")), Member("docType", DocType)])
  const Yamada: Json := JObj([Member("name", JStr("Yamada")), Member("birthday", JStr("19800401")), Member("docType", DocType)])

  /** Text that parses is never empty, so a key holding it is found by `queryHuman`. */
  lemma DecodedIsNonEmpty(text: string)
    requires Decode(text).Some?
    ensures text != ""
  {
  }

  /**
   * After `initLedger`, a range scan whose iterator delivers the two seed
   * keys in order yields the two seed records, parsed, in that order.
   */
  lemma InitLedgerThenQueryAll(state: map<string, string>)
    ensures var s := InitLedger(state);
      ScanResults(Delivering([Entry("Human0", s["Human0"]), Entry("Human1", s["Human1"])]))
        == [ScanResult("Human0", Tanaka), ScanResult("Human1", Yamada)]
  {
    var s := InitLedger(state);
    var entries := [Entry("Human0", s["Human0"]), Entry("Human1", s["Human1"])];
    DecodedIsNonEmpty(s["Human0"]);
    DecodedIsNonEmpty(s["Human1"]);
    ScanOfEntries(entries);
  }

  /** `initLedger` overwrites `Human0`, then `Human1`, each with its tagged seed record. */
  lemma InitLedgerWrites(state: map<string, string>)
    ensures InitLedger(state) == state
      ["Human0" := Encode(JObj(Tagged(SeedHumans()[0])))]
      ["Human1" := Encode(JObj(Tagged(SeedHumans()[1])))]
  {
    SeedRecords();
    assert SeedWrites(state, 0) == state;
    var s1 := SeedWrites(state, 1);
    assert s1 == state[HumanKey(0) := Encode(JObj(Tagged(SeedHumans()[0])))];
    assert SeedWrites(state, 2) == s1[HumanKey(1) := Encode(JObj(Tagged(SeedHumans()[1])))];
  }

  /** Running `initLedger` a second time leaves the world state as the first run left it. */
  lemma InitLedgerIdempotent(state: map<string, string>)
    ensures InitLedger(InitLedger(state)) == InitLedger(state)
  {
    InitLedgerWrites(state);
    InitLedgerWrites(InitLedger(state));
  }

  /** `queryHuman` returns what `createHuman` stored, and it reads back as the new record. */
  lemma CreateThenQuery(state: map<string, string>, key: string, name: string, birthday: string)
    ensures var o := CreateHuman(state, [key, name, birthday]);
      var q := QueryHuman(o.state, [key]);
      q.Success? && Decode(q.value) == Some(Human(name, birthday))
  {
    var o := CreateHuman(state, [key, name, birthday]);
    DecodedIsNonEmpty(o.state[key]);
  }

  /**
   * Renaming a record `createHuman` stored changes its name, keeps its
   * `docType` and `birthday`, and keeps the properties in their order.
   */
  lemma CreateThenChangeName(state: map<string, string>, key: string, name: string, birthday: string, newName: string)
    ensures var o := CreateHuman(state, [key, name, birthday]);
      var c := ChangeHumanName(o.state, [key, newName]);
      && c.result == Success(NoPayload)
      && Decode(c.state[key]) == Some(Human(newName, birthday))
  {
    var o := CreateHuman(state, [key, name, birthday]);
    var ms := Human(name, birthday).members;
    assert IndexOf(ms, "name") == 1;
    assert SetMember(ms, "name", JStr(newName)) == Human(newName, birthday).members;
    HumanWf(newName, birthday);
    DecodeEncode(Human(newName, birthday));
  }

  /** Renaming a key that holds nothing fails with a syntax error and writes nothing. */
  lemma ChangeNameOfMissingKey(state: map<string, string>, key: string, newName: string)
    requires key !in state
    ensures ChangeHumanName(state, [key, newName]) == Outcome(Failure(SyntaxError), state)
  {
  }
}
