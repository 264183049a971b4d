/**
 * The world state the chaincode reads and writes through its stub: a map from
 * key to stored text, and the iterator a range query hands back. The ledger
 * itself (persistence, ordering, snapshots) is outside the chaincode; what a
 * range query delivers is given to the model as a sequence of iterator steps.
 */
module Ledger {
  import opened Wrappers

  /** One key and its stored value, as a range iterator delivers it. */
  datatype Entry = Entry(key: string, value: string)

  /** One answer of the iterator's `next()`: maybe an entry, and whether the range is finished. */
  datatype Step = Step(entry: Option<Entry>, done: bool)

  /** What `next()` answers once the delivered steps have run out. */
  const Exhausted: Step := Step(None, true)

  /** The value `getState` reads for `key`: the empty value when nothing is stored there. */
  function ValueAt(state: map<string, string>, key: string): (v: string)
    ensures key !in state ==> v == ""
    ensures key in state ==> v == state[key]
  {
    if key in state then state[key] else ""
  }

  /** The answer of the `i`-th call to `next()` on an iterator that delivers `steps`. */
  function StepAt(steps: seq<Step>, i: nat): (s: Step)
    ensures i >= |steps| ==> s.done && s.entry.None?
  {
    if i < |steps| then steps[i] else Exhausted
  }

  /** An iterator over a key range, as `getStateByRange` returns it. */
  class RangeIterator {
    const startKey: string
    const endKey: string
    const steps: seq<Step>
    /** How many times `next()` has been called. */
    var pos: nat
    /** How many times `close()` has been called. */
    var closeCount: nat

    constructor (startKey: string, endKey: string, steps: seq<Step>)
      ensures this.startKey == startKey && this.endKey == endKey && this.steps == steps
      ensures pos == 0 && closeCount == 0
    {
      this.startKey := startKey;
      this.endKey := endKey;
      this.steps := steps;
      pos := 0;
      closeCount := 0;
    }

    method Next() returns (s: Step)
      modifies this`pos
      ensures s == StepAt(steps, old(pos))
      ensures pos == old(pos) + 1
    {
      s := StepAt(steps, pos);
      pos := pos + 1;
    }

    method Close()
      modifies this`closeCount
      ensures closeCount == old(closeCount) + 1
    {
      closeCount := closeCount + 1;
    }
  }

  /** The chaincode's view of the ledger (`stub`). */
  class Stub {
    var state: map<string, string>

    constructor (state: map<string, string>)
      ensures this.state == state
    {
      this.state := state;
    }

    method GetState(key: string) returns (value: string)
      ensures value == ValueAt(state, key)
    {
      value := ValueAt(state, key);
    }

    method PutState(key: string, value: string)
      modifies this
      ensures state == old(state)[key := value]
    {
      state := state[key := value];
    }

    /**
     * Opens an iterator over the keys from `startKey` (included) to `endKey`
     * (excluded); `delivered` is what the ledger answers to it.
     */
    method GetStateByRange(startKey: string, endKey: string, delivered: seq<Step>)
      returns (it: RangeIterator)
      ensures fresh(it)
      ensures it.startKey == startKey && it.endKey == endKey && it.steps == delivered
      ensures it.pos == 0 && it.closeCount == 0
    {
      it := new RangeIterator(startKey, endKey, delivered);
    }
  }
}
