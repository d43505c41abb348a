/**
 * The store, seen only through its answers. Which records ListCals returns
 * and whether PutMessage succeeds are set by the environment; the ghost
 * fields count the ListCals calls and record the messages handed over.
 */
module Store {
  import opened Types
  import opened Model

  class Store {
    /** What the next ListCals call answers: every calibration record, or a failure. */
    var calsAnswer: Result<seq<Cal>>
    /** What the next PutMessage call answers: the new storage ID, or a failure. */
    var putAnswer: Result<I64>

    ghost var listCalls: nat
    ghost var stored: seq<Message>

    constructor (calsAnswer: Result<seq<Cal>>, putAnswer: Result<I64>)
      ensures this.calsAnswer == calsAnswer && this.putAnswer == putAnswer
      ensures listCalls == 0 && stored == []
    {
      this.calsAnswer := calsAnswer;
      this.putAnswer := putAnswer;
      listCalls := 0;
      stored := [];
    }

    /** The store's ListCals; the offset and limit arguments are ignored by the store, so they are not modelled. */
    method ListCals() returns (r: Result<seq<Cal>>)
      modifies this`listCalls
      ensures r == calsAnswer
      ensures listCalls == old(listCalls) + 1
    {
      r := calsAnswer;
      listCalls := listCalls + 1;
    }

    method PutMessage(m: Message) returns (r: Result<I64>)
      modifies this`stored
      ensures r == putAnswer
      ensures stored == old(stored) + [m]
    {
      r := putAnswer;
      stored := stored + [m];
    }
  }
}
