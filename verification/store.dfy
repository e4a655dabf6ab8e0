/**
 The record store as the synonym controller sees it. The store itself (a JSON file
 behind a database handler) is outside this model: a read is represented by the
 list it returned together with its error code, and a write by the error code it
 reports for the list it was given.
 */
module Store {

  /** Error codes of the application. Their numeric values are defined outside this
      model, so they are kept abstract and distinct; `OtherError` stands for any
      further code a read or write may report, and only for codes distinct from
      the three named ones. */
  datatype ErrorCode = Success | DbReadError | DbWriteError | OtherError(code: int)

  /** Status of a word that has been queued but not yet looked up. */
  const NewStatus: int := 0

  /** One stored synonym: exactly the fields `word` and `status`. */
  datatype Record = Record(word: string, status: int)

  /** What a read of the store returned: the full record list and an error code. */
  datatype DbResponse = DbResponse(synonymList: seq<Record>, error: ErrorCode)

  /** Number of records in `records` whose word is `w`. */
  function Occurrences(records: seq<Record>, w: string): nat {
    if |records| == 0 then 0
    else Occurrences(records[..|records| - 1], w) + (if records[|records| - 1].word == w then 1 else 0)
  }

  /** A word occurs in a list exactly when some record of the list carries it. */
  lemma {:induction false} OccursIff(records: seq<Record>, w: string)
    ensures Occurrences(records, w) > 0 <==> exists i :: 0 <= i < |records| && records[i].word == w
    decreases |records|
  {
    if |records| > 0 {
      var init := records[..|records| - 1];
      OccursIff(init, w);
      if exists i :: 0 <= i < |init| && init[i].word == w {
        var i :| 0 <= i < |init| && init[i].word == w;
        assert records[i].word == w;
      }
      if exists i :: 0 <= i < |records| && records[i].word == w {
        var i :| 0 <= i < |records| && records[i].word == w;
        if i < |init| {
          assert init[i].word == w;
        }
      }
    }
  }

  /** Appending a record adds one occurrence of its own word and none of any other. */
  lemma OccurrencesAppend(records: seq<Record>, x: Record, w: string)
    ensures Occurrences(records + [x], w) == Occurrences(records, w) + (if x.word == w then 1 else 0)
  {
    assert (records + [x])[..|records|] == records;
  }
}
