/**
 The synonym controller: queueing a new word (`add`) and listing the stored
 records (`get_syn_list`). Both perform one read of the store; `add` then writes
 the whole list back unless the read failed with the read error.
 */
module Synonym {
  import opened Text
  import opened Store

  /** The pair `add` returns: the record it built and an error code. */
  datatype CurrentSynonym = CurrentSynonym(synonym: Record, error: ErrorCode)

  /** The store write an operation performs, if any. */
  datatype Write = NoWrite | Wrote(records: seq<Record>)

  /** Everything `add` does that a caller or the store can observe. */
  datatype AddOutcome = AddOutcome(returned: CurrentSynonym, write: Write)

  /** The record `add` builds from the tokens given on the command line. */
  function NewRecord(words: seq<string>): (syn: Record)
    ensures syn.status == NewStatus
    ensures |words| == 0 ==> syn.word == ""
    ensures |words| >= 1 ==> words[0] <= syn.word
  {
    Record(Join(words), NewStatus)
  }

  /** For tokens without spaces (the command line gives at least one), the stored
      word holds one space per gap between tokens and splits back into the tokens. */
  lemma NewRecordWord(words: seq<string>)
    requires |words| >= 1
    requires forall k :: 0 <= k < |words| ==> NoSpace(words[k])
    ensures Split(NewRecord(words).word) == words
    ensures CountSpaces(NewRecord(words).word) == |words| - 1
  {
    SplitJoin(words);
    JoinSpaceCount(words);
  }

  /** Queue a new word: build its record, read the store, and unless the read
      reported the read error, append the record and write the list back.
      `write` gives the error code the store reports for the list it is given. */
  function Add(words: seq<string>, read: DbResponse, write: seq<Record> -> ErrorCode): (r: AddOutcome)
    // the same freshly built record is returned on every path
    ensures r.returned.synonym == NewRecord(words)
    // only the read error aborts, and an abort writes nothing
    ensures r.write.NoWrite? <==> read.error == DbReadError
    ensures r.write.NoWrite? ==> r.returned.error == read.error
    // otherwise the record lands at the end of the list that was read, whatever the read's code
    ensures r.write.Wrote? ==> |r.write.records| == |read.synonymList| + 1
    ensures r.write.Wrote? ==> r.write.records[..|read.synonymList|] == read.synonymList
    ensures r.write.Wrote? ==> r.write.records[|read.synonymList|] == r.returned.synonym
    // and the code returned is the one the write reported for that list
    ensures r.write.Wrote? ==> r.returned.error == write(r.write.records)
  {
    var syn := NewRecord(words);
    if read.error == DbReadError then
      AddOutcome(CurrentSynonym(syn, read.error), NoWrite)
    else
      var updated := read.synonymList + [syn];
      assert updated[..|read.synonymList|] == read.synonymList;
      AddOutcome(CurrentSynonym(syn, write(updated)), Wrote(updated))
  }

  /** The list of stored records, as read, whatever error code the read reported:
      nothing is filtered, reordered or written. */
  function GetSynList(read: DbResponse): (r: seq<Record>)
    ensures r == read.synonymList
  {
    read.synonymList
  }
}
