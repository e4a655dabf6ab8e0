/**
 Properties of the synonym controller that relate several calls or several
 inputs, and the two cases the test suite checks.
 */
module SynonymProps {
  import opened Text
  import opened Store
  import opened Synonym

  /** On a read that did not fail with the read error, the written list is the
      list read with exactly one record added, at the end, and every earlier
      record kept in place. */
  lemma AddAppendsAtEnd(words: seq<string>, read: DbResponse, write: seq<Record> -> ErrorCode)
    requires read.error != DbReadError
    ensures var r := Add(words, read, write);
      && r.write.Wrote?
      && multiset(r.write.records) == multiset(read.synonymList) + multiset{NewRecord(words)}
      && (forall i :: 0 <= i < |read.synonymList| ==> r.write.records[i] == read.synonymList[i])
      && r.write.records[|r.write.records| - 1] == NewRecord(words)
  {
    var r := Add(words, read, write);
    assert r.write.records == read.synonymList + [NewRecord(words)];
  }

  /** `add` does not look for the word among the stored records: a word already
      present gains a second record. */
  lemma AddKeepsDuplicates(words: seq<string>, read: DbResponse, write: seq<Record> -> ErrorCode)
    requires read.error != DbReadError
    requires exists i :: 0 <= i < |read.synonymList| && read.synonymList[i].word == NewRecord(words).word
    ensures var r := Add(words, read, write);
      && r.write.Wrote?
      && Occurrences(r.write.records, r.returned.synonym.word) == Occurrences(read.synonymList, r.returned.synonym.word) + 1
      && Occurrences(r.write.records, r.returned.synonym.word) >= 2
  {
    var r := Add(words, read, write);
    var w := NewRecord(words).word;
    assert r.write.records == read.synonymList + [NewRecord(words)];
    OccurrencesAppend(read.synonymList, NewRecord(words), w);
    OccursIff(read.synonymList, w);
  }

  /** Every error code of the read other than the read error is ignored: the
      outcome is the one a successful read of the same list would give. */
  lemma AddIgnoresOtherReadErrors(words: seq<string>, records: seq<Record>, e: ErrorCode, write: seq<Record> -> ErrorCode)
    requires e != DbReadError
    ensures Add(words, DbResponse(records, e), write) == Add(words, DbResponse(records, Success), write)
  {
  }

  /** A read error ends `add` the same way whatever list came with it and however
      the store would have answered a write: the built record, the read error, no write. */
  lemma AddAbortsOnReadError(words: seq<string>, records: seq<Record>, write: seq<Record> -> ErrorCode)
    ensures Add(words, DbResponse(records, DbReadError), write)
         == AddOutcome(CurrentSynonym(Record(Join(words), NewStatus), DbReadError), NoWrite)
  {
  }

  /** After an `add` whose read did not abort, a later read that returns the list
      `add` wrote is listed verbatim, whatever code that read reports: the earlier
      list followed by the new record. */
  lemma ListAfterAdd(words: seq<string>, stored: seq<Record>, e0: ErrorCode, write: seq<Record> -> ErrorCode, e: ErrorCode)
    requires e0 != DbReadError
    ensures var r := Add(words, DbResponse(stored, e0), write);
      && r.write.Wrote?
      && GetSynList(DbResponse(r.write.records, e)) == stored + [r.returned.synonym]
      && |GetSynList(DbResponse(r.write.records, e))| == |GetSynList(DbResponse(stored, e0))| + 1
  {
    var r := Add(words, DbResponse(stored, e0), write);
    assert r.write.records == stored + [NewRecord(words)];
  }

  /** Tokens are joined as given: no case folding takes place. */
  lemma NoCaseFolding()
    ensures NewRecord(["Bad", "Apple"]).word == "Bad Apple"
    ensures NewRecord(["Bad", "Apple"]).word != NewRecord(["bad", "apple"]).word
  {
    var upper := NewRecord(["Bad", "Apple"]).word;
    var lower := NewRecord(["bad", "apple"]).word;
    assert upper == "Bad Apple" by {
      JoinCons("Bad", ["Apple"]);
      assert ["Bad"] + ["Apple"] == ["Bad", "Apple"];
    }
    assert "bad" <= lower;
    assert upper[0] != lower[0];
  }

  /** The two cases of the test suite: adding "bad" or "beef" to a store holding
      one record returns the new record with status 0 and success, and leaves two records. */
  lemma TestAdd(word: string, write: seq<Record> -> ErrorCode)
    requires word == "bad" || word == "beef"
    requires forall l :: write(l) == Success
    ensures var r := Add([word], DbResponse([Record("apple", 0)], Success), write);
      && r.returned == CurrentSynonym(Record(word, 0), Success)
      && r.write.Wrote?
      && |GetSynList(DbResponse(r.write.records, Success))| == 2
  {
  }
}
