# Domain Inspiration: the synonym controller

Domain Inspiration queues seed words in a flat record store so that related
words can later be looked up and checked as domain names. This project models
the synonym controller, which is the part of the program that holds business
logic:

- `SynonymHandler.add` joins the command-line tokens with single spaces. It
  builds the record `{word, status: 0}` and reads the whole record list. If the
  read reports the read error it returns at once and writes nothing. Otherwise it
  appends the record, writes the whole list back, and returns the record paired
  with the write's error code.
- `SynonymHandler.get_syn_list` returns the list a read of the store produced.

The store is abstract. A read is a `Store.DbResponse`: the record list it
returned and its error code. A write is a function from the list it is given to
the error code it reports. `Synonym.Add` is a pure function of the tokens, the
read and the write. Its `Synonym.AddOutcome` holds the returned pair
(`CurrentSynonym`) and either `NoWrite` or the exact list written
(`Wrote(records)`).

Modules:

- `Text` (text.dfy): joining tokens with single spaces, and splitting on single
  spaces as its inverse.
- `Store` (store.dfy): error codes, records, read responses, and occurrence
  counting.
- `Synonym` (synonym.dfy): `NewRecord`, `Add` and `GetSynList`.
- `SynonymProps` (synonym_props.dfy): properties that relate several inputs,
  plus the cases from the test suite.

Facts about the code the model keeps:

- `add` does not lower-case the word (dominsp/synonym.py:20).
  `SynonymProps.NoCaseFolding` shows that `["Bad", "Apple"]` is stored as
  `"Bad Apple"`.
- `add` takes no status parameter: the status is always 0 and the record has
  only the fields `word` and `status` (dominsp/synonym.py:21-24).
- `get_syn_list` returns the list the read produced and does not report the
  read's error code (dominsp/synonym.py:32-35).

## Model

| member | source | states |
|---|---|---|
| Text.Join | dominsp/synonym.py:20 | The joined word starts with the first token and ends with the last one, so there is no padding at either end. Its length is the total token length plus one separator per gap. An empty token list gives the empty string. |
| Text.SplitJoin | dominsp/synonym.py:20 | If at least one token is given and no token contains a space, splitting the joined word on single spaces gives back exactly the token list. |
| Text.JoinSplit | dominsp/synonym.py:20 | Splitting any string on single spaces and joining the pieces with single spaces gives back the string: Split loses nothing. |
| Text.JoinSpaceCount | dominsp/synonym.py:20 | Joining space-free tokens adds exactly one space per gap between consecutive tokens. |
| Synonym.NewRecord | dominsp/synonym.py:20-24 | The built record has status 0 and holds the joined word: it is empty for no tokens and starts with the first token otherwise. |
| Synonym.NewRecordWord | dominsp/synonym.py:20-24 | For space-free tokens, at least one of them as the command line supplies, the stored word splits back into the tokens and holds one space per gap. |
| Synonym.Add | dominsp/synonym.py:18-30 | The same built record is returned on every path. A write happens if and only if the read error was not reported. On abort the read error is returned. Otherwise the list written is the list read, unchanged, with the record added at the end, and the returned code is the write's code for that list. |
| SynonymProps.AddAppendsAtEnd | dominsp/synonym.py:28-29 | After a read that did not abort, the written list's multiset is the read list's multiset plus the new record. Every earlier record keeps its index, and the last element is the new record. |
| SynonymProps.AddKeepsDuplicates | dominsp/synonym.py:25-29 | Duplicates are not rejected. If the word is already stored, the written list holds one more record with that word than before, so at least two. |
| SynonymProps.AddIgnoresOtherReadErrors | dominsp/synonym.py:26-30 | Any read error code other than the read error gives the same returned pair and the same write as a successful read of the same list. |
| SynonymProps.AddAbortsOnReadError | dominsp/synonym.py:25-27 | A read error always yields the built record, the read error and no write. This holds whatever list came with the read and however the store would answer a write. |
| Synonym.GetSynList | dominsp/synonym.py:32-35 | Returns the list the read produced, whatever its error code, and performs no write. |
| SynonymProps.ListAfterAdd | dominsp/synonym.py:32-35 | After an add whose read reported any code but the read error, if the next read returns the list `add` wrote, `get_syn_list` returns it verbatim whatever that read's code: the earlier list followed by the new record, one record longer. |
| SynonymProps.NoCaseFolding | dominsp/synonym.py:20 | Tokens are stored as given: `["Bad", "Apple"]` becomes `"Bad Apple"`, which differs from the word built from `["bad", "apple"]`. |
| SynonymProps.TestAdd | tests/test_dominsp.py:61-65 | Adding `["bad"]` or `["beef"]` to a store holding one record, with reads and writes that succeed, returns `({word, status: 0}, SUCCESS)` and leaves two records. |

## Left out

- dominsp/cli.py: command wiring, coloured output, exit codes, the version callback and config lookup are user-interface plumbing. The command line passes at least one token (dominsp/cli.py:75). `Synonym.Add` handles an empty token list as the controller does, and only `Synonym.NewRecordWord`, `Text.SplitJoin` and `Text.JoinSpaceCount` require at least one token.
- dominsp/database.py: `init_database` and `get_database_path` are file and configuration I/O.
- `DatabaseHandler.read_synonyms` and `write_synonyms` are not part of this model. Their JSON file I/O is represented only by a read response (list, error code) and a write error code. What a failed write leaves in the file is not modelled.
- SynonymProps.ListAfterAdd: does not derive the next read from the store, because the store is abstract; it assumes that read returns the list `add` wrote.
- The numeric values of `SUCCESS`, `DB_READ_ERROR` and `DB_WRITE_ERROR` are defined in a module that is not part of this model. They are kept as distinct abstract constants, and `OtherError` stands only for further codes distinct from those three.
- Stored entries are arbitrary JSON objects in the file. The model treats every entry as a `Record` with a word and an integer status.
- dominsp/__main__.py is only an entry-point shim.
- Lexical expansion, compound generation, lower-casing, statuses above 0 and domain-availability lookups do not appear in the controller's code, so they are not modelled.
