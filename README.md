# CTF parser and distributed samplers: a Dafny model

This project models two parts of a PyTorch data-loading extension.

The first is the CTF text-format parser (`CTFParser` in
`torch/csrc/api/src/data/ctf/ctf_parser.cpp`). A CTF line holds an optional
sequence id, then named samples (`|name v v ...`, each value dense `v` or
sparse `i:v`) and comments (`|# ...`). The parser keeps a line buffer, a cursor
(`m_buffer_pos`) and a dataset (`std::map` from sequence id to sequence).
`LoadSamples` folds every line of a file into that dataset.

- `CtfChars` holds the one-character predicates of the grammar.
- `CtfTypes` holds the records a parse produces.
- `CtfNumbers` holds `std::stoll`, `std::stod` and `std::stoull` as partial
  functions on the texts the parser hands them.
- `CtfScan` states, as pure functions of the line and the cursor, what every
  recogniser (`GetSequenceId`, `GetName`, `GetValue`, `GetValues`,
  `GetSample`, `GetComment`) and `LoadSamples` compute.
- `CtfScanFacts` proves what those functions mean: the grammar each
  recogniser accepts, the error paths, and that a load is all-or-nothing on
  a rejection while the dataset otherwise only grows.
- `CtfParser` is the parser object. It is a class whose fields are the
  buffer, the cursor and the dataset. Its methods run the same loops as
  the source and are proved equal to the `CtfScan` functions.
- `CtfEquality` models the `operator==` family. It proves what the
  comparisons actually decide, given that `std::equal` walks the left-hand
  range only.

The second part is the index arithmetic of `DistributedSampler` and
`DistributedChunkSampler` in `torch/utils/data/distributed.py` (module
`Distributed`). Python slicing with a positive step is modelled exactly:
negative and out-of-range bounds are clamped as Python does. The
permutation that `torch.randperm` draws for an epoch is a parameter of
`Iter`. Each sampler is a class whose fields are the attributes that
`__init__`, `set_rank` and `set_epoch` assign.

Where the code and its documentation differ, the model follows the code:

- **Implicit sequence ids.** A line without an explicit id uses the id
  carried from the previous line. The carried id starts at 0, not 1. Lines
  of a file that never gives an explicit id all fold into sequence 0
  (`FreshImplicitLoadUsesIdZero`). Lines without an id after a line with
  one fold into that line's sequence (`ImplicitLinesFoldIntoExplicitId`).
- **Sparse index text.** The index of a sparse value is the text between
  the last two `:` of the token, not everything before the last `:`.
- **Conversion throws.** A throw from `std::stoull`, `std::stoll` or
  `std::stod` escapes `LoadSamples` without clearing the dataset
  (`Status.Thrown`). A position where nothing parses clears it
  (`Status.Rejected`).
- **Comment after a failed id.** The comment branch after a failed
  `GetSequenceId` can never succeed (`SequenceIdFailureIsFatal`): a
  comment starts with `|`, and `|` is always accepted as "use the
  previous id".
- **Rank too large.** In `DistributedSampler`, a rank at or above
  `num_replicas` does not get an empty share. Its share is shorter than
  `num_samples` (or empty), so the second assertion of `__iter__` fails
  unless `num_samples` is 0 (`ShardLength`, `IterSucceedsIff`).
- **Unshuffled list is `range(num_replicas)`.** Without shuffling, `DistributedChunkSampler`
  strides over `range(num_replicas)`, not over the chunks. Each rank gets
  exactly its own rank number, or nothing when `rank == num_replicas`
  (`SequentialChunks`).
- **Rank equal to `num_replicas`.** `DistributedChunkSampler` accepts
  `rank == num_replicas`. With shuffling, that rank's share overlaps the
  share of rank 0 (`ShuffledRankAtReplicasOverlaps`). The shares are
  disjoint only among ranks below `num_replicas`
  (`ShuffledChunksDisjoint`).

## Model

In this table, "the bar" is the character `|` that starts names and comments.

| member | source | states |
|---|---|---|
| CtfChars.NumberStartIsDigitPointOrSign | torch/csrc/api/include/torch/data/ctf/ctf_parser.hpp:82-85 | a value may start with exactly the characters 0-9, `.`, `+`, `-` |
| CtfChars.PrefixesCoincide | torch/csrc/api/include/torch/data/ctf/ctf_parser.hpp:42-55 | the bar is both the name prefix and the comment prefix and nothing else is either; `#` is the only comment suffix |
| CtfChars.NulBelongsToNoTokenClass | torch/csrc/api/include/torch/data/ctf/ctf_parser.hpp:57-105 | the NUL that ends the buffer is in no class that continues or skips a token, so every scan stops at it |
| CtfChars.DigitsAndLettersDisjoint | torch/csrc/api/include/torch/data/ctf/ctf_parser.hpp:67-85 | digits and letters are disjoint; a digit starts a number and a letter does not |
| CtfChars.ColumnDelimiterCharacterisation | torch/csrc/api/include/torch/data/ctf/ctf_parser.hpp:87-115 | a column delimiter is a space, a tab, or a control character other than CR and LF |
| CtfChars.EscapeDelimiterCharacterisation | torch/csrc/api/include/torch/data/ctf/ctf_parser.hpp:107-110 | only the single and the double quote are escape delimiters |
| CtfChars.SeparatorsAreNotTokens | torch/csrc/api/include/torch/data/ctf/ctf_parser.hpp:62-105 | blanks and line ends never start a number or a name, and a number character is never a bar or `:` |
| CtfTypes.TypeCode | torch/csrc/api/include/torch/data/ctf/ctf_parser.hpp:119-127 | the enumeration codes lie in 0..5 and only Unknown has code 0 |
| CtfTypes.DefaultValue | torch/csrc/api/include/torch/data/ctf/ctf_parser.hpp:136-138 | a default value has kind Unknown, number 0 and index SIZE_MAX, so it is dense |
| CtfTypes.DenseValue | torch/csrc/api/include/torch/data/ctf/ctf_parser.hpp:139-141 | a value built without an index keeps its kind and number and is dense |
| CtfTypes.EmptySequence | torch/csrc/api/include/torch/data/ctf/ctf_parser.hpp:165-169 | a new sequence carries its id, no samples and an empty comment |
| CtfNumbers.DigitRun | torch/csrc/api/src/data/ctf/ctf_parser.cpp:75-80 | the run counted is all digits and is maximal: it ends at the end of the text or at a non-digit |
| CtfNumbers.NatOfDecimalDigits | torch/csrc/api/src/data/ctf/ctf_parser.cpp:102 | reading a rendered number back gives the number |
| CtfNumbers.Stoull | torch/csrc/api/src/data/ctf/ctf_parser.cpp:239 | a converted index never exceeds SIZE_MAX |
| CtfNumbers.DigitStringsConvert | torch/csrc/api/src/data/ctf/ctf_parser.cpp:238-239 | a plain digit string converts to its own value under std::stoull and std::stoll when in range, and under std::stod always |
| CtfNumbers.IndexRoundTrip | torch/csrc/api/src/data/ctf/ctf_parser.cpp:239 | every index up to SIZE_MAX, written in decimal, reads back as itself |
| CtfNumbers.EmptyOrBareTextsThrow | torch/csrc/api/src/data/ctf/ctf_parser.cpp:238-239 | an empty value text (as in `5:`), a lone sign or a lone point makes the conversion throw |
| CtfNumbers.NegativeIndexWraps | torch/csrc/api/src/data/ctf/ctf_parser.cpp:239 | the index `-1` wraps to SIZE_MAX and so reads as the dense marker |
| CtfScan.SkipWhile | torch/csrc/api/src/data/ctf/ctf_parser.cpp:83-86 | the skip stops at the first character outside the class, or at the end of the line |
| CtfScan.SkipWhileSpan | torch/csrc/api/src/data/ctf/ctf_parser.cpp:83-86 | every character skipped is in the class |
| CtfScan.LastColon | torch/csrc/api/src/data/ctf/ctf_parser.cpp:208-213 | there is no position exactly when the token holds no `:`; a position found holds a `:` and no `:` follows it |
| CtfScan.ValueField | torch/csrc/api/src/data/ctf/ctf_parser.cpp:208-217 | the value text has no `:` |
| CtfScan.IndexField | torch/csrc/api/src/data/ctf/ctf_parser.cpp:208-217 | the index text has no `:` |
| CtfScan.FieldsRules | torch/csrc/api/src/data/ctf/ctf_parser.cpp:208-217 | the value text is the tail of the token after its last `:`, preceded by that `:`; the index text is the value text of what comes before that `:`, so it lies between the last two `:`; neither holds a `:`, and a token without `:` is all value text with an empty index text |
| CtfNumbers.Stoll | torch/csrc/api/src/data/ctf/ctf_parser.cpp:238 | a result lies in the signed 64-bit range and is negative only for a text starting with `-` |
| CtfNumbers.Stod | torch/csrc/api/src/data/ctf/ctf_parser.cpp:238 | a result is negative only for a text starting with `-`, and the conversion throws only where no digit follows the optional sign |
| CtfScan.ConvertValue | torch/csrc/api/src/data/ctf/ctf_parser.cpp:237-239 | a converted value is Double exactly when the token was a float, and its index is at most SIZE_MAX |
| CtfScan.ConvertValueRules | torch/csrc/api/src/data/ctf/ctf_parser.cpp:237-239 | the kind is Double or Int16; the number is what std::stod (float) or std::stoll reads; without index text the value is dense, otherwise its index is std::stoull of that text; the result is None exactly when one of those conversions throws |
| CtfScan.TokenValue | torch/csrc/api/src/data/ctf/ctf_parser.cpp:182-239 | a value is Double exactly when its token holds one decimal point |
| CtfScan.TokenValueRules | torch/csrc/api/src/data/ctf/ctf_parser.cpp:208-239 | a token without `:` gives a dense value; with index text the index is that text read by std::stoull |
| CtfScan.SequenceIdSpec | torch/csrc/api/src/data/ctf/ctf_parser.cpp:45-105 | a miss leaves the cursor in place; a hit leaves it on the bar that follows |
| CtfScan.NameSpec | torch/csrc/api/src/data/ctf/ctf_parser.cpp:107-157 | never throws; a miss leaves the cursor in place; a hit leaves it on a number character |
| CtfScan.ValueSpec | torch/csrc/api/src/data/ctf/ctf_parser.cpp:159-245 | a miss or a throw leaves the cursor in place; a hit moves it forward |
| CtfScan.ValuesSpec | torch/csrc/api/src/data/ctf/ctf_parser.cpp:247-273 | the cursor never moves backwards nor past the line |
| CtfScan.SampleSpec | torch/csrc/api/src/data/ctf/ctf_parser.cpp:275-279 | a found sample moves the cursor forward |
| CtfScan.CommentEnd | torch/csrc/api/src/data/ctf/ctf_parser.cpp:311-325 | the comment text ends inside the line |
| CtfScan.CommentSpec | torch/csrc/api/src/data/ctf/ctf_parser.cpp:281-340 | never throws; a miss leaves the cursor in place; a hit consumes at least a bar followed by `#` |
| CtfScan.Record | torch/csrc/api/src/data/ctf/ctf_parser.cpp:395-405 | after one segment the id has an entry, stamped with the id |
| CtfScan.StepSpec | torch/csrc/api/src/data/ctf/ctf_parser.cpp:357-405 | a segment that parses moves the cursor forward, so every line is finished; a stop is a rejection or a throw, and a rejection leaves an empty dataset |
| CtfScan.LineSpec | torch/csrc/api/src/data/ctf/ctf_parser.cpp:355-406 | a line that does not stop is scanned to its end; a stop is a rejection or a throw, and a rejection leaves an empty dataset |
| CtfScan.AfterLine | torch/csrc/api/src/data/ctf/ctf_parser.cpp:348-407 | a stopped line ends the load with its status and dataset; after a finished line, a later rejection still leaves an empty dataset |
| CtfScan.LoadSpec | torch/csrc/api/src/data/ctf/ctf_parser.cpp:342-410 | a rejection anywhere in the file ends the load with an empty dataset: a load is all or nothing; no lines load nothing and keep the dataset |
| CtfScan.Load | torch/csrc/api/src/data/ctf/ctf_parser.cpp:342-410 | a rejected load of a whole file leaves no sequences; an empty file loads an empty dataset |
| CtfScanFacts.SequenceIdCases | torch/csrc/api/src/data/ctf/ctf_parser.cpp:45-105 | the bar gives the carried id in place; any other non-digit is a miss; digits, then blanks, then a bar give the digits' value with the cursor on the bar, or a throw when that value exceeds SIZE_MAX; digits not followed by a bar are a miss |
| CtfScanFacts.SequenceIdFailureIsFatal | torch/csrc/api/src/data/ctf/ctf_parser.cpp:360-368 | where the sequence id fails, the comment fails too, so that branch always clears and rejects |
| CtfScanFacts.NameShape | torch/csrc/api/src/data/ctf/ctf_parser.cpp:107-157 | a found name is exactly the maximal letter-and-digit run after a bar, and is followed by blanks and a number character; conversely a bar, that run, blanks and a number character always give that name, with the cursor on the number character |
| CtfScanFacts.ValuesFailNotOnBar | torch/csrc/api/src/data/ctf/ctf_parser.cpp:247-263 | where the values scan fails, the cursor is not on a bar |
| CtfScanFacts.PartialSampleIsFatal | torch/csrc/api/src/data/ctf/ctf_parser.cpp:383-392 | a sample whose name parsed but whose values failed is never taken for a comment, so the line is rejected |
| CtfScanFacts.ValuesStep | torch/csrc/api/src/data/ctf/ctf_parser.cpp:251-262 | away from a bar, CR/LF and the file size, the values scan fails or throws exactly when one value does, and otherwise continues after it |
| CtfScanFacts.SampleHasValues | torch/csrc/api/src/data/ctf/ctf_parser.cpp:141-148 | on a line no longer than the file, a found sample has at least one value |
| CtfScanFacts.CountPositiveIffPresent | torch/csrc/api/src/data/ctf/ctf_parser.cpp:186-207 | the sign and point counters are positive exactly when the token holds a sign or a point |
| CtfScanFacts.ValueTokenRules | torch/csrc/api/src/data/ctf/ctf_parser.cpp:159-245 | a second sign or a second point anywhere in the maximal token (index part included) rejects it; a found value is Double exactly when the token holds a point and Int16 otherwise; a token without `:` is dense; the cursor stops on a number character, a bar or CR/LF |
| CtfScanFacts.ValueTokenAccepted | torch/csrc/api/src/data/ctf/ctf_parser.cpp:159-245 | a maximal token with at most one sign and one point, followed after blanks by a number character, a bar or CR/LF, is accepted: it is found when its conversions succeed and throws otherwise; a found value leaves the cursor after the blanks, its number is what std::stod (with a point) or std::stoll (without) reads from the value text, and its index is std::stoull of the index text |
| CtfScanFacts.ValueAtEndOfLineFails | torch/csrc/api/src/data/ctf/ctf_parser.cpp:227-234 | a value that runs to the end of the line (no CR/LF after it) is rejected |
| CtfScanFacts.CommentEndIsFirstStop | torch/csrc/api/src/data/ctf/ctf_parser.cpp:311-325 | the comment ends at the first CR/LF or at the first bar preceded by an even number of quotes, and at no earlier position |
| CtfScanFacts.CommentRules | torch/csrc/api/src/data/ctf/ctf_parser.cpp:281-340 | after a bar followed by `#` the comment text is everything up to its first stop; at a bar the cursor stays on it, and otherwise every CR/LF after the text is consumed and the cursor stops on the first character that is not one |
| CtfScanFacts.RecordRules | torch/csrc/api/src/data/ctf/ctf_parser.cpp:395-405 | after one segment the id has an entry stamped with the id; a named sample is appended; a non-empty comment replaces the old one; other ids are unchanged |
| CtfScanFacts.LoadExtends | torch/csrc/api/src/data/ctf/ctf_parser.cpp:342-410 | unless a load is rejected, every id stays, every sample list is only appended to, and a non-empty comment stays non-empty |
| CtfScanFacts.BadLineStartRejects | torch/csrc/api/src/data/ctf/ctf_parser.cpp:355-368 | a line that starts with neither a bar nor a digit (a blank line included) rejects the load and clears it |
| CtfScanFacts.ValuesEndOnBar | torch/csrc/api/src/data/ctf/ctf_parser.cpp:247-273 | on a line as the reader delivers it, the values scan ends on a bar or at the end of the line |
| CtfScanFacts.CommentEndsOnBar | torch/csrc/api/src/data/ctf/ctf_parser.cpp:311-331 | on a line as the reader delivers it, a comment ends on a bar or at the end of the line |
| CtfScanFacts.ImplicitIdsFoldIntoCarriedId | torch/csrc/api/src/data/ctf/ctf_parser.cpp:56-64 | lines with no explicit id add no id other than the carried one |
| CtfScanFacts.FreshImplicitLoadUsesIdZero | torch/csrc/api/src/data/ctf/ctf_parser.cpp:347 | a file with no explicit ids puts everything under sequence 0 |
| CtfScanFacts.ExplicitLineUsesItsId | torch/csrc/api/src/data/ctf/ctf_parser.cpp:347-406 | a line that starts with digits adds no sequence but the one with that id; scanned to its end, it has created that sequence and made the id the carried one |
| CtfScanFacts.LoadKeys | torch/csrc/api/src/data/ctf/ctf_parser.cpp:342-410 | a load creates only the sequences whose ids start its lines, plus the carried id when the first line has none; a load that succeeds has created every one of those ids |
| CtfScanFacts.ExplicitLoadHasWrittenIds | torch/csrc/api/src/data/ctf/ctf_parser.cpp:342-410 | when every line starts with an id, a successful load has exactly the ids written in the file |
| CtfScanFacts.ImplicitLinesFoldIntoExplicitId | torch/csrc/api/src/data/ctf/ctf_parser.cpp:347-406 | lines without an id after a line with one all go into the sequence of that id |
| CtfParser.SplitFieldsAgree | torch/csrc/api/src/data/ctf/ctf_parser.cpp:208-217 | building value and index text character by character gives the text after the last `:` and the text between the last two `:` |
| CtfParser.ReadToken | torch/csrc/api/src/data/ctf/ctf_parser.cpp:180-219 | the token loop succeeds exactly when the maximal token has at most one sign and one point, and then returns its value text, its index text and whether it has a point |
| CtfParser.Parser.constructor | torch/csrc/api/src/data/ctf/ctf_parser.cpp:31-36 | a new parser has an empty buffer, cursor 0 and an empty dataset |
| CtfParser.Parser.Skip | torch/csrc/api/src/data/ctf/ctf_parser.cpp:83-86 | the skip loop stops where SkipWhile says |
| CtfParser.Parser.GetSequenceId | torch/csrc/api/src/data/ctf/ctf_parser.cpp:45-105 | the outcome and the new cursor are those of SequenceIdSpec, and the carried id is updated only on a hit |
| CtfParser.Parser.GetName | torch/csrc/api/src/data/ctf/ctf_parser.cpp:107-157 | the outcome and the new cursor are those of NameSpec |
| CtfParser.Parser.GetValue | torch/csrc/api/src/data/ctf/ctf_parser.cpp:159-245 | the outcome and the new cursor are those of ValueSpec |
| CtfParser.Parser.GetValues | torch/csrc/api/src/data/ctf/ctf_parser.cpp:247-273 | the outcome and the new cursor are those of ValuesSpec, and the output list is extended only on success |
| CtfParser.Parser.GetSample | torch/csrc/api/src/data/ctf/ctf_parser.cpp:275-279 | the outcome and the new cursor are those of SampleSpec |
| CtfParser.Parser.GetComment | torch/csrc/api/src/data/ctf/ctf_parser.cpp:281-340 | the outcome and the new cursor are those of CommentSpec |
| CtfParser.Parser.UpdateSequence | torch/csrc/api/src/data/ctf/ctf_parser.cpp:395-405 | the dataset becomes Record of the old one |
| CtfParser.Parser.LoadSamples | torch/csrc/api/src/data/ctf/ctf_parser.cpp:342-410 | the status and the final dataset are those of LoadSpec over the lines, starting from carried id 0 |
| CtfEquality.ValueEq | torch/csrc/api/src/data/ctf/ctf_parser.cpp:529-534 | two values compare equal exactly when kind, number and index all agree |
| CtfEquality.ValuesEqual | torch/csrc/api/src/data/ctf/ctf_parser.cpp:539-541 | the value walk holds exactly when the left-hand list is a prefix of the right-hand one |
| CtfEquality.ValuesWalkDefinedIff | torch/csrc/api/src/data/ctf/ctf_parser.cpp:539-541 | the walk reads past the right-hand list exactly when the left-hand list is longer and begins with all of it |
| CtfEquality.SampleEq | torch/csrc/api/src/data/ctf/ctf_parser.cpp:536-542 | two samples compare equal exactly when the names agree and the left-hand values begin the right-hand ones |
| CtfEquality.SamplesEqual | torch/csrc/api/src/data/ctf/ctf_parser.cpp:547-549 | the sample walk holds exactly when the left-hand list is no longer and each of its samples matches the one at the same place |
| CtfEquality.SequenceEq | torch/csrc/api/src/data/ctf/ctf_parser.cpp:544-550 | two sequences compare equal exactly when the ids agree and the left-hand samples match the start of the right-hand ones |
| CtfEquality.SortedIds | torch/csrc/api/src/data/ctf/ctf_parser.cpp:554-556 | the map is walked in strictly increasing id order, listing each id of the map once |
| CtfEquality.SortedIdsCover | torch/csrc/api/src/data/ctf/ctf_parser.cpp:554-556 | every id of the map is visited by the walk |
| CtfEquality.EntryEq | torch/csrc/api/src/data/ctf/ctf_parser.cpp:554-556 | two map entries compare equal exactly when the ids agree and the sequences compare equal |
| CtfEquality.EntriesEqual | torch/csrc/api/src/data/ctf/ctf_parser.cpp:554-556 | the entry walk holds exactly when each left-hand entry matches the right-hand one at the same place |
| CtfEquality.DatasetEq | torch/csrc/api/src/data/ctf/ctf_parser.cpp:552-559 | two datasets compare equal exactly when the left-hand one is no larger and its entries, in id order, match the first entries of the right-hand one |
| CtfEquality.DatasetEqSameSize | torch/csrc/api/src/data/ctf/ctf_parser.cpp:552-559 | between datasets of the same size, equality holds exactly when the id sets are equal and each left-hand sequence matches the right-hand sequence of the same id |
| CtfEquality.SameIdsWhenEqual | torch/csrc/api/src/data/ctf/ctf_parser.cpp:552-559 | equal datasets of the same size have the same ids |
| CtfEquality.CommentIgnored | torch/csrc/api/src/data/ctf/ctf_parser.cpp:544-550 | sequences that differ only in their comment compare equal |
| CtfEquality.ShorterSampleMatchesLonger | torch/csrc/api/src/data/ctf/ctf_parser.cpp:536-542 | a sample without values equals a same-named sample with values, while the reverse comparison reads past the shorter list |
| CtfEquality.EmptyDatasetMatchesAll | torch/csrc/api/src/data/ctf/ctf_parser.cpp:552-559 | an empty dataset compares equal to every dataset |
| Distributed.CeilDiv | torch/utils/data/distributed.py:39 | num_samples is the least count whose multiple of num_replicas covers the dataset |
| Distributed.Range | torch/utils/data/distributed.py:50 | `list(range(n))` holds 0 .. n-1 in order |
| Distributed.SliceBound | torch/utils/data/distributed.py:58 | a slice bound lands inside the list, and a bound already inside stays where it is |
| Distributed.Slice | torch/utils/data/distributed.py:58 | `xs[start:stop:step]` takes exactly the positions start, start+step, ... below stop, clamped as Python does |
| Distributed.PositionInSlice | torch/utils/data/distributed.py:58 | position p is the (p / step)-th element of the slice that starts at p % step |
| Distributed.Padded | torch/utils/data/distributed.py:54 | padding keeps the list as a prefix and appends its own first elements, as many as are missing up to the total and no more than the list has |
| Distributed.Shard | torch/utils/data/distributed.py:58 | every index in a rank's share is taken from the padded list |
| Distributed.DistributedSampler.constructor | torch/utils/data/distributed.py:26-41 | the sampler keeps its arguments, starts at epoch 0, and sets num_samples to the ceiling of n / num_replicas and total_size to num_samples * num_replicas |
| Distributed.DistributedSampler.Iter | torch/utils/data/distributed.py:43-61 | it succeeds exactly when both assertions hold, and then yields this rank's share of the padded list, of length len() |
| Distributed.DistributedSampler.Len | torch/utils/data/distributed.py:63-64 | len() times num_replicas is total_size |
| Distributed.DistributedSampler.SetEpoch | torch/utils/data/distributed.py:66-67 | the epoch is replaced |
| Distributed.PaddingReachesTotalIff | torch/utils/data/distributed.py:54-55 | padding reaches total_size exactly when the shortfall is no longer than the list |
| Distributed.PaddingSucceedsWithEnoughItems | torch/utils/data/distributed.py:39-55 | with at least num_replicas - 1 items, the padding assertion always holds |
| Distributed.PaddingFailsForOneItemOverThree | torch/utils/data/distributed.py:39-55 | one item over three replicas pads to length 2, not to the total of 3, so the assertion fails |
| Distributed.ShardLength | torch/utils/data/distributed.py:58-59 | a rank's share has num_samples elements exactly when the rank is below num_replicas or num_samples is 0 |
| Distributed.IterSucceedsIff | torch/utils/data/distributed.py:39-59 | for a non-negative rank, both assertions hold exactly when the shortfall is no longer than the dataset and either the rank is below num_replicas or the dataset is empty |
| Distributed.ShardElement | torch/utils/data/distributed.py:58 | the k-th element of a rank's share is the padded element at rank + k * num_replicas |
| Distributed.SharesDisjoint | torch/utils/data/distributed.py:58 | two different ranks below num_replicas never take the same padded position |
| Distributed.SharesCover | torch/utils/data/distributed.py:58 | every padded position is taken by rank p % num_replicas, as its (p / num_replicas)-th element |
| Distributed.SequentialPadding | torch/utils/data/distributed.py:50-54 | without shuffling, padded position p holds p below n and p - n above it, so every index is a valid dataset index |
| Distributed.ShareDrawsFromOrder | torch/utils/data/distributed.py:47-58 | every index a rank receives is one of the index list's entries |
| Distributed.DistributedChunkSampler.constructor | torch/utils/data/distributed.py:135-145 | the sampler keeps its arguments and starts at epoch 0 |
| Distributed.DistributedChunkSampler.Iter | torch/utils/data/distributed.py:147-160 | it fails exactly when num_replicas is 0, and otherwise yields `indices[rank:num_chunks:num_replicas]` |
| Distributed.DistributedChunkSampler.SetRank | torch/utils/data/distributed.py:165-173 | a rank is accepted exactly when 0 <= rank < num_replicas, and a refused rank leaves the sampler as it was |
| Distributed.DistributedChunkSampler.SetEpoch | torch/utils/data/distributed.py:175-176 | the epoch is replaced |
| Distributed.SequentialChunks | torch/utils/data/distributed.py:153-159 | without shuffling a rank receives only its own rank number, or nothing when it equals num_replicas |
| Distributed.ShuffledChunk | torch/utils/data/distributed.py:153-159 | with shuffling, the k-th chunk of a rank is the permutation's entry at rank + k * num_replicas |
| Distributed.ShuffledChunksDisjoint | torch/utils/data/distributed.py:153-159 | with shuffling, two different ranks below num_replicas never read the same chunk |
| Distributed.ShuffledChunksCover | torch/utils/data/distributed.py:153-159 | with shuffling, every chunk is read by rank p % num_replicas |
| Distributed.ShuffledRankAtReplicasOverlaps | torch/utils/data/distributed.py:137-159 | with shuffling and more chunks than replicas, the rank num_replicas that the constructor accepts reads rank 0's second chunk as its first, so shares overlap |

## Left out

- File reading (`Reader`, `ReadLine`, `CanRead`, `FileSize`) is not part of this model. `LoadSamples` takes the file as a sequence of lines, and the file size is a constructor parameter of the parser.
- CtfNumbers.Stod: numbers are kept as exact rationals rather than doubles, a deliberate idealisation that differs from the source on inputs the parser accepts. A value text beyond the double range (a `1` followed by 309 zeros and `.0`) or one that underflows makes `std::stod` throw `std::out_of_range`, while the model returns the exact number. NaN and the exponent and hexadecimal forms of `std::stod` cannot occur, because tokens only hold digits, signs, points and `:`.
- CtfEquality.ValueEq: compares the exact numbers, while the source compares doubles. Decimal fractions such as `0.1` are rounded in the source, and integers above 2^53 read by `std::stoll` are rounded when stored as a double. So the tokens `9007199254740993` and `9007199254740992` give equal values in the source and unequal ones in the model.
- `PrintData`, the `operator<<` overloads and the `CTF_DEBUG` tracing only print, so they are not modelled.
- Memory management (`new`/`delete` of the buffer, the reader and the dataset) is not modelled. The `CTFDataset(filename)` construction, which no declared constructor matches, is not modelled either.
- The `GetSequenceId` overload with one parameter, declared in the header and never defined, is not modelled.
- CtfScan.CommentEnd: the source keeps reading after the NUL when a comment on a line without CR/LF runs to the end. The model stops at the end of the line instead, because reading past the buffer is undefined behaviour.
- CtfParser.Parser.LoadSamples: requires that lines hold no NUL and fit the buffer. The reader delivers lines without NUL, but it writes a line into the buffer without a bound, so the length limit is an assumption: a longer line would overflow the 1 MiB buffer.
- CtfEquality.DatasetEq: it requires that the walk stays inside the right-hand map. Reading past it is undefined behaviour in the source, so the comparison has no defined result there. The same holds for the other `WalkDefined` preconditions of the equality functions.
- The typed assembly into named feature and label streams with declared dimensions is not part of this model.
- `torch.distributed` (`is_available`, `get_world_size`, `get_rank`) supplies the defaults for `num_replicas` and `rank`. Both are explicit constructor parameters here.
- `torch.Generator` and `torch.randperm` are left out: the permutation for an epoch is a parameter of `Iter`. So the model does not capture that the same epoch gives the same order.
- Distributed.CeilDiv: `math.ceil` of a float division is replaced by integer ceiling division. The two differ only for datasets beyond 2^53 items.
- Distributed.DistributedSampler.constructor: requires num_replicas > 0. The source raises ZeroDivisionError for 0 and computes odd sizes for negative values, which are not modelled.
- Distributed.IterSucceedsIff: states the success condition for non-negative ranks only. A negative rank is still modelled by `Iter` through Python's negative slice bounds.
- `DistributedChunkSampler.__len__` only raises NotImplementedError, so it is not modelled. `ChunkDataReader` is an abstract interface with no behaviour.
- Distributed.DistributedChunkSampler.constructor: its assertions are preconditions. A failed assertion raises before the object exists, so no state needs modelling.
