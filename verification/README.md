# Personalised PageRank over an edge list, modelled in Dafny

The system is two scripts joined by a pipe.

- **`mapper.py`** reads tab-separated edge lines `from<TAB>to`. It skips `#` comments and groups the targets under their source token. Tokens are kept as text. Keys keep the order in which they first appear, targets keep their arrival order, and duplicates are kept. It prints one line `key [t1, t2, ...]` per key.
- **`reducer.py`** reads those lines back into a dictionary from integer ids to successor lists. It runs a personalised PageRank iteration over that dictionary and lists the scores as `(score, node)` pairs in descending order.

The model covers:

- the grouping loop and the printed lines of the mapper;
- the `pagerank` function: sizing, seeding, the Jacobi round over a snapshot with its five terms, the L1 change, and the stopping rule;
- the reducer's line parser;
- the descending ranking;
- the chain from mapper output to reducer input.

Scores are exact `real` numbers. Each Python exception the core can raise is an `Err` value:

- a malformed edge line;
- `max()` over an empty graph;
- `1/m` with no sources;
- a source index past the vector;
- the `weight/(n-m)` division by zero;
- a reducer line without a space, which `key, value = line.split(" ", 1)` cannot unpack;
- `int()` rejecting a field or an id.

Files:

- `wrappers.dfy`: `Option` and `Result`.
- `pytext.dfy`: the Python string operations the scripts use, namely `strip`, `split`, `split(sep, 1)`, `replace`, `repr` of a string and `int()`.
- `mapper.dfy`: the grouping as a function. It also has the `EdgeGrouper` class, whose fields are the order-preserving `graph` dictionary that the script updates in place, and the `RunMapper` method with the script's two loops.
- `mapper_facts.dfy`: an independent reference grouping defined from the edge list, and the mapper's properties proved against it.
- `pagerank_model.dfy`: the iteration as functions (`Seeded`, `NewScore`, `Norm`) and ghost functions (`Round`, `RunFrom`, `Outcome`).
- `pagerank.dfy`: `pagerank` as imperative code over two arrays (`pagerank`, `personalisation`), with the snapshot copy, the nested key and successor loops, the `+=` accumulation and the early `break`. `Solve` is proved to return `Outcome`. `RunRound` visits the keys in an arbitrary order, so the proof also shows that the order does not matter.
- `pagerank_terms.dfy` and `pagerank_facts.dfy`: the properties of the terms and of the whole run.
- `driver.dfy`: the reducer's input parse and the `(score, node)` ranking.
- `pipeline.dfy`: a printed mapper line for decimal tokens parses back to the same id and list.

A line `id []` makes the reducer raise: `"[]".strip("[]").split(",")` is `[""]`, and `int("")` raises. See `Driver.EmptyListRejected`. The mapper never prints such a line, because every key it prints has at least one target.

## Model

| member | source | states |
|---|---|---|
| PageRank.LargestKey | reducer.py:61 | the returned id is a key and no key is larger, so `n` is one past the largest key |
| PageRankModel.MaxOf | reducer.py:61 | `max()` of a non-empty set of ids is a member that bounds every member |
| PageRankModel.Size | reducer.py:61 | `n - 1` is a key and every key is below `n`: each key indexes the vector |
| PageRankModel.Weight | reducer.py:65 | defines `weight`, the share `1/m` of each of the `m` listed sources |
| PageRankModel.Seeded | reducer.py:63-72 | defines the vector before the first round, which is also `personalisation`: `1/m` at every index listed in `sources`, 0 elsewhere |
| PageRank.SeedSources | reducer.py:63-72 | succeeds exactly when every listed source is below `n` (otherwise the index raises); then both vectors are `1/m` at each source and 0 elsewhere |
| PageRankFacts.SeededUpTo | reducer.py:63-72 | the first `k` seeded entries add up to `1/m` times the number of distinct sources below `k` |
| PageRankFacts.SeedTotal | reducer.py:63-72 | with distinct sources all inside the vector, the seeded vector sums to 1 |
| PageRankModel.IsDangling | reducer.py:78 | defines a dangling node: a key whose successor list is empty, the nodes the `dangling` list collects and that the `node in dangling` test at line 100 checks |
| PageRankModel.DanglingSum | reducer.py:78-79 | defines `previous_dangling_sum`: the snapshot scores of the keys whose list is empty, added up |
| PageRankTerms.DanglingUpToFrame | reducer.py:78-79 | the dangling sum reads only the previous scores of keys with empty lists |
| PageRankTerms.DanglingUpToNone | reducer.py:78-79 | with no key whose list is empty the dangling sum is 0 |
| PageRankTerms.DanglingUpToNonNegative | reducer.py:79 | a non-negative snapshot gives a non-negative dangling sum |
| PageRankModel.Base | reducer.py:84-96 | defines the part every key starts from in both branches: teleport `(1-alpha)/n` plus the dangling mass `alpha*dsum/n` |
| PageRankFacts.BaseNonNegative | reducer.py:85-86 | the teleport plus dangling part `(1-alpha)/n + alpha*dsum/n` is non-negative for `0 <= alpha <= 1` |
| PageRankModel.Live | reducer.py:90-94 | defines the successors that contribute: inside the vector, a key, and with a non-empty list; for any other the lookup or the division raises and the bare `except` skips it |
| PageRankModel.LinkTerm | reducer.py:92 | defines one successor's term: `alpha` times its snapshot score over the length of its own list, or nothing when it is not live |
| PageRankModel.LinkSum | reducer.py:90-94 | defines the link terms of the node's list added in list order, one per occurrence |
| PageRank.AddLinks | reducer.py:90-94 | the node's entry grows by the link terms of its own list, one per occurrence, and no other entry changes |
| PageRankTerms.LinkSumAppend | reducer.py:90-94 | the link sum of a concatenated list is the sum of the parts: each occurrence counts on its own |
| PageRankTerms.Duplicate | reducer.py:90-94 | a successor listed twice contributes its term twice |
| PageRankTerms.LinkSumSkipped | reducer.py:91-94 | successors that are not keys, have empty lists or lie past the vector contribute nothing, and no error escapes |
| PageRankTerms.LinkSumNonNegative | reducer.py:90-94 | with `alpha >= 0` and a non-negative snapshot the link sum is non-negative |
| PageRankModel.Ordinary | reducer.py:103-105 | defines the keys that reach the final `else` branch: a key that is not a source and whose list is not empty |
| PageRankModel.Admissible | reducer.py:103-105 | defines when the `weight/(n-m)` division is defined: no ordinary key exists, or `n` differs from `m` |
| PageRankModel.CategoryTerm | reducer.py:97-105 | defines the category share: a source takes `(1-alpha)*p + alpha*dsum*p`; else a dangling key takes `(1-alpha)*weight/m + alpha*dsum*weight/m`; else `weight/(n-m)` in place of `weight/m` |
| PageRank.AddCategory | reducer.py:97-105 | fails exactly at an ordinary key when `n == m` (division by zero); otherwise adds the category term chosen source, then dangling, then ordinary, and nothing else changes |
| PageRankTerms.SourceShare | reducer.py:97-99 | a source takes `((1-alpha) + alpha*dsum)/m`, whether or not its list is empty |
| PageRankTerms.DanglingShare | reducer.py:100-102 | a dangling non-source takes `((1-alpha) + alpha*dsum)/(m*m)` |
| PageRankTerms.OrdinaryShare | reducer.py:103-105 | any other key takes `((1-alpha) + alpha*dsum)/(m*(n-m))` |
| PageRankFacts.SourcesFewer | reducer.py:103-105 | distinct in-range sources plus one key outside them means `m < n`, so `n - m` is positive wherever the ordinary share is reached |
| PageRankFacts.CategoryNonNegative | reducer.py:97-105 | each of the three shares is non-negative for `0 <= alpha <= 1`, distinct sources and a non-negative dangling sum |
| PageRankModel.Hits | reducer.py:106 | defines the number of entries of the node's list that are source ids, counted once per entry of `sources`, so a source listed twice counts twice |
| PageRankModel.Correction | reducer.py:106 | defines the source-link correction `alpha*p*(1 - hits/(len or 1))/m`, with `len or 1` keeping an empty list from dividing by zero |
| PageRank.AddCorrection | reducer.py:106 | the node's entry grows by `alpha*p*(1 - hits/(len or 1))/m`, and no other entry changes |
| PageRankTerms.CorrectionNonSource | reducer.py:106 | the correction is 0 for every key that is not a source |
| PageRankTerms.CorrectionEmptyList | reducer.py:106 | for an empty list the `or 1` gives the whole `alpha*p/m`, with no division by zero |
| PageRankTerms.HitsEmpty | reducer.py:106 | an empty list has no hits |
| PageRankTerms.HitsCount | reducer.py:106 | with distinct sources, `hits` is the number of list entries that are source ids |
| PageRankTerms.CountInAdd | reducer.py:106 | counting entries from one more id adds that id's occurrences |
| PageRankTerms.CorrectionBounds | reducer.py:106 | with distinct sources the correction lies between 0 and `alpha*p/m` |
| PageRankModel.NewScore | reducer.py:83-106 | defines a key's score after a round, read from the snapshot: the base part, the link sum when its list is non-empty, its category share and its correction |
| PageRank.ScoreNode | reducer.py:83-106 | fails exactly at an ordinary key when `n == m`; otherwise the key's entry becomes its new score from the snapshot, and no other entry changes |
| PageRankFacts.NewScoreNonNegative | reducer.py:83-106 | a non-negative snapshot gives every key a non-negative new score |
| PageRank.RunRound | reducer.py:77-106 | succeeds exactly when no ordinary key meets `n == m`; then the vector is one round of the snapshot, whatever order the keys are visited in |
| PageRankModel.Round | reducer.py:77-106 | one round keeps the vector's length; `RoundAt` gives each entry |
| PageRankModel.RoundAt | reducer.py:83-106 | after a round, a key holds its new score and every other position keeps the snapshot's value |
| PageRankFacts.RoundKeeps | reducer.py:83 | a position that is not a key is not written by a round |
| PageRankFacts.RunFromKeeps | reducer.py:76-109 | a position that is not a key keeps its value through every round |
| PageRankFacts.Untouched | reducer.py:63-109 | in the returned vector, a non-key position holds `1/m` if it is a source and 0 otherwise |
| PageRankFacts.RoundNonNegative | reducer.py:83-106 | a round keeps a non-negative vector non-negative |
| PageRankModel.NormUpTo | reducer.py:107 | the partial L1 change is non-negative and is 0 exactly when the prefixes agree |
| PageRankModel.Norm | reducer.py:107 | the L1 change over all `n` positions is never negative |
| PageRankModel.NormZero | reducer.py:107 | the L1 change is 0 exactly when the two vectors are equal |
| PageRankFacts.ChangeOnKeys | reducer.py:107 | for vectors that agree off the keys, the L1 change is the change over the keys |
| PageRankFacts.RoundChange | reducer.py:107 | positions that are not keys add nothing to a round's L1 change |
| PageRankModel.RunFrom | reducer.py:76-109 | the loop keeps the vector length, ends within `maximum_iterations` rounds, and runs at least one more round while one is allowed |
| PageRankFacts.RunFromRounds | reducer.py:76-109 | the loop returns the vector after exactly the number of rounds it ran |
| PageRankFacts.RunFromContinued | reducer.py:107-109 | every round before the last one run changed the vector by at least `tolerance` |
| PageRankFacts.RunFromBroke | reducer.py:107-109 | a loop that stopped before `maximum_iterations` stopped on a change below `tolerance` |
| PageRankFacts.RunFromNonNegative | reducer.py:76-109 | the loop keeps a non-negative vector non-negative |
| PageRankModel.Outcome | reducer.py:60-110 | a returned vector comes from a non-empty graph and has length `n = max(key)+1` |
| PageRankFacts.OutcomeOk | reducer.py:60-110 | a run returns only with a non-empty graph and in-range sources, and with every share defined when a round runs; the vector has length `n` |
| PageRankFacts.NoRounds | reducer.py:76 | with `maximum_iterations < 1` the seeded vector is returned |
| PageRankFacts.RoundsRun | reducer.py:76-109 | a run does `k` rounds from the seeded vector, with `1 <= k <= maximum_iterations`, and returns the vector after them |
| PageRankFacts.RoundsContinued | reducer.py:107-109 | every round before the last one run changed the vector by at least `tolerance` |
| PageRankFacts.RoundsBroke | reducer.py:107-109 | a run that stops before `maximum_iterations` stopped on a round whose change was below `tolerance` |
| PageRankFacts.ZeroToleranceRunsAll | reducer.py:108-109 | with a tolerance that is not positive every allowed round runs |
| PageRankFacts.ScoresNonNegative | reducer.py:60-110 | with `0 <= alpha <= 1` and no source listed twice, every returned score is non-negative |
| PageRank.Iterate | reducer.py:76-109 | the round loop with its snapshot and `break` returns the loop's vector, or raises the division by zero in its first round |
| PageRank.Solve | reducer.py:60-110 | the whole function returns exactly `Outcome`: the vector, or the exception the inputs raise |
| PyText.TrimLeft | reducer.py:120 | the result is a suffix of the text, every dropped character is in the set, and the result does not start with one |
| PyText.TrimRight | reducer.py:120 | the result is a prefix of the text, every dropped character is in the set, and the result does not end with one |
| PyText.Strip | reducer.py:120 | `strip()` leaves no whitespace at either end |
| PyText.TrimFixed | reducer.py:120 | text with nothing to strip at either end is its own strip |
| PyText.SplitOnce | reducer.py:121 | `split(" ", 1)` gives one part exactly when there is no blank; otherwise it gives the text before the first blank and the rest |
| Driver.SplitOnceAt | reducer.py:121 | a blank-free key, a blank and the rest split into exactly the key and the rest |
| PyText.StripBrackets | reducer.py:122 | `strip("[]")` leaves no bracket at either end |
| PyText.Split | reducer.py:122 | `split(",")` gives at least one part, none containing a comma, and the parts joined by commas are the text |
| PyText.SplitJoin | reducer.py:122 | splitting comma-free parts joined by commas gives the parts back |
| PyText.SplitNoSeparator | reducer.py:122 | text without the separator splits into itself alone |
| PyText.SplitPrefix | reducer.py:122 | a separator-free prefix followed by the separator becomes the first part |
| PyText.ParseInt | reducer.py:122 | defines `int()` of a string: surrounding whitespace stripped, an optional sign, then ASCII digits with single underscores between digits; anything else is rejected |
| PyText.ParseDigits | reducer.py:121-122 | `int()` of decimal digits with blanks around them is their value |
| PyText.ParseBlank | reducer.py:122 | `int()` of blank text raises |
| PyText.DecimalValue | reducer.py:121-122 | the decimal digits of `n` have the value `n` |
| PyText.ParseDecimal | reducer.py:121-122 | `int()` reads the decimal text of `n` back as `n` |
| Driver.FirstFailure | reducer.py:122 | the list comprehension either gives every field's value in order, or fails at the first field `int()` rejects |
| Driver.FirstFailureOk | reducer.py:122 | when `int()` accepts every field the list holds exactly their values |
| Driver.ListFields | reducer.py:122 | defines the list text's fields: `value.strip("[]").split(",")` |
| Driver.ParseList | reducer.py:122 | the comprehension gives, in order, the `int()` value of each comma field; or it names a field `int()` rejects, every field before which `int()` accepts, so it is the first rejected one |
| Driver.ParseLine | reducer.py:120-122 | a line without a blank after stripping raises on unpacking, and only such a line does; a parsed line has at least one successor; a rejected field is reported before the id, because the list is built before `int(key)` runs, so a bad id is reported only when every field parses; a parsed line holds `int()` of the text before the first blank as its id and `ParseList` of the rest as its list |
| Driver.FieldBeforeId | reducer.py:122 | the line `x [y]`, where both the id and the field are bad, raises on the field |
| Driver.EmptyListRejected | reducer.py:122 | `id []` raises, because the one field `""` is not an integer |
| Driver.ParseGraph | reducer.py:119-122 | defines the dictionary the driver builds: each line parsed on its own, then `Collect` of the results in line order |
| Driver.Collect | reducer.py:119-122 | a failure names a line whose parse failed, with that line's error |
| Driver.CollectLast | reducer.py:122 | the ids are exactly those of the lines, and each maps to the list of the last line that names it |
| Driver.CollectFails | reducer.py:119-122 | the first line that fails decides the error |
| Driver.CollectOk | reducer.py:119-122 | lines that all parse give a dictionary |
| Driver.CollectKeys | reducer.py:119-122 | lines that parse to ids `keys` give a dictionary whose ids are exactly the `keys`, each with the list of the last line naming it |
| Driver.CollectPrefixOk | reducer.py:119-122 | if the first `k` lines build a dictionary, each of them parsed |
| Driver.ReadGraph | reducer.py:119-122 | the reading loop builds the same dictionary, or fails at the same line, as the parse of the whole input |
| Driver.Above | reducer.py:125 | defines Python's tuple order on `(score, node)`: the higher score first, and on equal scores the higher node, as `reverse=True` sorts |
| Driver.Entries | reducer.py:125 | defines the `(score, node)` pairs that `enumerate(pagerank)` yields, one per index in index order |
| Driver.Insert | reducer.py:125 | insertion adds exactly one entry to the multiset |
| Driver.InsertDescending | reducer.py:125 | inserting a new entry into a descending list keeps it descending |
| Driver.Ranked | reducer.py:125 | the ranking is a permutation of the `(score, node)` pairs |
| Driver.RankedEntries | reducer.py:125 | every ranked pair holds a node of the vector and that node's score |
| Driver.RankedDescending | reducer.py:125 | the ranking is in descending `(score, node)` order |
| Driver.RankedCoversNodes | reducer.py:125 | every index of the vector appears exactly once, with its own score |
| Driver.HeadIsTop | reducer.py:125 | the head of a descending list is above every other entry |
| Driver.SameTail | reducer.py:125 | two permutations with the same head have tails that are permutations |
| Driver.DescendingUnique | reducer.py:125 | two descending permutations of each other are equal |
| Driver.RankedIsTheSortedOrder | reducer.py:125 | any descending permutation of the pairs is the ranking: `sorted(..., reverse=True)` has one answer |
| Mapper.IsComment | mapper.py:10-11 | defines a comment line: after `strip()` it begins with `#` |
| Mapper.Classify | mapper.py:10-13 | defines a line's kind after stripping: a comment when it starts with `#`, an edge of its two fields when it splits on tab into two, otherwise malformed with its field count |
| Mapper.ClassifyMeaning | mapper.py:10-13 | after stripping, a `#` line is a comment; any other line is an edge exactly when it has two tab fields, namely the texts around its only tab |
| MapperFacts.ClassifyEdgeLine | mapper.py:10-13 | two tab-free tokens joined by a tab form an edge of those tokens |
| Mapper.AddEdge | mapper.py:14-17 | defines one edge's update: a new source is appended to the key order with the list `[to]`, a known source gets `to` appended to its list |
| Mapper.AddEdgeWellFormed | mapper.py:14-17 | one edge keeps the keys distinct, keeps the keys and the order in step, and leaves no list empty |
| Mapper.Group | mapper.py:9-17 | folding the classified lines gives a well-formed grouping (distinct keys in order, every key with a non-empty list), or an error naming one of the lines |
| Mapper.GroupLines | mapper.py:9-17 | a grouping has distinct keys in order and no empty list; a failure names a line of the input |
| Mapper.ErrorPersists | mapper.py:13 | once a prefix has failed, the whole input fails with the same error |
| Mapper.EdgeGrouper.constructor | mapper.py:5 | the dictionary starts empty |
| Mapper.EdgeGrouper.Add | mapper.py:14-17 | a new key is appended with the one-element list `[to]`; a known key gets `to` appended; the dictionary stays well formed |
| Mapper.EdgeGrouper.Emit | mapper.py:21-23 | one formatted line per key, in key order |
| Mapper.Output | mapper.py:21-23 | defines the printed lines: one `FormatLine` per key, in insertion order |
| Mapper.MapperOutput | mapper.py:9-23 | defines the script's result: the printed lines of the grouping, or the error of the first malformed line, in which case nothing is printed |
| Mapper.RunMapper | mapper.py:9-23 | the script's two loops print exactly `MapperOutput`, or stop at the first malformed line |
| Mapper.FormatLine | mapper.py:22-23 | the line is the key, a blank and a bracketed list, and holds no quote after the key |
| MapperFacts.FirstAppearance | mapper.py:14-15 | the distinct elements, each listed once |
| MapperFacts.FirstAppearanceOrder | mapper.py:14-15 | the distinct elements come in the order of their first occurrences, the insertion order of the `graph` dictionary |
| MapperFacts.GroupLinesIsReference | mapper.py:9-17 | grouping succeeds exactly when no line is malformed; then keys are the source tokens in order of first appearance, and each key's targets are its edges' targets in arrival order, duplicates kept |
| MapperFacts.ErrorIsFirstMalformed | mapper.py:13 | a failure reports the first malformed line and its field count |
| MapperFacts.TotalTargets | mapper.py:13-17 | the lists hold as many targets as the input has non-comment lines |
| MapperFacts.MapperOutputMeaning | mapper.py:21-23 | one printed line per distinct source token in order of first appearance, each with that token's targets |
| MapperFacts.ClassifyBlank | mapper.py:10-13 | an empty line is no comment and splits into one field, so it is malformed |
| MapperFacts.BlankLineFails | mapper.py:13 | a blank line has one field and stops the run |
| MapperFacts.EdgeLineExtends | mapper.py:13-17 | an edge from a new text becomes a new last key with `[t]`; from a known text it appends `t`; `01` and `1` are different keys |
| PyText.RemoveChar | mapper.py:22 | `replace("'", "")` removes every quote and keeps every other character |
| PyText.RemoveCharAppend | mapper.py:22 | removal works piecewise over concatenation |
| PyText.RemoveCharAbsent | mapper.py:22 | text without quotes is unchanged |
| PyText.Join | mapper.py:22 | defines joining parts with a separator, as `str` of a list joins the `repr`s of its items with `", "` |
| PyText.Escape | mapper.py:22 | defines the escapes modelled for `repr` inside the quotes (see "## Left out"): a backslash before a backslash or the chosen quote, and `\t`, `\n`, `\r` for tab, newline and carriage return |
| PyText.Repr | mapper.py:22 | `repr` of a string is wrapped in matching quotes, double quotes only when the text has a single quote and no double quote |
| PyText.EscapePlain | mapper.py:22 | digits need no escaping |
| Pipeline.ReprDigits | mapper.py:22 | a digit token prints as the token between single quotes |
| Pipeline.Unquoted | mapper.py:22 | removing the quotes from the joined reprs leaves the tokens joined by `", "` |
| Pipeline.UnquotedList | mapper.py:22 | the printed list of digit tokens is `[` + the tokens joined by `", "` + `]` |
| Pipeline.FieldsSplit | reducer.py:122 | the reducer's comma split of a printed list gives the first token, then each later token with one leading blank |
| Pipeline.FieldsParse | reducer.py:122 | `int()` accepts every such field and gives the tokens' values in order |
| Pipeline.LineRoundTrip | reducer.py:120-122 | a mapper line for a decimal key and decimal targets parses back to the key's value and the targets' values, in order and with repeats |
| Pipeline.OutputLinesParse | mapper.py:21-23 | each line the mapper prints for digit tokens parses to its key's value and its list's values |
| Pipeline.OutputRoundTrip | reducer.py:119-122 | every mapper output line parses; the ids are the keys' values, and each key's list is kept unless a later key has the same value |

## Left out

- Reading standard input and printing to standard output are left out. Both scripts are functions from a sequence of lines to a sequence of lines, or to the dictionary.
- The `%.5f` formatting of the report is left out. Scores are exact reals, so nothing is claimed about float rounding, printed digits or convergence speed.
- The source list `[367, 249, 145]` hard-coded in the driver is a parameter of `Solve`.
- The driver's call `pagerank(graph, sources)` (reducer.py:123-124) is not modelled as one member. `Driver.ParseGraph` yields a dictionary from `int` ids to `int` lists, while `PageRank.Solve` takes `nat` ids. The model covers that call only when every parsed id and every successor is non-negative; a negative one would index from the end of the Python list, which is not modelled.
- The bare `except` around the link term is replaced by the explicit guard `Live`: the successor is below `n`, is a key, and has a non-empty list. For well-formed ids this is the set of cases where the `except` does not fire.
- Negative ids are excluded: ids are `nat`. So Python's negative indexing and the `IndexError` it avoids are not modelled.
- The docstring of `pagerank` mentions incoming links and tuple results. The model follows the code, which uses successor lists and returns a plain list.
- `PyText.Escape` escapes `\`, the quote in use, tab, newline and carriage return only. Other non-printable characters keep their own text instead of the `\xNN`/`\uNNNN` escapes `repr` writes.
- `PyText.Repr` covers the quote choice and the escaping of `\`, quotes, tab, newline and carriage return. Other non-printable characters keep their own text.
- `PyText.ParseInt` accepts ASCII digits with single underscores, an optional sign and surrounding whitespace. Unicode digits are not modelled.
- `PyText.IsSpace` lists the code points `str.strip()` removes. No other Unicode handling is modelled.
- `Pipeline.OutputRoundTrip` covers only tokens that are decimal digits. Other tokens can make the reducer raise; `Driver.ParseLine` gives those errors.
