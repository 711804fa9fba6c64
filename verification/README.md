# Probe: verification of the differential-fuzzing evidence chain

A Dafny 4.11 model of Probe's differential-fuzzing evidence and of the packages around it, with
proofs. `dafny verify dfyconfig.toml` checks the whole project.

Probe renders an observation harness for the changed functions of a pull request and runs it on the
baseline and on the candidate, up to twice each. The harness evaluates every input twice and writes
one record an input; its process may time out, be poisoned, exit early or die at any byte. The host
normalizes the stream, checks it a second time, and compares up to four of them into DIVERGED,
NOT_DIVERGED or INCONCLUSIVE. The model follows that chain from bytes to outcome, in both stream
formats and for all three languages.

Main results:

- **Soundness and completeness** (`EndToEnd`, `Lossy`, `Stored`): whatever the four processes did, at
  whichever byte they died and whichever of their writes failed, DIVERGED, derived from the texts that are
  kept, means that the two revisions gave different, repeated encodings at every listed input; for
  deterministic revisions that run to completion the outcome is DIVERGED or NOT_DIVERGED exactly as their
  recorded hashes and lengths differ. Of the hash only functionality is used.
- **Language equality** (`Language`, `Capture`, `Realized`): the record automaton accepts exactly the
  nonempty line-prefixes of runs, byte for byte, where the data of an observation are any that pass its
  check, and gives every function the state of that run. Over real outcomes: the accepted streams whose
  observations are of encodings are exactly the prefixes of what two evaluations of every input write,
  and every other accepted stream differs from one of those only in hashes and displays.
- **Two acceptors, one text** (`Validator`, `Agreement`, `Document`, `Stored`): they accept the same
  streams up to displays. With redaction by the URL-credential rule, whose matches cannot reach across the
  strings of the stored text, what is accepted is always stored, loses nothing and is read back as it was.
- **The comparison rule** (`Divergence`, `Compare`, `Evaluator`, `Gates`): every input is counted once, and
  the in-place sort and overlapping rotation give the stated counterexample. DIVERGED and NOT_DIVERGED are
  characterized by the checks alone, with every gate a run must pass, and each reason is true of its checks.
- **The channel** (`Channel`, `Rendering`): every run fits the payload channel in bytes; halving a
  harness keeps prefixes of its planned inputs, and what each attempt gives is stated exactly.
- **Corpus, plan and stage** (`Corpus`, `Attempts`, `Literals`, `Ordering`, `Plan`, `Stage`, `Reported`): the
  prefix law, what a corpus that is not full has tried, literals that evaluate to their text, the shares of
  a plan from both sides, conservation of targets from selection to report, and the reports themselves:
  a function is reported as DIVERGED if and only if its four checks show a reproduced difference.
- **TS/JS modules through a printer** (`ScriptText`, `ScriptSources`, `ScriptItems`, `ScriptModules`,
  `ScriptExports`): a source written as tokens with blanks and comments between them is tokenized as written,
  and a module written as declarations, bindings, statements and export lists parses to exactly the exported
  functions that are written there. Before that, budget transparency (`ScriptParse`, `ScriptLex`, with the
  methods in `ScriptParser` and `ScriptLexer`): the bounds of tokenizer and parser are invisible whenever no
  cut is reported.
- **The cache** (`Cache`, `CacheStore`, `Served`): what each operation answers, and over every interleaving of
  operations, failures and outside changes; agreement with a simple map; the shortest oldest-first trim.
- **Coverage** (`Frame`, `Blocks`, `Profiles`, `Coverage`, `Reports`, `LcovReports`, `Analysis`, `Measured`): a
  frame or report cut short is refused, a written report of either format is read as written, merging keeps
  verdicts, no added line is lost, and each is counted from the rows about it.
- **Acceptance criteria** (`Markers`, `Markdown`, `Patterns`, `Criteria`, `Intent`, `Words`): the line functions
  against their regular expressions, the scope automaton against its declarative meaning, the document
  from its lines, marker removal as a fixpoint, the word set against the search.

The code is followed where its own comments say otherwise, or where it misses what it is for. Three such
places are proved, each at inputs of the code and with its exact condition:

- `app/internal/fuzz/stream.go:302-308` says that a display which redaction changed always holds a
  marker. A redaction may outgrow the display bound, and the cut then takes the marker off again; the
  display passes for the whole encoding exactly under `Shown.Outgrows` (`Shown.WholeExact`), as it does
  for addresses with credentials (`Shown.AddressesMislead`), and never while the redacted text is within
  the bound.
- `app/internal/coverage/profile.go:89-93` says that summing cannot turn an executed block into an
  unexecuted one. Go counts are added unsaturated in 64 bits, so it can when a total leaves them
  (`Coverage.GoVerdictExact`, and `Reports.GoVerdictLost` for texts); for LCOV it cannot.
- `app/internal/fuzz/scripts.go:355-376` counts the lines of a TS/JS source, but not a line break that a
  regular expression literal holds after a backslash: the lines that follow are reported one too low
  (`ScriptLines.LineLost`), exactly then (`ScriptLines.LineExact`).

Code that changes state is a class or a method with its loops (`Emitter.Process`, `CacheStore.Store`,
`ScriptParser.Parser`, `Normalizer.Normalize`, `Evaluator.Evaluate`, the readers and the loops over
arrays), each proved against a function about which the results are lemmas. Byte strings are Dafny
strings with one character a byte. Clocks, I/O failures, the runner, the hash, Unicode tables and
redaction are parameters; of redaction the rule for credentials in a URL is also modelled (`Credentials`).

## Model

| member | source | states |
|---|---|---|
| `Utf8.ValidConcat` | app/internal/fuzz/render.go:741-753 | validity of a concatenation is validity of its second part when the first is valid: the ground of every cut and every printed record |
| `Utf8.CutIsLongest` | app/internal/fuzz/render.go:745-752 | the cut keeps the longest valid prefix of at most the bound; no longer prefix within it is valid text |
| `Utf8.RepairedIsValid` | app/internal/fuzz/render.go:744 | the repair of invalid bytes gives valid text and leaves valid text as it is |
| `Utf8.CutAtBoundary` | app/internal/fuzz/render.go:748-752 | valid text is cut exactly at the last character boundary within the bound |
| `Utf8.CutAscii` | app/internal/fuzz/py_render.go:711-716 | on the ASCII encodings of the script runners the cut is a plain slice |
| `Records.DisplayValue` | app/internal/fuzz/stream.go:286-300 | a stored display is within its bound and valid text, whatever redaction made of it |
| `Json.ScanIntOfItoa` | app/internal/fuzz/stream.go:312-361 | a printed number is read back, whatever non-digit follows |
| `Json.ItoaInjective` | app/internal/fuzz/stream.go:312-361 | two numbers never print the same |
| `Json.JsonQuote` | app/internal/fuzz/stream.go:365-386 | the byte loop prints the quoted form: quote, backslash and control bytes escaped, every other byte copied |
| `Json.ScanQuotedOfQuote` | app/internal/fuzz/stream.go:365-386 | decoding a quoted string (section 7 of RFC 8259) gives the string and leaves what followed it |
| `Json.QuoteIsValid` | app/internal/fuzz/render.go:716-739 | quoting valid text gives valid text |
| `Json.EscapeLength` | app/internal/fuzz/render.go:231-232 | a text without control bytes at most doubles inside the quotes |
| `Wire.ParseLineExact` | app/internal/fuzz/stream.go:310-361 | a line is read as a record if and only if it is the byte-exact canonical form of that record |
| `Wire.CanonInjective` | app/internal/fuzz/stream.go:310-361 | two records never share a canonical form |
| `Wire.LinesOfPayload` | app/internal/fuzz/stream.go:143-147 | splitting the payload at line breaks recovers exactly the lines written |
| `Wire.PayloadOfLines` | app/internal/fuzz/stream.go:143-147 | the lines of any text write it again: splitting loses nothing |
| `Emitter.Encoder.W` | app/internal/fuzz/render.go:430-453 | the bounded encoder: what it holds is the longest run of whole pieces within 64 KiB, and it says so when it dropped one |
| `Emitter.JudgeProducible` | app/internal/fuzz/render.go:768-806 | whatever two evaluations do, what the harness writes of them has the shape the host demands |
| `Emitter.Process.Run` | app/internal/fuzz/ts_render.go:676-715 | one test of one process appends exactly the lines of that test, in either framing, and poisons the process exactly after a timeout |
| `Emitter.Process.Open` | app/internal/fuzz/ts_render.go:680-684 | the framing records that open a test: head and begin, or begin alone |
| `Emitter.Process.EvaluateInput` | app/internal/fuzz/render.go:771-805 | two evaluations of one input become one record with its repaired and cut display, or one stop record with its reason |
| `Emitter.Process.Evaluate` | app/internal/fuzz/py_render.go:693-719 | the loop over the inputs writes the records of all results up to the first that breaks |
| `Automaton.FoldSound` | app/internal/fuzz/stream.go:152-238 | the automaton keeps its invariant over any records: planned counts, consecutive indices, nothing open that cannot be |
| `Language.AcceptedIffPrefixOfRun` | app/internal/fuzz/stream.go:113-239 | for both formats: accepted if and only if a nonempty line-prefix of a run whose records, in order, indices, reasons and states, are those a harness writes (death at any line, timeouts and poisoning included), and whose hashes, lengths and displays are any that pass the check of an observation |
| `Language.AcceptedIsPrefix` | app/internal/fuzz/ts_stream.go:54-176 | the run behind an accepted sequence of records is constructed |
| `Language.StatesOfRun` | app/internal/fuzz/stream.go:159-238 | an accepted prefix gives every function exactly the state and the records of the run it was cut from |
| `Normalizer.Normalize` | app/internal/fuzz/stream.go:127-239 | the Go loop over bytes accepts exactly what the automaton accepts and returns its functions; the line limit is part of the loop |
| `Normalizer.NormalizeScript` | app/internal/fuzz/ts_stream.go:41-176 | the same for the loop with its own phases and closing records |
| `Normalizer.LimitNeverTrips` | app/internal/fuzz/stream.go:139-147 | the limit on the number of lines never refuses a stream that the record order would accept |
| `Normalizer.RunIsShort` | app/internal/fuzz/ts_stream.go:54-66 | no run of a harness writes more lines than the limit |
| `Normalizer.ReadsIsFold` | app/internal/fuzz/stream.go:152-156 | reading line by line is parsing all lines and then running the automaton |
| `Capture.NormalOfFile` | app/internal/fuzz/stream.go:127-250 | the file of well-formed records is accepted if and only if the automaton accepts the records |
| `Capture.AcceptedIsFile` | app/internal/fuzz/stream.go:113-126 | every accepted payload is the file of its own records: nothing else is ever trusted |
| `Capture.AcceptedBytes` | app/internal/fuzz/stream.go:113-250 | the accepted payloads, byte for byte: the files of the nonempty line-prefixes of those runs, their data being any that pass the check of an observation |
| `Capture.CapturedPrefix` | app/internal/fuzz/stream.go:127-147 | a process that dies at any byte: what it left is accepted if and only if it ends with a complete line, and then says exactly what was written |
| `Lossy.LossIsRefused` | app/internal/fuzz/render.go:755-808 | when the writes of any tests of a process fail at any byte and later tests still run, what is left is refused or is, byte for byte, the front of what the run would have written |
| `Lossy.StartsAtLine` | app/internal/fuzz/render.go:757-768 | what begins like a record begins a line: no canonical record holds the beginning of another, whatever its strings hold |
| `Lossy.DeathIsLoss` | app/internal/fuzz/render.go:755-808 | a process that only dies, at whichever byte, is one whose last writes fail |
| `EndToEnd.CapturedIsLeft` | app/internal/fuzz/render.go:755-808 | what a process leaves that dies at any byte is among what processes leave whose writes fail |
| `Realized.AcceptedIffWritten` | app/internal/fuzz/render.go:755-808 | over real outcomes: the accepted streams whose observations are each of some encoding are exactly the nonempty line-prefixes of what two evaluations of every input make a harness write |
| `Realized.AcceptedIsRealized` | app/internal/fuzz/stream.go:152-238 | for every accepted stream there are two evaluations of every input that make the harness write the same records in the same order, with the same lengths and flags, and the same hash and display wherever one encoding has them |
| `Realized.AcceptedIffBytes` | app/internal/fuzz/stream.go:113-250 | the same byte for byte: the accepted payloads with such observations are exactly the files, ended at a line, of such runs |
| `Realized.BytesAreRealized` | app/internal/fuzz/stream.go:113-250 | every accepted payload is the file of records that some launch writes, but for the hash and the display of an observation that no encoding has |
| `Capture.RunLinesWellFormed` | app/internal/fuzz/render.go:755-808 | everything a run writes is a record the host can decode |
| `Capture.EndedIffDone` | app/internal/fuzz/ts_stream.go:120-176 | in a script stream a function is complete or stopped if and only if its done record was written |
| `Started.StartedTests` | app/internal/fuzz/ts_stream.go:188-207 | the loop counts the functions that started and whether the last of them was interrupted; a stream that does not pass counts as none |
| `Started.StartedIsHeads` | app/internal/fuzz/ts_stream.go:188-207 | of a process that died after any line, the tests counted are those that wrote their head record, and it ended inside a test if and only if one head has no done record |
| `Validator.Validate` | app/internal/fuzz/stream.go:428-508 | the second acceptor as a loop with its names, total and two flags accepts exactly the streams that satisfy the stated invariants |
| `Validator.TestNames` | app/internal/fuzz/stream.go:93-96 | the test names Render gives match the pattern and are distinct |
| `Validator.NormalizedValidates` | app/internal/fuzz/stream.go:421-508 | every stream the automaton builds, from any run cut at any line, passes the second acceptor |
| `Agreement.ValidatedIsRun` | app/internal/fuzz/stream.go:388-508 | the converse: a validated stream that describes the harness is, up to its displays, the stream of some run cut at some line |
| `Document.MarshalInjective` | app/internal/fuzz/stream.go:265-267 | two strings are never written alike, whatever is escaped in them |
| `Document.EncodeInjective` | app/internal/fuzz/stream.go:244-267 | the stored layout loses nothing: two documents, with missing or empty lists and with or without a runner, never have one text |
| `Document.EncodeSafe` | app/internal/fuzz/stream.go:247-264 | for the URL-credential rule: a match lies inside one string, so redaction leaves the whole text alone if and only if it leaves every string of it, as escaped, alone |
| `Stored.ValidatedExact` | app/internal/fuzz/stream.go:421-436 | a decoded document passes if and only if it is that of a stream that passes: version, scheme, runner, states and lists included |
| `Stored.ParsedExact` | app/internal/fuzz/stream.go:388-420 | for any redaction: a text is read as a stream if and only if it is the canonical text of that stream, the stream passes, and redaction leaves the text alone |
| `Stored.DecoderExists` | app/internal/fuzz/stream.go:404-412 | what is asked of the JSON decoder can be had, because the encoding loses nothing |
| `Stored.NormalValidates` | app/internal/fuzz/stream.go:245-250 | whatever payload was accepted, the second acceptor refuses nothing of it |
| `Stored.Store` | app/internal/fuzz/stream.go:240-250 | the end of Normalize, for any redaction: the functions become a text, refused if it cannot be read back |
| `Stored.StoredExact` | app/internal/fuzz/stream.go:240-250 | a payload has a stored text if and only if the order of its records is accepted, and the text is read back as exactly its stream |
| `Stored.CapturedIsStored` | app/internal/fuzz/stream.go:127-250 | of a process that died at any byte a stream is stored if and only if its bytes end with a complete line, and what is read back is the stream of its run at that line |
| `Stored.SoundnessOfTexts` | app/internal/fuzz/stream.go:388-420 | down to what is kept: whatever four processes left behind and whatever any redaction does, a DIVERGED derived from the kept texts means that the encodings of the revisions differ at every listed input |
| `Divergence.Sort` | app/internal/fuzz/compare.go:315-321 | the in-place stable sort by call length and index |
| `Divergence.ShiftRight` | app/internal/fuzz/compare.go:322-329 | the overlapping copy shifts the first elements one place to the right |
| `Divergence.Promote` | app/internal/fuzz/compare.go:322-329 | the first element whose displays differ moves to the front, the others keep their order |
| `Divergence.ListedIsChoice` | app/internal/fuzz/compare.go:312-331 | the list is a permutation; its head is the least whose displays differ, or the least of all when none does; the rest stays sorted |
| `EndToEnd.UsableStream` | app/internal/fuzz/compare.go:139-202 | a usable side shows the function of that name in a stream that passed the second acceptor, with the planned count, neither interrupted nor not started |
| `EndToEnd.CompleteHasAll` | app/internal/fuzz/compare.go:97-102 | a usable side whose function is complete has a record of every planned input |
| `Evaluator.SameCommand` | app/internal/fuzz/compare.go:373-385 | one identical nonempty command over the checks that are there |
| `Evaluator.SamePackage` | app/internal/fuzz/compare.go:386-394 | one package over the usable sides |
| `Evaluator.SameInputs` | app/internal/fuzz/compare.go:395-405 | records of one index tell of one call, over all usable sides |
| `Evaluator.IsConsistent` | app/internal/fuzz/compare.go:370-407 | the checks are one experiment if and only if command, package and inputs agree |
| `Evaluator.CountInputs` | app/internal/fuzz/compare.go:291-325 | the loop over the inputs counts each by its finding |
| `Evaluator.Evaluate` | app/internal/fuzz/compare.go:266-368 | the whole rule: refusals, counts, sorted and rotated list, counterexample, outcome and reason, in the order of the branches |
| `Evaluator.Accounting` | app/internal/fuzz/compare.go:24-36 | inputs = compared + unstable + unconfirmed + not recorded, and diverged <= compared, on every path |
| `Evaluator.TallyCounts` | app/internal/fuzz/compare.go:291-325 | each counter is the number of inputs with that finding; a confirmation is needed if and only if some input differs unflagged |
| `Evaluator.TallyDivergent` | app/internal/fuzz/compare.go:318-325 | the divergent list holds exactly the inputs that split |
| `EndToEnd.DivergedMeans` | app/internal/fuzz/compare.go:266-368 | DIVERGED if and only if the checks are one experiment and some input differs in the first pair with both records repeated in the second |
| `EndToEnd.CounterexampleChoice` | app/internal/fuzz/compare.go:312-333 | the counterexample is the least divergent input that shows its difference, if any does |
| `EndToEnd.NotDivergedMeans` | app/internal/fuzz/compare.go:342-344 | NOT_DIVERGED if and only if both first streams are complete, something was compared and no input separates the revisions |
| `EndToEnd.RecordTells` | app/internal/fuzz/stream.go:152-238 | a record of a usable side is what two finished evaluations of that input led to, wherever the process ended |
| `EndToEnd.Soundness` | app/internal/fuzz/compare.go:266-368 | whatever four processes did: DIVERGED means that at every listed input all evaluations repeated themselves and the revisions gave different encodings; of the hash only that it is a function |
| `EndToEnd.SoundnessOfBytes` | app/internal/fuzz/compare.go:266-368 | the same with each process dying at any byte and any of its writes failing at any byte, what it left normalized, checked and compared |
| `EndToEnd.Completeness` | app/internal/fuzz/render.go:755-808 | deterministic revisions run to completion: DIVERGED if and only if some recorded hash or length differs, NOT_DIVERGED if and only if none does |
| `Gates.ViewExact` | app/internal/fuzz/compare.go:139-202 | a side is usable if and only if its check is of the right kind, live or an allowed agreed replay, ended as a run of a test may end, shows a pass of the test in its whole log (Go), and carries a passing stream of its runner with the whole function |
| `Gates.ExperimentExact` | app/internal/fuzz/compare.go:370-407 | the four checks are one experiment if and only if those that are there ran one nonempty command, and those usable tell of one package and of one call an index |
| `Gates.DivergedExact` | app/internal/fuzz/compare.go:266-368 | DIVERGED if and only if both pairs hold as runs of one experiment and some input is recorded twice alike on either side and differently between them, told from the checks alone |
| `Gates.NotDivergedExact` | app/internal/fuzz/compare.go:266-368 | NOT_DIVERGED if and only if the first pair holds, is one experiment, both sides are complete, and every input agrees, told from the checks alone |
| `Gates.OutcomesRest` | app/internal/fuzz/compare.go:139-202 | what every outcome rests on: either verdict means that both first checks passed every gate of a run, DIVERGED that all four did |
| `Gates.ListExact` | app/internal/fuzz/compare.go:318-345 | the head of the list is the input with the shortest call, then the lowest index, among those whose displays differ, or among all when none does; the others follow in that order |
| `Gates.ListedExact` | app/internal/fuzz/compare.go:291-339 | a DIVERGED outcome lists exactly the planned inputs that the four recorded functions reproduce as different, each once with its own records; the counterexample is the first of them, its call and what either revision displayed |
| `Gates.ProblemTells` | app/internal/fuzz/compare.go:139-202 | each reason for which a side is unusable is true of its check |
| `Gates.ReasonTells` | app/internal/fuzz/compare.go:266-368 | each reason for an inconclusive outcome is true of the checks |
| `EndToEnd.ProperIsRendered` | app/internal/fuzz/render.go:210-264 | what Render guarantees is more than the readers need |
| `Shown.Observations` | app/internal/fuzz/compare.go:65-84 | a row for each of the first 32 divergent inputs, in order |
| `Shown.WholeExact` | app/internal/fuzz/stream.go:302-308 | a display that passes for the whole encoding is the encoding, except exactly when the redacted text outgrows the bound while the encoding fits, its last character boundary within the bound is at the length of the encoding, and its first marker reaches past that; so never while the redacted text is within the bound |
| `Shown.WholeExactAscii` | app/internal/fuzz/stream.go:302-308 | the same in ASCII: the encoding is exactly as long as the bound and the first marker of the longer redacted text ends past it |
| `Shown.OutgrowsNear` | app/internal/fuzz/stream.go:286-300 | such an encoding is at most three bytes shorter than the bound |
| `Shown.AddressesMislead` | app/internal/fuzz/stream.go:302-308 | the exception exists with the URL-credential rule of the redactor, at every bound from 7: addresses that differ in a one-byte password have equal displays that both pass for whole |
| `Shown.RowsNeverMislead` | app/internal/fuzz/compare.go:65-84 | a divergent row not marked truncated shows two different values, outside that exception; always when both redacted texts are within the bound |
| `Shown.CounterexampleNeverMisleads` | app/internal/fuzz/compare.go:256-260 | a counterexample that shows two equal values is marked as cut, outside that exception |
| `Credentials.Redact` | app/internal/redact/redact.go:47-56 | the loop of passes, with the URL-credential rule |
| `Credentials.RedactedIsFixed` | app/internal/redact/redact.go:35-50 | redaction gives a fixed point, leaves exactly the fixed points alone, and shows its marker in whatever it changes |
| `Credentials.CutKeepsFixed` | app/internal/fuzz/stream.go:282-285 | a cut of a redaction fixed point is still one |
| `Credentials.PassesReach` | app/internal/redact/redact.go:40-46 | every changing pass takes an @ away, so as many passes as the text has of them reach the fixed point and the fallback is not used |
| `Channel.DisplayBoundFits` | app/internal/fuzz/render.go:222-235 | a display bound exists if and only if the worst case at 32 bytes fits; the bound found is in 32..256 and fits, so the second guard never refuses |
| `Channel.SeenLength` | app/internal/fuzz/render.go:30-33 | an observation record takes at most its overhead and twice the display bound |
| `Channel.OtherLength` | app/internal/fuzz/render.go:34-38 | every framing record is within its share of the function overhead |
| `Channel.RunBytes` | app/internal/fuzz/ts_render.go:181-192 | the bytes of every run are within records * (160 + 2 * display) and the overhead of its functions, for all three formats |
| `Channel.StreamFits` | app/internal/fuzz/py_render.go:126-137 | a harness rendered with its display bound fits the payload limit with the frame, in every run of every behaviour of the code |
| `Channel.EscapeExactLength` | app/internal/fuzz/render.go:231-233 | the quoted length is the length plus the bytes the escapes add, exactly |
| `Channel.EscapesPlain` | app/internal/fuzz/render.go:231-232 | a display without control bytes escapes to at most twice the bound, so every run whose displays have none fits |
| `Rendering.Render` | app/internal/fuzz/render.go:176-196 | at most four attempts, each after the first only because the one before was too large; any other failure ends at once |
| `Rendering.RenderOnce` | app/internal/fuzz/render.go:210-264 | one attempt: an empty corpus, a harness too large for the channel or for its file, or a harness |
| `Rendering.RenderedIsPrefix` | app/internal/fuzz/render.go:176-235 | after any halvings every target keeps a nonempty prefix of its planned inputs, and the worst case fits the channel |
| `Rendering.AttemptExact` | app/internal/fuzz/render.go:176-264 | after k halvings a target has its planned inputs divided by 2^k, and one at least; the attempt fails on an empty corpus, is too large if not even 32 bytes a display fit, and else takes the largest display bound up to 256 bytes that fits |
| `Corpus.Draw` | app/internal/fuzz/corpus.go:398-406 | one attempt of the random phase draws every argument from the generator, in order |
| `Corpus.CorpusWith` | app/internal/fuzz/corpus.go:354-412 | the loops give the first n candidates, edge values first, whose calls are new and safe |
| `Corpus.PrefixLaw` | app/internal/fuzz/corpus.go:326-329 | Corpus(m) is a prefix of Corpus(n) for all m <= n, although the attempts depend on n |
| `Corpus.CorpusIsSound` | app/internal/fuzz/corpus.go:318-327 | at most n inputs, calls distinct, safe, and each the call of its arguments |
| `Corpus.KeptComplete` | app/internal/fuzz/corpus.go:369-377 | no safe candidate is left out of a corpus that is not full |
| `Attempts.NotFullTriedAll` | app/internal/fuzz/corpus.go:378-412 | a corpus that is not full has tried every edge value of every parameter and every list that 16n+64 attempts draw; nothing else is tried, and a drawn list only after all edge values |
| `Attempts.AttemptsMade` | app/internal/fuzz/corpus.go:397-407 | the attempts of the loop go through the generator step by step: an even output asks for an edge value, an odd one for a random one |
| `Attempts.KnownOutputs` | app/internal/fuzz/corpus_test.go:18-33 | the generator gives the reference outputs of SplitMix64 |
| `Literals.DecodeOfWtf8` | app/internal/fuzz/ts_corpus.go:18-34 | decoding inverts encoding for every code point, surrogates included |
| `Literals.JsString` | app/internal/fuzz/ts_corpus.go:272-308 | the literal evaluates (section 12.9.4 of ECMA-262) to exactly the UTF-16 units of the text |
| `Literals.PyString` | app/internal/fuzz/py_corpus.go:229-266 | the literal evaluates (section 2.4.1 of the Python Language Reference) to exactly the code points of the text |
| `Literals.JsRoundTrip` | app/internal/fuzz/ts_corpus.go:277-313 | the same of every sequence of code points and every notion of printable |
| `Literals.PyRoundTrip` | app/internal/fuzz/py_corpus.go:234-266 | the same of every sequence of code points and every notion of printable |
| `Literals.LiteralIsOneLine` | app/internal/fuzz/ts_corpus.go:272-276 | every literal is one line of valid UTF-8 |
| `Ordering.StableSort` | app/internal/fuzz/select.go:684-699 | sort.SliceStable for every comparison that sorts: a sorted permutation in which equal elements keep their order |
| `Plan.SortTargets` | app/internal/fuzz/select.go:684-699 | the order of selection: priority, exported first, then place; targets equal in all of these keep their order |
| `Plan.Budget` | app/internal/fuzz/select.go:683-758 | the loops with their maps give the greedy plan of the sorted targets, with what each package carries into its rendering |
| `Plan.PlannedConserves` | app/internal/fuzz/select.go:681-758 | every eligible target ends in exactly one planned package, one budget skip or one dropped script package, within max_functions and max_packages; nothing is dropped if and only if every script module taken can be planned; every package holds all the targets taken of its directory |
| `Plan.PlannedInputsFit` | app/internal/fuzz/select.go:729-734 | in every package of a plan the shares keep the inputs within 1024, or within one a target when there are more targets than that, and each within max_inputs |
| `Plan.PlannedShares` | app/internal/fuzz/select.go:729-734 | for every package the share s of its n targets has n * s <= 1024 < n * (s + 1), or is 1 beyond 1024, and each target gets what its corpus yields for min(max_inputs, s) |
| `Plan.GreedyExact` | app/internal/fuzz/select.go:700-728 | a target is skipped if and only if its directory is none of the first max_packages that are met, or max_functions targets of those directories stand before it |
| `Plan.PlannedCarries` | app/internal/fuzz/select.go:734-757 | each planned package carries the identifiers and the script modules of its own directory and no other |
| `Stage.RunPackage` | app/internal/fuzz/fuzz.go:261-331 | one pair of runs, a second one asked for exactly when a difference appeared in time, and a report for each function |
| `Stage.RunStage` | app/internal/fuzz/fuzz.go:177-231 | the status and its reason, the reports of all packages in order, each with the runner of its own harness, the runs each asks for, and the skips by place, stably, cut at 200 with their total |
| `Stage.StageSound` | app/internal/fuzz/fuzz.go:167-231 | for any mix of runners, rendering, halving and clock: every planned target is reported exactly once in plan order, its counts add up, and a divergence has four recorded checks, a stored evidence record and a counterexample |
| `Stage.SelectionToReport` | app/internal/fuzz/fuzz.go:177-231 | from selection to report: every eligible target is reported exactly once or skipped by the budget exactly once, but for those of a script package that cannot be planned |
| `Stage.DivergedIsConfirmed` | app/internal/fuzz/compare.go:300-325 | DIVERGED takes all four checks |
| `Stage.DivergedHasEverything` | app/internal/fuzz/fuzz.go:295-329 | a function reported as DIVERGED has four recorded checks and a stored evidence record; its counts add up |
| `Reported.ReportedExact` | app/internal/fuzz/fuzz.go:261-331 | a planned function is reported as DIVERGED if and only if its package ran, its first pair differs in time, the confirmation pair was recorded, the evidence was stored, and the four checks show a reproduced difference; the report then holds their four IDs and a counterexample; likewise for NOT_DIVERGED |
| `Reported.ReportedComplete` | app/internal/fuzz/fuzz.go:261-331 | for deterministic revisions that run to completion, what the runs differ in is what the stage reports |
| `Reported.AskedExact` | app/internal/fuzz/fuzz.go:268-284 | a second pair is asked for exactly when some function differs and time is left |
| `Reported.RanReport` | app/internal/fuzz/fuzz.go:286-329 | the report of a function of a package that ran: the outcome, counts and IDs of its checks, unless the evidence could not be stored |
| `Reported.UnrunReport` | app/internal/fuzz/fuzz.go:353-369 | the report of a function whose package did not run |
| `Reported.DigestExact` | app/internal/fuzz/fuzz.go:308-351 | an inconclusive report names the digest of the first needed stream that was over the results budget, the confirmation being needed only while some input is unconfirmed; no other report names one |
| `Reported.StatusExact` | app/internal/fuzz/fuzz.go:191-199 | the stage ran if and only if some package has a target; otherwise its reason tells whether some skip is one that only the template causes |
| `Reported.SkipsListed` | app/internal/fuzz/fuzz.go:219-230 | the listed skips are the first 200 by path and line, all of them when there are no more, and none left out comes before a listed one |
| `ScriptParse.BudgetInvisible` | app/internal/fuzz/scripts.go:492-603 | a parse that reports no cut gives what any larger budget gives |
| `ScriptParse.ParseEnough` | app/internal/fuzz/scripts.go:492-603 | quadratically many token visits are always enough, so without a budget the parse ends |
| `ScriptParse.MatchCloseIsFirst` | app/internal/fuzz/scripts.go:820-845 | matchClose stops after the first bracket that closes the one it began at, or at the end when there is none |
| `ScriptParse.ArrowMore` | app/internal/fuzz/scripts.go:744-818 | an arrow function found with visits to spare is found with any more, the difference unspent |
| `ScriptParse.DeclarationMore` | app/internal/fuzz/scripts.go:694-738 | the same for a function declaration |
| `ScriptParse.ScanUntilMore` | app/internal/fuzz/scripts.go:897-919 | the same for the scan to a stop token |
| `ScriptParse.ExportListMore` | app/internal/fuzz/scripts.go:607-627 | the same for an export list |
| `ScriptModules.ModuleExports` | app/internal/fuzz/scripts.go:519-603 | a module written as functions, bindings, arrow functions, overloads, other declarations and statements, and export lists: an uncut parse has a function under a name if and only if some item gives it that name, with the signature, parameters, body, flags, lines and doc comment that are written there; the last list wins over the last export |
| `ScriptModules.ExportedNames` | app/internal/fuzz/scripts.go:540-602 | the names alone: those exported directly, and those that lists give to functions the module keeps |
| `ScriptModules.ItemPasses` | app/internal/fuzz/scripts.go:540-593 | from any item on, the parse goes on right after it, and the tables change by what the item exports or keeps |
| `ScriptModules.DeclaredPasses` | app/internal/fuzz/scripts.go:692-738 | a function declaration, exported or not, async or a generator, with type parameters and return type, is recorded as written |
| `ScriptModules.BoundPasses` | app/internal/fuzz/scripts.go:636-672 | a binding of a function expression or an arrow function is recorded as written |
| `ScriptModules.ListPasses` | app/internal/fuzz/scripts.go:605-627 | an export list gives exactly its pairs, and none when it exports from another module |
| `ScriptExports.PrivateStaysPrivate` | app/internal/fuzz/scripts.go:585-602 | of an exported and a private function only the exported one is given |
| `ScriptRead.DeclarationSpelled` | app/internal/fuzz/scripts.go:692-738 | a declaration written as tokens is read back: name, star, type parameters, parameters, return type, body, end |
| `ScriptRead.ArrowSpelled` | app/internal/fuzz/scripts.go:740-818 | the same for an arrow function, with a block or an expression as its body |
| `ScriptRead.ValueSpelled` | app/internal/fuzz/scripts.go:648-672 | the initializer of a binding, with or without async |
| `ScriptRead.ListSpelled` | app/internal/fuzz/scripts.go:605-627 | an export list written as tokens is read back as its pairs, whatever is renamed or marked as a type |
| `ScriptScans.CloseSpelled` | app/internal/fuzz/scripts.go:824-845 | a bracketed text is scanned to its closing bracket |
| `ScriptScans.ScanSpelled` | app/internal/fuzz/scripts.go:893-919 | an annotation is scanned to its stop token, or to the semicolon, line or end that ends it |
| `ScriptScans.ExpressionSpelled` | app/internal/fuzz/scripts.go:780-818 | an expression body ends before a semicolon, a comma, a closing bracket or a line that starts a statement |
| `ScriptParser.Parser.Spend` | app/internal/fuzz/scripts.go:511-517 | one visit, refused when none is left |
| `ScriptParser.Parser.CloseOf` | app/internal/fuzz/scripts.go:828-845 | the bracket scan and the visits it spends |
| `ScriptParser.Parser.AngleOf` | app/internal/fuzz/scripts.go:849-865 | the type-parameter scan and the visits it spends |
| `ScriptParser.Parser.EndOfReturnType` | app/internal/fuzz/scripts.go:870-891 | the return-type scan and the visits it spends |
| `ScriptParser.Parser.Until` | app/internal/fuzz/scripts.go:897-919 | the scan to a stop token and the visits it spends |
| `ScriptParser.Parser.DeclarationOf` | app/internal/fuzz/scripts.go:694-738 | a declaration as the parser reads it |
| `ScriptParser.Parser.ArrowOf` | app/internal/fuzz/scripts.go:744-818 | an arrow function as the parser reads it |
| `ScriptParser.Parser.FunctionOf` | app/internal/fuzz/scripts.go:636-690 | a function, or the initializer of a binding |
| `ScriptParser.Parser.Functions` | app/internal/fuzz/scripts.go:523-603 | the loop over the top level and the export lists give the parse of the tokens within the budget |
| `ScriptLex.BoundsInvisible` | app/internal/fuzz/scripts.go:254-406 | without a reported cut the exported functions are those of any larger bounds on tokens, template depth and visits |
| `ScriptLex.EnoughNeverCuts` | app/internal/fuzz/scripts.go:284-603 | every source has bounds that cut nothing |
| `ScriptLex.UncutIsWhole` | app/internal/fuzz/scripts.go:519-603 | an enumeration without a reported cut found exactly the functions of the whole source |
| `ScriptLex.TokensAreSlices` | app/internal/fuzz/scripts.go:272-406 | the tokens of any source are ordered, disjoint, nonempty slices of it, no more than the bound |
| `ScriptText.TemplateRead` | app/internal/fuzz/scripts.go:408-439 | a template literal, with substitutions nested in it and strings, comments, braces and templates in those, is read to its own backtick |
| `ScriptText.CodeRead` | app/internal/fuzz/scripts.go:441-486 | a substitution is read to the brace that closes it |
| `ScriptSources.TokensAsWritten` | app/internal/fuzz/scripts.go:272-406 | tokenizing tokens written with blanks and comments between them gives them back, each on its line, with the doc comments that precede them |
| `ScriptSources.LexemeIsRead` | app/internal/fuzz/scripts.go:337-403 | a word, number, string, regular expression, template or sign is read whole where a blank follows |
| `ScriptSources.RegexAfter` | app/internal/fuzz/scripts.go:295-311 | a slash starts a regular expression exactly where no operand ends |
| `ScriptSources.OnlyBlanksBetween` | app/internal/fuzz/scripts.go:312-336 | in any source nothing but blanks and comments lies before, between and after the tokens, but for a comment nothing closes |
| `ScriptLines.LineExact` | app/internal/fuzz/scripts.go:312-406 | the line of a token is one more than the line breaks before it if and only if no regular expression before it holds one |
| `ScriptLines.LineLost` | app/internal/fuzz/scripts.go:363-365 | a source in which a word on line 3 is reported on line 2 |
| `ScriptExports.SourceExports` | app/internal/fuzz/scripts.go:519-603 | from source text to exported functions: what is written is what is enumerated, with its lines and doc comments |
| `ScriptLexer.SkipTemplate` | app/internal/fuzz/scripts.go:414-439 | a template ends, in bounds and past its start, or is cut at the depth limit |
| `ScriptLexer.SkipSubstitution` | app/internal/fuzz/scripts.go:441-486 | a substitution with its strings, comments and nested templates ends, in bounds, or is cut |
| `ScriptLexer.Tokenize` | app/internal/fuzz/scripts.go:284-406 | the byte loop gives the tokens, the doc comments and the cut of the source |
| `ScriptLexer.ExportedFunctions` | app/internal/fuzz/scripts.go:523-603 | the exported functions of a source; without a cut, those of the whole source |
| `Cache.HitIsValid` | app/internal/execcache/store.go:181-232 | over any run of operations, failures and outside changes, a hit is a valid unexpired entry whose preimage hashes to the key |
| `Cache.LatchIsStreak` | app/internal/execcache/store.go:317-324 | the store is disabled if and only if three I/O failures had no hit or store between them |
| `Cache.DisabledForever` | app/internal/execcache/store.go:186-245 | a disabled store serves and records nothing, whatever follows |
| `Cache.WritesBounded` | app/internal/execcache/store.go:234-266 | one run stores at most 256 entries and 256 MiB, and no file above 16 MiB |
| `Cache.AgreesWithMap` | app/internal/execcache/store.go:181-309 | without outside interference a lookup hits if and only if a simple map holds an unexpired entry, and gives that entry; nothing is rejected |
| `Cache.ModelIsLastPut` | app/internal/execcache/store.go:234-292 | the entry of a key in that map is the one of its last successful store |
| `CacheStore.Store.Get` | app/internal/execcache/store.go:186-232 | the lookup in place: every branch, the removals and the counters |
| `CacheStore.Store.Put` | app/internal/execcache/store.go:238-292 | the store in place: validation, limits, publication and the counters |
| `CacheStore.Store.Delete` | app/internal/execcache/store.go:295-309 | the removal in place; a missing entry is no failure |
| `Served.GetExact` | app/internal/execcache/store.go:186-232 | a hit if and only if the store is enabled, nothing fails, and the file is a regular one of at most 16 MiB that decodes to an entry of that key whose preimage hashes to it, with an outcome of a test process and within its bounds, recorded at most 30 days ago and at most five minutes ahead; expired and rejected files are removed if they can be, and counted |
| `Served.PutExact` | app/internal/execcache/store.go:238-292 | an entry is written if and only if it is such an entry, not from the future, within 16 MiB, and 256 stores and 256 MiB of the run are not used up |
| `Served.DeleteExact` | app/internal/execcache/store.go:295-309 | a deletion removes the file of a key and no other, fails if that fails, and ignores what is no key |
| `CacheStore.Store.Reject` | app/internal/execcache/store.go:311-315 | a rejected file is counted, and removed if it can be |
| `CacheStore.Store.Failed` | app/internal/execcache/store.go:317-324 | the third consecutive failure disables the store |
| `CacheStore.Store.Scan` | app/internal/execcache/store.go:442-477 | the walk removes stray temporary files and the entries past their age, and collects the other entries with their total size |
| `CacheStore.Store.Shrink` | app/internal/execcache/store.go:490-500 | exactly the shortest oldest-first prefix that reaches both bounds is removed |
| `CacheStore.Store.Trim` | app/internal/execcache/store.go:426-500 | a walk past the scan limit removes the whole layout as far as it can be removed; otherwise stray files and aged entries go, and the shortest oldest-first prefix when a limit is exceeded |
| `CacheStore.LeastIsOldest` | app/internal/execcache/store.go:426-430 | the files removed are no younger than any kept, the rest is within 18000 entries and nine tenths of 512 MiB, and one file more would not be |
| `Frame.DecodeExact` | app/internal/coverage/frame.go:74-109 | a payload decodes to a profile if and only if it is the frame of that profile: white space, header, its length, the profile without a header, footer, nothing more |
| `Frame.FrameInverts` | app/internal/coverage/frame.go:24-33 | decoding inverts the frame of every nonempty body without the header |
| `Frame.NothingCutIsAccepted` | app/internal/coverage/frame.go:74-109 | no accepted payload is a proper prefix of another: cuts and extensions are refused |
| `Frame.PrefixesAreRefused` | app/internal/coverage/frame.go:74-109 | every proper prefix of a frame is refused |
| `Blocks.Classify` | app/internal/coverage/coverage.go:544-561 | the loop gives the verdict: executed if any containing block ran, not run if some contains the line |
| `Blocks.MergedIsMerge` | app/internal/coverage/profile.go:87-101 | merging keeps one block a range with the machine total of its rows |
| `Blocks.VerdictExact` | app/internal/coverage/profile.go:89-93 | when merging keeps a verdict, exactly: unless a row over the line ran and no range over it has a positive 64-bit total |
| `Blocks.VerdictKept` | app/internal/coverage/profile.go:89-93 | as long as no total leaves the 64-bit integers, merging keeps every verdict |
| `Blocks.Sort` | app/internal/coverage/profile.go:109-118 | distinct ranges are sorted by file, start and end |
| `Profiles.KeyIsRange` | app/internal/coverage/profile.go:87 | rows share a key of the merge index if and only if they are about the same range, colons and dots in file names included |
| `Profiles.LineKeyIsRange` | app/internal/coverage/lcov.go:71 | the same for the keys of LCOV lines |
| `Profiles.ParseGoProfile` | app/internal/coverage/profile.go:68-119 | the Go reader: the failure of the first bad row, or the merged and sorted blocks of all rows |
| `Profiles.ParseLCOV` | app/internal/coverage/lcov.go:31-102 | the LCOV reader: the failure of the first bad line, a truncated or empty report, or the merged and sorted blocks of all entries |
| `Profiles.Saturating` | app/internal/coverage/lcov.go:114-125 | an LCOV count never exceeds 2^30 |
| `Coverage.LcovVerdictKept` | app/internal/coverage/lcov.go:66-81 | merging never changes a verdict of an accepted LCOV report: no sum can leave 64 bits |
| `LcovReports.WrittenIsRead` | app/internal/coverage/lcov.go:31-126 | the LCOV reader finds exactly the rows that are written, each count up to 2^30, whatever tests, checksums and other fields stand between |
| `LcovReports.LineIsCalled` | app/internal/coverage/lcov.go:104-126 | a line of a written report is executed if and only if some count written for it is positive, not run if all are zero, and else in no block |
| `Accepted.LcovAcceptedExact` | app/internal/coverage/lcov.go:31-102 | an LCOV report is read exactly when it is small enough, each line may stand where it stands, no record is left open, some file is named and its ranges are within the limit; each refusal gives a true reason, with the first line that may not stand where it does |
| `Accepted.GoAcceptedExact` | app/internal/coverage/profile.go:68-119 | the same for a Go profile: the mode first, then rows, and neither missing nor too many |
| `Coverage.GoVerdictExact` | app/internal/coverage/profile.go:87-94 | for an accepted Go profile: exactly when the verdict of a line survives, and that totals within 64 bits suffice |
| `Reports.WrittenIsRead` | app/internal/coverage/profile.go:68-165 | of every profile written as text, in each of its modes and with file names of any text without white space or control bytes, the reader finds exactly the rows that were written, in order |
| `Reports.GoVerdictLost` | app/internal/coverage/profile.go:87-94 | where it does not: an accepted profile text with two rows of one range whose counts add up to more than 2^63-1 makes its executed lines read as not executed |
| `Coverage.OrderIsIrrelevant` | app/internal/coverage/profile.go:87-118 | the order of the rows never matters, even where totals overflow |
| `Coverage.LcovNamesKept` | app/internal/coverage/coverage.go:478-487 | merging never changes a verdict of an accepted LCOV report, over both names it may use for a file |
| `Coverage.CutNeverShortens` | app/internal/coverage/lcov.go:22-37 | a prefix of an accepted report that ends inside a record is refused; one that is accepted has read exactly the rows of its complete records |
| `Coverage.Runs` | app/internal/coverage/coverage.go:567-587 | the loops give the ranges, and past 25 of them one counted range |
| `Coverage.RangesSpell` | app/internal/coverage/coverage.go:569-577 | the ranges spell exactly the lines |
| `Coverage.RangesMaximal` | app/internal/coverage/coverage.go:569-577 | the ranges of increasing lines neither overlap nor touch |
| `Coverage.FoldedConserves` | app/internal/coverage/coverage.go:578-587 | past 25 ranges no line is lost: the counted range has their number, first and last |
| `Analysis.ProfileKey` | app/internal/coverage/coverage.go:106-123 | the loop over the workspace map, in any order, answers by the innermost module that holds the path |
| `Analysis.KeyIsUnique` | app/internal/coverage/coverage.go:106-123 | the innermost module, and with it the key, does not depend on the order of the map |
| `Analysis.Resolve` | app/internal/coverage/coverage.go:199-223 | the added lines of a file, one by one, into the counts of their states |
| `Analysis.Analyze` | app/internal/coverage/coverage.go:173-246 | reports, totals and signals of all changed files, at most 200 signals |
| `Analysis.WithPartitions` | app/internal/coverage/coverage.go:205-217 | every added line has exactly one of the states |
| `Analysis.AnalysisConserves` | app/internal/coverage/coverage.go:199-224 | per file and in total, added = executed + not executed + no block + not measured, over every file in scope |
| `Measured.AnalysisExact` | app/internal/coverage/coverage.go:173-246 | exactly the files in scope that add lines are reported, in order, each counted line by line from the rows about it; without a row nothing of a file is measured; the signals are the first 200 ranges of lines that did not run |
| `Markers.StripOnce` | app/internal/acceptance/acceptance.go:119-140 | one removal pass: the text outside the blocks, without stray end markers |
| `Markers.StripPRComments` | app/internal/acceptance/acceptance.go:92-103 | the passes end, and something is reported removed if and only if the text held a marker |
| `Markers.PassesClean` | app/internal/acceptance/acceptance.go:78-91 | the result holds no marker, at the pass limit too |
| `Markers.LimitInvisible` | app/internal/acceptance/acceptance.go:86-103 | each pass strictly shortens a marked text, even when its removal joins the surroundings into a new marker, so as many passes as there are bytes reach the result of any larger limit |
| `Markers.StripIsFixpoint` | app/internal/acceptance/acceptance.go:88-91 | of its own result the removal removes nothing |
| `Markers.PassesWithin` | app/internal/acceptance/acceptance.go:78-91 | the result is what is left of the text, in order: nothing is added |
| `Criteria.TracksNext` | app/internal/acceptance/acceptance.go:240-258 | the pair (inScope, scopeLevel) stands for all sections alive, its level for the least of theirs, and every line keeps that |
| `Criteria.ContinuationIsPlain` | app/internal/acceptance/acceptance.go:268-271 | a continuation line is no fence, heading or item wherever it stands, so skipping it changes nothing |
| `Criteria.FindScope` | app/internal/acceptance/acceptance.go:232-243 | the first pass finds a matching heading if and only if the second will |
| `Criteria.Extract` | app/internal/acceptance/acceptance.go:244-290 | the second pass gives the document of the items that count |
| `Criteria.ExtractedConserves` | app/internal/acceptance/acceptance.go:203-217 | IDs are 1, 2, ..., lines strictly increase, texts are nonempty and bounded, and criteria + overlong + omitted are the items that count |
| `Criteria.ItemsExact` | app/internal/acceptance/acceptance.go:259-276 | the items that count are exactly the eligible lines, in order |
| `Criteria.Parse` | app/internal/acceptance/acceptance.go:218-292 | refused unless UTF-8 without NUL; otherwise the digest of the exact text and the extraction of its lines |
| `Intent.LinesAsWritten` | app/internal/acceptance/acceptance.go:228-231 | the lines of a text, without a byte-order mark and without carriage returns, are those that are written |
| `Intent.ItemTextExact` | app/internal/acceptance/acceptance.go:271-277 | the text of an item is its own, without marker and checkbox, and all lines up to the first that does not continue it |
| `Intent.TrimExact` | app/internal/acceptance/acceptance.go:275-277 | trimming takes all white space off both ends |
| `Intent.DocumentExact` | app/internal/acceptance/acceptance.go:267-290 | the criteria are the first hundred items that count and fit, each numbered by those before it, with its text and line; the others are counted as too long or omitted |
| `Patterns.HeadingExact` | app/internal/acceptance/acceptance.go:167-175 | a heading is what its regular expression matches, with the level and title of the match a leftmost-first matcher takes |
| `Patterns.FenceExact` | app/internal/acceptance/acceptance.go:188-195 | a fence is what its regular expression matches, with all its marks |
| `Patterns.HiddenExact` | app/internal/acceptance/acceptance.go:188-201 | a line belongs to a fenced block if and only if it opens one or a block opened before it has not been closed |
| `Patterns.BreakExact` | app/internal/acceptance/acceptance.go:151-165 | a thematic break is a line that its regular expression matches with one kind of mark |
| `Patterns.ItemExact` | app/internal/acceptance/acceptance.go:143-143 | a list item is what its regular expression matches, with the text of the match |
| `Patterns.UncheckedExact` | app/internal/acceptance/acceptance.go:147-147 | a checkbox is taken off exactly when its regular expression matches, with all the blanks behind it |
| `Words.NamedOn` | app/internal/acceptance/symbols.go:208-227 | the search with restarts finds the symbol if and only if it occurs as a whole word |
| `Words.AddWords` | app/internal/acceptance/symbols.go:229-249 | one pass adds exactly the identifiers among the maximal runs of word bytes |
| `Words.SetAnswersSearch` | app/internal/acceptance/symbols.go:229-233 | for every text and identifier the set holds it if and only if the search finds it |

## Left out

- Document.EncodeSafe: of the six redaction rules only the one for credentials in a URL is modelled, here and in `Credentials`; everywhere else redaction is a parameter.
- Stored.StoredExact: redaction is by that rule alone; soundness of the kept texts (`Stored.SoundnessOfTexts`) is for any redaction.
- Stored.CapturedIsStored: the same.
- Shown.AddressesMislead: the same rule alone is applied to the addresses.
- Credentials.Redact: the one rule.
- Credentials.RedactedIsFixed: the one rule.
- Credentials.CutKeepsFixed: the one rule.
- Credentials.PassesReach: the one rule.
- Stored.Store: the decoder is a parameter, as in the next line.
- Stored.ParsedExact: the decoder of encoding/json is a parameter that gives back what the encoder wrote; that its result is encoded again and compared makes any other leniency invisible.
- Language.AcceptedIffPrefixOfRun: data of observations are any that pass their check; `Realized` says which of them evaluations can give.
- Channel.RunBytes: displays escape to at most twice the bound, as every display without control bytes does (`Channel.EscapesPlain`); the in-container encoders print strings escaped, but they (reflection, floats, maps) are modelled only as bounded text.
- Channel.StreamFits: the same hypothesis on displays.
- Agreement.ValidatedIsRun: up to displays, which the second acceptor does not compare with anything.
- Validator.Validate: the checks on version, scheme, runner and missing lists are in `Stored.ValidatedExact`.
- Evaluator.Evaluate: reasons are categories, not sentences (`Gates.ReasonTells` says what each means); the log check of a Go side (`harness.GoTestOutcome`) is a parameter.
- Gates.DivergedExact: the same parameter.
- Reported.ReportedExact: the same parameter.
- Corpus.CorpusWith: the value tables, the random values and the call texts of the three languages are parameters of the scheme; the generator is concrete.
- Plan.Budget: the eligible functions are given, with the identifiers and script modules of their directories; building constraints, signatures, Go syntax trees and changed declarations are not modelled.
- Stage.RunStage: drawing a fresh suffix after an identifier collision and the texts of reasons and evidence records are not modelled; which skip reasons mean that only the template cannot run a function is a parameter.
- Stage.RunPackage: the rendered tests, the runs and the evidence store are parameters; reasons are categories.
- Rendering.Render: the source text of a harness is a parameter, as are whether it parses and whether it fits its file limit; the checks of the options that come first are left out.
- Rendering.RenderOnce: the same parameters.
- ScriptModules.ModuleExports: for modules that are lists of such items. What the parser makes of brackets that do not match, of types with a brace between angle brackets, and of other text that no list of items spells is only bounded (`ScriptParse.ParseEnough`).
- ScriptSources.TokensAsWritten: a blank or a line break stands after each token; tokens that touch, unterminated strings and regular expressions with an escaped line break are covered by `ScriptSources.OnlyBlanksBetween` and `ScriptLines.LineExact` alone.
- ScriptExports.SourceExports: the same two.
- Literals.JsString: the evaluator knows the escapes the printer uses; numbers (`jsNumber`, `pyFloat`) are left out, and printable characters are a parameter.
- CacheStore.Store.Trim: the files a walk meets, those that cannot be removed, and what a failing removal of the layout leaves are parameters; shards, links and directory ownership are operating-system behaviour.
- CacheStore.Store.Get: hash, preimage decoding and file encoding are parameters with a round trip; one directory, one process at a time.
- Profiles.ParseGoProfile: the sniffing of the format in `Parse`, which only chooses the reader.
- Reports.WrittenIsRead: file names hold no white space and no control bytes.
- LcovReports.WrittenIsRead: file names hold no line break and do not end with a carriage return.
- Coverage.GoVerdictExact: a condition on the totals of the ranges over a line; totals within 64 bits suffice.
- Analysis.Analyze: which files are in scope, which lines a hunk adds, which files a format covers, the wording of signals, and the sort and 500-file cut of the report.
- Patterns.HeadingExact: the white space within a title and its case are not normalized.
- Criteria.Parse: which titles open a section (a case-insensitive phrase) and the hash are parameters.
- Shown.WholeExact: redaction is a parameter that keeps text valid and leaves its marker in every text it changes.
- Docker, Git, HTTP, the tracker and model clients, the command line, the web site and report wording: plumbing and texts.
- Declarations and identifiers of changed Go, TS and JS files beyond the word scanners, policy range checks, and the graph cache: easier members of the same kind.
