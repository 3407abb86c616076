# UnitGPT test generation core, in Dafny

This project models the core of UnitGPT, a generator of Foundry unit tests
for Solidity contracts. It covers three parts of the generator.

- **The compile-repair loop** (`Model.recompile_output`, module `Recompile`).
  A generated test is compiled by `forge test`. If the output carries neither
  success marker ("Compiler run successful" or "compilation skipped"), the
  compilation model is shown the failing test and the raw compiler output and
  asked for a repaired test. This repeats while retries remain. The verifier
  is a deterministic function `verify` from test text to raw output. The
  repair model is a function `repair` of the exact `RepairContext` it is
  shown. A run returns the test it ends with and the trace of `Verify` and
  `Repair` calls it made.
- **The session** (class `Model`, module `Session`). `generatedTests` is an
  append-only list. Each candidate lineage runs the loop when
  `recompile_tries > 0`, then is verified once more by its caller. It is
  appended exactly when that last output carries a marker. The module also
  models the list handling of `generate_test_functions`:
  - keeping the blocks that mention `public` or `external`, with their names
    index-aligned;
  - first-occurrence de-duplication of retrieved reference documents by
    their `function` value;
  - the `[:subtests]` cut of each document's reference tests.
  The language models and the vector store are the function-typed fields of
  a `Collaborators` value.
- **The function extractor** (`ContractParser`, module `ContractParser`).
  It scans the contract's lines. It remembers the last line starting with
  `"    function"` or `"    receive"`. At each line starting with `"    }"` it
  cuts out the block from that line on, using Python's slice semantics, and
  joins it with "\n". The function name is read off with the anchored pattern
  `\s+(function)\s+(\w+)\s*`.

Module `PyStr` gives the Python built-ins the code relies on: substring `in`,
`startswith`, `splitlines`, `join` and slicing.

## Model

| member | source | states |
|---|---|---|
| `PyStr.ContainsIff` | src/model.py:176 | Python's `sub in s` holds exactly when `sub` occurs at some position of `s`. |
| `PyStr.Slice` | src/contract_parser.py:16 | A Python slice `s[lo:hi]` (negative bounds count from the end, both bounds clipped to `0..len(s)`) is the segment of `s` from the clipped start to the clipped end, and is empty when the clipped start is not before the clipped end. |
| `PyStr.JoinEmpty` | src/contract_parser.py:18 | `"\n".join(xs)` is empty exactly when `xs` is empty or is one empty string. |
| `PyStr.JoinStartsWithFirst` | src/contract_parser.py:17 | The joined block begins with its first line. |
| `PyStr.JoinEndsWithLast` | src/contract_parser.py:17 | The joined block ends with its last line. |
| `PyStr.SplitLines` | src/contract_parser.py:12 | `splitlines()` gives no lines exactly for the empty text. |
| `PyStr.FirstBreakIsFirst` | src/contract_parser.py:12 | No line boundary occurs before the one where the first line ends. |
| `PyStr.SplitLinesNoBreaks` | src/contract_parser.py:12 | No line returned by `splitlines()` contains any of Python's line-boundary characters (`\n`, `\r`, `\v`, `\f`, `\x1c`-`\x1e`, `\x85`, U+2028, U+2029). |
| `PyStr.SplitLinesAtBreak` | src/contract_parser.py:12 | A first boundary other than "\r\n" is one character: the first line is the text before it and the rest is split on its own. A boundary that ends the text starts no empty last line. |
| `PyStr.SplitLinesAtCrLf` | src/contract_parser.py:12 | "\r\n" at the first boundary is one boundary: no empty line is cut between the two characters, and a final "\r\n" starts no empty last line. |
| `PyStr.SplitLinesJoin` | src/contract_parser.py:12 | For text whose only line boundary is '\n', joining the lines with "\n" gives back the text, less one trailing newline. |
| `Recompile.IsSuccess` | src/model.py:129 | Output shorter than the shorter marker, the empty output included, is failure. |
| `Recompile.SuccessIffMarker` | src/model.py:325 | Output is success exactly when "Compiler run successful" or "compilation skipped" occurs in it, compared case-sensitively. |
| `Recompile.RecompileOutput` | src/model.py:312-355 | At most `tries` repair calls and at most `tries` verifier calls. The result is the input when no repair was made, else the output of the most recent repair. With `tries == 0` no call is made. On immediate success there is one verifier call and no repair. |
| `Recompile.RecompileFollowsProtocol` | src/model.py:324-355 | The first call verifies the input. Each repair directly follows a failing verification. It is shown exactly that candidate, its raw output, the contract and the function. Each later verification is of the previous repair's output. |
| `Recompile.StopsEarlyOnlyOnSuccess` | src/model.py:324-330 | If fewer than `tries` repairs were made, the last call verified the returned candidate and that output was success. |
| `Recompile.ExhaustedEndsWithRepair` | src/model.py:313-318 | After `tries` repairs the last call is the `tries`-th repair. Its output, which the loop did not verify, is returned. |
| `Recompile.ExhaustedNeverPassed` | src/model.py:324-330 | If every try was spent on a repair, no verification the loop made passed: a passing one would have ended the loop there. |
| `Recompile.RunAttempt` | src/model.py:120-128 | The caller's final output is the verifier's output for the lineage's final candidate. With `recompile_tries <= 0` the loop is skipped and the generated response is checked as it is. |
| `Recompile.AttemptCallBounds` | src/model.py:168-175 | One lineage, the final check included, makes at most `tries + 1` verifier calls and at most `tries` repair calls. With no tries it makes exactly one verifier call and none to repair. |
| `Recompile.VerifiedTwiceWhenLoopSucceeds` | src/model.py:125-128 | A candidate accepted inside the loop is verified again by the caller: the last two calls verify the same text. With a deterministic verifier it is accepted. |
| `Recompile.ZeroTriesRejected` | src/model.py:120-138 | No tries and a failing verifier: exactly one verifier call, the generated response returned, not accepted. |
| `Recompile.TwoRepairsThenAccepted` | src/model.py:168-180 | Two tries, fail, fail, pass: two repairs, three verifier calls, the second repair's output accepted. |
| `Session.PublicIndices` | src/model.py:208 | The indices kept by the filter are increasing, each names a block containing `public` or `external`, and every such block is kept. |
| `Session.FilterPublic` | src/model.py:207-210 | `public_functions` are the blocks at those indices, in order. `public_function_names` are the names at the same indices, so the two lists are equally long and aligned. |
| `Session.FirstIndices` | src/model.py:239-243 | The kept indices are increasing, each is the first occurrence of its `function` value, every first occurrence is kept, and there are at most as many as documents. |
| `Session.FilterSimilarDocuments` | src/model.py:235-243 | The loop with its `found_functions` set returns exactly the first occurrences, in input order. |
| `Session.DeduplicatedDistinct` | src/model.py:241-243 | The kept documents have pairwise distinct `function` values. |
| `Session.DeduplicatedCoversAll` | src/model.py:238-243 | Every `function` value of the input appears among the kept documents (exactly once, by `DeduplicatedDistinct`). |
| `Session.HasFirstOccurrence` | src/model.py:241 | Every document's `function` value has a first occurrence at or before it. |
| `Session.SubtestsPrefix` | src/model.py:150 | The reference tests used are the first `min(subtests, len(tests))`. A negative `subtests` drops that many from the end. |
| `Session.Added` | src/model.py:129-133 | An attempt adds at most one test. It adds one exactly when its final output is success, and that test is the lineage's final candidate. |
| `Session.SubtestsAddedPass` | src/model.py:175-180 | The tests one document's loop appends all pass the verifier, and there are no more of them than reference tests. |
| `Session.DocumentAddedBound` | src/model.py:150-180 | One reference document adds at most `min(subtests, len(tests))` tests, each passing the verifier. |
| `Session.DocumentsAddedPass` | src/model.py:246-247 | Every test appended for the kept documents of one function passes the verifier. |
| `Session.DocumentsAddedBound` | src/model.py:246-247 | The kept documents of one function add at most `subtests` tests each. |
| `Session.FunctionAddedBound` | src/model.py:236-247 | When the store returns at most `k` documents, one function gets at most `k * subtests` tests (four for `k = subtests = 2`). |
| `Session.RagAddedPass` | src/model.py:234-247 | Every test the reference-guided mode appends passes the verifier. |
| `Session.NoRagAddedPass` | src/model.py:254-255 | Every test the mode without reference appends passes the verifier, at most one per public function. |
| `Session.SessionAddedPass` | src/model.py:188-255 | Everything one run of `generate_test_functions` appends passes the verifier. |
| `Session.Model.constructor` | src/model.py:16 | A new session starts with no generated tests. |
| `Session.Model.GenerateTestFunctionNoRag` | src/model.py:105-138 | `generatedTests` grows by the final response exactly when its final check succeeds, and is otherwise unchanged. |
| `Session.Model.GenerateTestFunction` | src/model.py:141-185 | `generatedTests` grows by the accepted lineages of the first `subtests` reference tests, in order, and by nothing else. |
| `Session.Model.GenerateForSubtest` | src/model.py:150-185 | For one reference test, `generatedTests` grows by the final response exactly when the caller's final check succeeds, and is otherwise unchanged. |
| `Session.Model.GenerateFromDocuments` | src/model.py:246-247 | `generatedTests` grows by what each kept document adds, in document order. |
| `Session.Model.GenerateTestFunctions` | src/model.py:188-255 | `generatedTests` grows by what the public functions add in the configured mode, in function order. It is otherwise unchanged. |
| `Session.Model.DescribeFunctions` | src/model.py:225-228 | There is one description per public function, in the same order, each the description model's answer for that function. |
| `Session.Model.GenerateWithRag` | src/model.py:234-247 | `generatedTests` grows, function by function, by what the de-duplicated documents retrieved for each description add. |
| `Session.Model.GenerateWithoutRag` | src/model.py:254-255 | `generatedTests` grows, function by function, by the accepted lineage of each public function. |
| `ContractParser.StartIsNotEnd` | src/contract_parser.py:13-15 | No line both opens and closes a block. |
| `ContractParser.LastStart` | src/contract_parser.py:10-14 | `start_idx` after `n` lines is at most `n`. When it is not 0, it numbers a start line. |
| `ContractParser.LastStartIsLast` | src/contract_parser.py:13-14 | No line after the one `start_idx` numbers, among the first `n`, is a start line. So `start_idx` numbers the last start line, or is 0 when there is none. |
| `ContractParser.LastStartStable` | src/contract_parser.py:13-14 | Lines that are not start lines leave `start_idx` as it is. |
| `ContractParser.StrFunctionsWithNames` | src/contract_parser.py:9-22 | The scan returns exactly the blocks `Chunks` defines line by line. It returns as many names as blocks, name `i` extracted from block `i`. |
| `ContractParser.ChunkCountBound` | src/contract_parser.py:15 | There are never more blocks than lines starting with `"    }"`. |
| `ContractParser.ChunksComeFromEndLines` | src/contract_parser.py:16-18 | Every block is non-empty and is the text cut out at some closing line. |
| `ContractParser.ChunkAfterStart` | src/contract_parser.py:13-17 | After a start line, a block is the lines from the most recent start line through the closing line, joined with "\n". It begins with the start line and ends with the closing line. |
| `ContractParser.ChunkBeforeAnyStart` | src/contract_parser.py:16 | Before any start line the slice starts at index -1. The block is empty unless the closing line is the text's last line, and then it is that line. |
| `ContractParser.NoResetAfterEnd` | src/contract_parser.py:10-18 | `start_idx` is not reset. Two closing lines with no start line between them cut blocks that begin at the same start line. |
| `ContractParser.Run` | src/contract_parser.py:25 | A greedy run of a character class stays inside the text and stops at the end or at a character outside the class. |
| `ContractParser.RunInClass` | src/contract_parser.py:25 | Every character a greedy run consumes belongs to its class. |
| `ContractParser.RunExact` | src/contract_parser.py:25 | A run of the class that ends at the end of the text or at a character outside it is exactly what the greedy match consumes. |
| `ContractParser.ExtractFunctionName` | src/contract_parser.py:24-27 | A returned name is never empty (the pattern's `\w+` needs one character). |
| `ContractParser.ExtractSound` | src/contract_parser.py:25-27 | A name is returned only when the block matches the pattern: leading whitespace, `function`, whitespace, then that name, then a non-word character or the end. |
| `ContractParser.ExtractComplete` | src/contract_parser.py:26-27 | Every such match yields exactly its name. |
| `ContractParser.ReceiveHasNoName` | src/contract_parser.py:13 | A block starting with `"    receive"` has no name. |
| `ContractParser.KeywordNeedsGap` | src/contract_parser.py:25 | `function` directly followed by a word character (as in `functionX`) yields no name. |

## Left out

- The language models (`chain.invoke` under the three prompt templates, `generate_function_description`) are pure functions of their prompt variables. Their nondeterminism, failures and exceptions are not modelled. The generation-failure error kind is absent because the code has no handling for it and lets exceptions propagate.
- The vector store and embeddings (`Chroma.from_documents`, `OllamaEmbeddings`) are left out. `similarity_search` is the function `similaritySearch`. Its "at most k results" is a hypothesis of `Session.FunctionAddedBound`, because nothing in the code enforces it.
- `get_compile_errors` writes a scratch test file, runs `forge test` and deletes the file. It becomes the deterministic `verify` parameter. Clobbering of the scratch file by concurrent runs is not modelled.
- `generate_output` and `_generate_output` (Jinja rendering and a file write) are not part of this model.
- `json.loads` of `metadata['tests']` is left out: a `Document` holds the parsed list.
- Reading the contract file (`ContractParser.__init__` and the `open` in `generate_test_functions`) is left out. Both reads give the same contract text, which is an input.
- `print` and `verbose` output are left out: they have no effect on behaviour.
- src/main.py is not part of this model. It is one network call with no logic.
- `Recompile.RecompileOutput`: `tries` is a natural number. Called directly with a negative count, the Python function (src/model.py:313) never takes the `== 0` exit, so it repairs until a verification passes (src/model.py:324-330) and ends in a `RecursionError` only if none passes before Python's recursion limit. Both callers call it only when `recompile_tries > 0`, so the model leaves negative counts out.
- `ContractParser.ExtractFunctionName`: `\w` is restricted to ASCII letters, digits and `_`. Python also counts non-ASCII letters and digits as word characters. `\s` is the full Unicode whitespace set.
- `ContractParser.StrFunctionsWithNames` takes the contract text, not a file path.
- `public_function_names` is computed and aligned, but the code uses it only in a progress message.
- The success test uses the literal markers "Compiler run successful" and "compilation skipped" (src/model.py:129, 176, 325); no shorter form of either is accepted.
- `recompile_output` returns only the candidate text, not a pass/fail flag; its callers verify it again (src/model.py:125-128, 173-175).
