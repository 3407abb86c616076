/**
 * The generation session (class `Model`): the list of accepted tests it
 * builds, the one-candidate acceptance policy of `generate_test_function_no_rag`
 * and `generate_test_function`, and the list handling of
 * `generate_test_functions` (keeping the public and external functions,
 * de-duplicating retrieved reference documents, taking the first
 * `subtests` reference tests of each).
 *
 * The language models and the vector store are the `Collaborators` of a
 * session: functions of the prompt variables they are given.  The
 * verifier for the contract under test is the `verify` parameter of each
 * method.
 */
module Session {
  import opened PyStr
  import opened Recompile
  import ContractParser

  /** A retrieved reference document: `metadata['function']` and the parsed
      list `metadata['tests']`. */
  datatype Document = Document(functionCode: string, tests: seq<string>)

  datatype Collaborators = Collaborators(
    // test model under the prompt without reference: (contract_code, function_code)
    testModelNoRag: (string, string) -> string,
    // test model under the reference prompt: (reference test, reference function, contract_code, function_code)
    testModel: (string, string, string, string) -> string,
    // compilation model under the error prompt
    compilationModel: RepairContext -> string,
    // description model: a plain-text summary of one function
    descriptionModel: string -> string,
    // vector store: the documents most similar to a description, at most k of them
    similaritySearch: (string, int) -> seq<Document>)

  // ---------------------------------------------------------------------
  // Selecting by index

  /** The elements of `s` at the indices `idx`, in that order. */
  function Pick<T>(s: seq<T>, idx: seq<nat>): (r: seq<T>)
    requires forall j :: 0 <= j < |idx| ==> idx[j] < |s|
    ensures |r| == |idx| && forall j :: 0 <= j < |idx| ==> r[j] == s[idx[j]]
  {
    seq(|idx|, j requires 0 <= j < |idx| => s[idx[j]])
  }

  lemma PickSnoc<T>(s: seq<T>, idx: seq<nat>, i: nat)
    requires forall j :: 0 <= j < |idx| ==> idx[j] < |s|
    requires i < |s|
    ensures Pick(s, idx + [i]) == Pick(s, idx) + [s[i]]
  {
  }

  // ---------------------------------------------------------------------
  // Public and external functions

  /** The filter's test: the block mentions `public` or `external`. */
  predicate IsPublic(func: string) {
    Contains(func, "public") || Contains(func, "external")
  }

  /** The indices below `n` of the public functions, in increasing order:
      exactly those whose block passes the test. */
  function PublicIndices(functions: seq<string>, n: nat): (idx: seq<nat>)
    requires n <= |functions|
    ensures forall j :: 0 <= j < |idx| ==> idx[j] < n && IsPublic(functions[idx[j]])
    ensures forall j, l :: 0 <= j < l < |idx| ==> idx[j] < idx[l]
    ensures forall i :: 0 <= i < n && IsPublic(functions[i]) ==> i in idx
  {
    if n == 0 then []
    else PublicIndices(functions, n - 1) + (if IsPublic(functions[n - 1]) then [n - 1] else [])
  }

  function PublicFunctions(functions: seq<string>): seq<string> {
    Pick(functions, PublicIndices(functions, |functions|))
  }

  /** The first loop of `generate_test_functions`: the public functions in
      their original order, and their names at the same positions. */
  method FilterPublic(functions: seq<string>, functionNames: seq<ContractParser.Option<string>>)
    returns (publicFunctions: seq<string>, publicFunctionNames: seq<ContractParser.Option<string>>)
    requires |functions| <= |functionNames|
    ensures publicFunctions == Pick(functions, PublicIndices(functions, |functions|))
    ensures publicFunctionNames == Pick(functionNames, PublicIndices(functions, |functions|))
  {
    publicFunctions, publicFunctionNames := [], [];
    for i := 0 to |functions|
      invariant publicFunctions == Pick(functions, PublicIndices(functions, i))
      invariant publicFunctionNames == Pick(functionNames, PublicIndices(functions, i))
    {
      var func := functions[i];
      if IsPublic(func) {
        PickSnoc(functions, PublicIndices(functions, i), i);
        PickSnoc(functionNames, PublicIndices(functions, i), i);
        publicFunctions := publicFunctions + [func];
        publicFunctionNames := publicFunctionNames + [functionNames[i]];
      }
    }
  }

  // ---------------------------------------------------------------------
  // De-duplicating retrieved documents

  /** No earlier document has the same `function` value. */
  predicate IsFirstOccurrence(docs: seq<Document>, i: nat)
    requires i < |docs|
  {
    forall j :: 0 <= j < i ==> docs[j].functionCode != docs[i].functionCode
  }

  /** The indices below `n` of first occurrences, in increasing order. */
  function FirstIndices(docs: seq<Document>, n: nat): (idx: seq<nat>)
    requires n <= |docs|
    ensures |idx| <= n
    ensures forall j :: 0 <= j < |idx| ==> idx[j] < n && IsFirstOccurrence(docs, idx[j])
    ensures forall j, l :: 0 <= j < l < |idx| ==> idx[j] < idx[l]
    ensures forall i :: 0 <= i < n && IsFirstOccurrence(docs, i) ==> i in idx
  {
    if n == 0 then []
    else FirstIndices(docs, n - 1) + (if IsFirstOccurrence(docs, n - 1) then [n - 1] else [])
  }

  function Deduplicated(docs: seq<Document>): seq<Document> {
    Pick(docs, FirstIndices(docs, |docs|))
  }

  /** The de-duplication loop: keep a document when its `function` value
      has not been seen yet. */
  method FilterSimilarDocuments(similarDocuments: seq<Document>) returns (filtered: seq<Document>)
    ensures filtered == Deduplicated(similarDocuments)
  {
    var foundFunctions: set<string> := {};
    filtered := [];
    for i := 0 to |similarDocuments|
      invariant foundFunctions == set j | 0 <= j < i :: similarDocuments[j].functionCode
      invariant filtered == Pick(similarDocuments, FirstIndices(similarDocuments, i))
    {
      var document := similarDocuments[i];
      assert document.functionCode !in foundFunctions <==> IsFirstOccurrence(similarDocuments, i);
      if document.functionCode !in foundFunctions {
        PickSnoc(similarDocuments, FirstIndices(similarDocuments, i), i);
        filtered := filtered + [document];
        foundFunctions := foundFunctions + {document.functionCode};
      }
    }
  }

  /** The kept documents have pairwise distinct `function` values. */
  lemma DeduplicatedDistinct(docs: seq<Document>)
    ensures var r := Deduplicated(docs);
      forall a, b :: 0 <= a < b < |r| ==> r[a].functionCode != r[b].functionCode
  {
    var idx := FirstIndices(docs, |docs|);
    forall a, b | 0 <= a < b < |idx|
      ensures docs[idx[a]].functionCode != docs[idx[b]].functionCode
    {
      assert idx[a] < idx[b] && IsFirstOccurrence(docs, idx[b]);
    }
  }

  /** Every document's value has a first occurrence at or before it. */
  lemma {:induction false} HasFirstOccurrence(docs: seq<Document>, i: nat)
    requires i < |docs|
    ensures exists j :: 0 <= j <= i && IsFirstOccurrence(docs, j) && docs[j].functionCode == docs[i].functionCode
    decreases i
  {
    if !IsFirstOccurrence(docs, i) {
      var j :| 0 <= j < i && docs[j].functionCode == docs[i].functionCode;
      HasFirstOccurrence(docs, j);
    }
  }

  /** Every `function` value of the input is kept (exactly once, by
      `DeduplicatedDistinct`). */
  lemma DeduplicatedCoversAll(docs: seq<Document>)
    ensures var r := Deduplicated(docs);
      forall i :: 0 <= i < |docs| ==> exists a :: 0 <= a < |r| && r[a].functionCode == docs[i].functionCode
  {
    var idx := FirstIndices(docs, |docs|);
    var r := Deduplicated(docs);
    forall i | 0 <= i < |docs|
      ensures exists a :: 0 <= a < |r| && r[a].functionCode == docs[i].functionCode
    {
      HasFirstOccurrence(docs, i);
      var j :| 0 <= j <= i && IsFirstOccurrence(docs, j) && docs[j].functionCode == docs[i].functionCode;
      var a :| 0 <= a < |idx| && idx[a] == j;
      assert r[a] == docs[j];
    }
  }

  // ---------------------------------------------------------------------
  // Reference tests per document

  /** `json.loads(reference_document.metadata['tests'])[:subtests]`. */
  function Subtests(doc: Document, subtests: int): seq<string> {
    Slice(doc.tests, 0, subtests)
  }

  /** At most `subtests` reference tests are used, the first ones; a negative
      count drops that many from the end. */
  lemma SubtestsPrefix(doc: Document, subtests: int)
    ensures var n := if subtests >= 0 then (if subtests < |doc.tests| then subtests else |doc.tests|)
                     else (if |doc.tests| + subtests > 0 then |doc.tests| + subtests else 0);
      Subtests(doc, subtests) == doc.tests[..n]
  {
  }

  // ---------------------------------------------------------------------
  // What each generation step appends

  /** The candidate of an attempt when it is accepted, nothing otherwise. */
  function Added(a: Attempt): (added: seq<string>)
    ensures |added| <= 1
    ensures added != [] <==> Accepted(a)
    ensures forall t :: t in added ==> t == a.lineage.final && IsSuccess(a.finalOutput)
  {
    if Accepted(a) then [a.lineage.final] else []
  }

  function NoRagAttempt(llm: Collaborators, verify: string -> string, contractCode: string, functionCode: string, tries: int): Attempt {
    RunAttempt(functionCode, contractCode, llm.testModelNoRag(contractCode, functionCode), tries, verify, llm.compilationModel)
  }

  function SubtestAttempt(llm: Collaborators, verify: string -> string, contractCode: string, functionCode: string,
                          doc: Document, subtest: string, tries: int): Attempt {
    RunAttempt(functionCode, contractCode, llm.testModel(subtest, doc.functionCode, contractCode, functionCode), tries, verify, llm.compilationModel)
  }

  /** What one reference document adds: one attempt per reference test. */
  function SubtestsAdded(llm: Collaborators, verify: string -> string, contractCode: string, functionCode: string,
                         doc: Document, subs: seq<string>, tries: int): seq<string>
  {
    if subs == [] then []
    else SubtestsAdded(llm, verify, contractCode, functionCode, doc, subs[..|subs| - 1], tries)
         + Added(SubtestAttempt(llm, verify, contractCode, functionCode, doc, subs[|subs| - 1], tries))
  }

  lemma SubtestsAddedSnoc(llm: Collaborators, verify: string -> string, contractCode: string, functionCode: string,
                          doc: Document, subs: seq<string>, i: nat, tries: int)
    requires i < |subs|
    ensures SubtestsAdded(llm, verify, contractCode, functionCode, doc, subs[..i + 1], tries)
      == SubtestsAdded(llm, verify, contractCode, functionCode, doc, subs[..i], tries)
         + Added(SubtestAttempt(llm, verify, contractCode, functionCode, doc, subs[i], tries))
  {
    assert subs[..i + 1][..i] == subs[..i];
  }

  /** What the kept reference documents of one function add. */
  function DocumentsAdded(llm: Collaborators, verify: string -> string, contractCode: string, functionCode: string,
                          docs: seq<Document>, tries: int, subtests: int): seq<string>
  {
    if docs == [] then []
    else DocumentsAdded(llm, verify, contractCode, functionCode, docs[..|docs| - 1], tries, subtests)
         + SubtestsAdded(llm, verify, contractCode, functionCode, docs[|docs| - 1], Subtests(docs[|docs| - 1], subtests), tries)
  }

  lemma DocumentsAddedSnoc(llm: Collaborators, verify: string -> string, contractCode: string, functionCode: string,
                           docs: seq<Document>, d: nat, tries: int, subtests: int)
    requires d < |docs|
    ensures DocumentsAdded(llm, verify, contractCode, functionCode, docs[..d + 1], tries, subtests)
      == DocumentsAdded(llm, verify, contractCode, functionCode, docs[..d], tries, subtests)
         + SubtestsAdded(llm, verify, contractCode, functionCode, docs[d], Subtests(docs[d], subtests), tries)
  {
    assert docs[..d + 1][..d] == docs[..d];
  }

  /** The documents retrieved for one function, after de-duplication. */
  function ReferenceDocuments(llm: Collaborators, functionCode: string, k: int): seq<Document> {
    Deduplicated(llm.similaritySearch(llm.descriptionModel(functionCode), k))
  }

  /** What the reference-guided mode adds for a list of functions. */
  function RagAdded(llm: Collaborators, verify: string -> string, contractCode: string, functions: seq<string>,
                    tries: int, k: int, subtests: int): seq<string>
  {
    if functions == [] then []
    else
      var f := functions[|functions| - 1];
      RagAdded(llm, verify, contractCode, functions[..|functions| - 1], tries, k, subtests)
      + DocumentsAdded(llm, verify, contractCode, f, ReferenceDocuments(llm, f, k), tries, subtests)
  }

  lemma RagAddedSnoc(llm: Collaborators, verify: string -> string, contractCode: string, functions: seq<string>, i: nat,
                     tries: int, k: int, subtests: int)
    requires i < |functions|
    ensures RagAdded(llm, verify, contractCode, functions[..i + 1], tries, k, subtests)
      == RagAdded(llm, verify, contractCode, functions[..i], tries, k, subtests)
         + DocumentsAdded(llm, verify, contractCode, functions[i], ReferenceDocuments(llm, functions[i], k), tries, subtests)
  {
    assert functions[..i + 1][..i] == functions[..i];
  }

  /** What the mode without reference adds for a list of functions. */
  function NoRagAdded(llm: Collaborators, verify: string -> string, contractCode: string, functions: seq<string>, tries: int): seq<string> {
    if functions == [] then []
    else NoRagAdded(llm, verify, contractCode, functions[..|functions| - 1], tries)
         + Added(NoRagAttempt(llm, verify, contractCode, functions[|functions| - 1], tries))
  }

  /** What one call of `generate_test_functions` adds, for a contract's source text. */
  function SessionAdded(llm: Collaborators, useRag: bool, verify: string -> string, contract: string,
                        tries: int, k: int, subtests: int): seq<string>
  {
    var publicFunctions := PublicFunctions(ContractParser.StrFunctions(contract));
    if useRag then RagAdded(llm, verify, contract, publicFunctions, tries, k, subtests)
    else NoRagAdded(llm, verify, contract, publicFunctions, tries)
  }

  lemma AppendAssoc(a: seq<string>, b: seq<string>, c: seq<string>)
    ensures (a + b) + c == a + (b + c)
  {
  }

  // ---------------------------------------------------------------------
  // Properties of what is appended

  /** Every test passes the verifier. */
  ghost predicate AllPass(verify: string -> string, tests: seq<string>) {
    forall t :: t in tests ==> IsSuccess(verify(t))
  }

  lemma {:induction false} SubtestsAddedPass(llm: Collaborators, verify: string -> string, contractCode: string, functionCode: string,
                                            doc: Document, subs: seq<string>, tries: int)
    ensures AllPass(verify, SubtestsAdded(llm, verify, contractCode, functionCode, doc, subs, tries))
    ensures |SubtestsAdded(llm, verify, contractCode, functionCode, doc, subs, tries)| <= |subs|
    decreases |subs|
  {
    if subs != [] {
      SubtestsAddedPass(llm, verify, contractCode, functionCode, doc, subs[..|subs| - 1], tries);
    }
  }

  /** One reference document adds at most `min(subtests, len(tests))`
      tests, each of which passed its final verification. */
  lemma DocumentAddedBound(llm: Collaborators, verify: string -> string, contractCode: string, functionCode: string,
                           doc: Document, tries: int, subtests: int)
    ensures var added := SubtestsAdded(llm, verify, contractCode, functionCode, doc, Subtests(doc, subtests), tries);
      && AllPass(verify, added)
      && |added| <= |doc.tests|
      && (subtests >= 0 ==> |added| <= subtests)
  {
    SubtestsAddedPass(llm, verify, contractCode, functionCode, doc, Subtests(doc, subtests), tries);
  }

  lemma {:induction false} DocumentsAddedPass(llm: Collaborators, verify: string -> string, contractCode: string, functionCode: string,
                                             docs: seq<Document>, tries: int, subtests: int)
    ensures AllPass(verify, DocumentsAdded(llm, verify, contractCode, functionCode, docs, tries, subtests))
    decreases |docs|
  {
    if docs != [] {
      DocumentsAddedPass(llm, verify, contractCode, functionCode, docs[..|docs| - 1], tries, subtests);
      var d := docs[|docs| - 1];
      SubtestsAddedPass(llm, verify, contractCode, functionCode, d, Subtests(d, subtests), tries);
    }
  }

  lemma {:induction false} RagAddedPass(llm: Collaborators, verify: string -> string, contractCode: string, functions: seq<string>,
                                       tries: int, k: int, subtests: int)
    ensures AllPass(verify, RagAdded(llm, verify, contractCode, functions, tries, k, subtests))
    decreases |functions|
  {
    if functions != [] {
      var f := functions[|functions| - 1];
      RagAddedPass(llm, verify, contractCode, functions[..|functions| - 1], tries, k, subtests);
      DocumentsAddedPass(llm, verify, contractCode, f, ReferenceDocuments(llm, f, k), tries, subtests);
    }
  }

  lemma {:induction false} NoRagAddedPass(llm: Collaborators, verify: string -> string, contractCode: string, functions: seq<string>, tries: int)
    ensures AllPass(verify, NoRagAdded(llm, verify, contractCode, functions, tries))
    ensures |NoRagAdded(llm, verify, contractCode, functions, tries)| <= |functions|
    decreases |functions|
  {
    if functions != [] {
      NoRagAddedPass(llm, verify, contractCode, functions[..|functions| - 1], tries);
    }
  }

  /** Each kept reference document contributes at most `subtests`
      lineages, and at most `k` documents are kept when the store returns at
      most `k`: with `k = 2` and `subtests = 2`, at most four tests are
      appended for one function. */
  lemma {:induction false} DocumentsAddedBound(llm: Collaborators, verify: string -> string, contractCode: string, functionCode: string,
                                              docs: seq<Document>, tries: int, subtests: nat)
    ensures |DocumentsAdded(llm, verify, contractCode, functionCode, docs, tries, subtests)| <= |docs| * subtests
    decreases |docs|
  {
    if docs != [] {
      var d := docs[|docs| - 1];
      DocumentsAddedBound(llm, verify, contractCode, functionCode, docs[..|docs| - 1], tries, subtests);
      DocumentAddedBound(llm, verify, contractCode, functionCode, d, tries, subtests);
      assert (|docs| - 1) * subtests + subtests == |docs| * subtests;
    }
  }

  lemma {:induction false} MulMonotone(a: int, b: int, c: nat)
    requires a <= b
    ensures a * c <= b * c
  {
    if c > 0 {
      MulMonotone(a, b, c - 1);
      assert a * c == a * (c - 1) + a && b * c == b * (c - 1) + b;
    }
  }

  lemma FunctionAddedBound(llm: Collaborators, verify: string -> string, contractCode: string, functionCode: string,
                           tries: int, k: int, subtests: nat)
    requires |llm.similaritySearch(llm.descriptionModel(functionCode), k)| <= k
    ensures |DocumentsAdded(llm, verify, contractCode, functionCode, ReferenceDocuments(llm, functionCode, k), tries, subtests)| <= k * subtests
  {
    var docs := ReferenceDocuments(llm, functionCode, k);
    DocumentsAddedBound(llm, verify, contractCode, functionCode, docs, tries, subtests);
    assert |docs| <= k;
    MulMonotone(|docs|, k, subtests);
  }

  /** Everything a session run appends passed its final verification. */
  lemma SessionAddedPass(llm: Collaborators, useRag: bool, verify: string -> string, contract: string,
                         tries: int, k: int, subtests: int)
    ensures AllPass(verify, SessionAdded(llm, useRag, verify, contract, tries, k, subtests))
  {
    var publicFunctions := PublicFunctions(ContractParser.StrFunctions(contract));
    if useRag {
      RagAddedPass(llm, verify, contract, publicFunctions, tries, k, subtests);
    } else {
      NoRagAddedPass(llm, verify, contract, publicFunctions, tries);
    }
  }

  // ---------------------------------------------------------------------
  // The session object

  class Model {
    const llm: Collaborators
    const useRag: bool
    /** The accepted tests, in the order they were accepted. */
    var generatedTests: seq<string>

    constructor (llm: Collaborators, useRag: bool)
      ensures this.llm == llm && this.useRag == useRag && generatedTests == []
    {
      this.llm := llm;
      this.useRag := useRag;
      generatedTests := [];
    }

    /** One candidate without reference: generate, repair while tries
        remain, verify once more, append only on success. */
    method GenerateTestFunctionNoRag(contractCode: string, functionCode: string, recompileTries: int, verify: string -> string)
      modifies this
      ensures generatedTests == old(generatedTests) + Added(NoRagAttempt(llm, verify, contractCode, functionCode, recompileTries))
    {
      var response := llm.testModelNoRag(contractCode, functionCode);
      if recompileTries > 0 {
        response := RecompileOutput(functionCode, contractCode, response, recompileTries, verify, llm.compilationModel).final;
      }
      var compilerErrors := verify(response);
      if IsSuccess(compilerErrors) {
        generatedTests := generatedTests + [response];
      }
    }

    /** One candidate per reference test of one reference document, each
        with its own repair loop and final check. */
    method GenerateTestFunction(contractCode: string, functionCode: string, referenceDocument: Document,
                                recompileTries: int, verify: string -> string, subtests: int)
      modifies this
      ensures generatedTests == old(generatedTests)
        + SubtestsAdded(llm, verify, contractCode, functionCode, referenceDocument, Subtests(referenceDocument, subtests), recompileTries)
    {
      var subs := Subtests(referenceDocument, subtests);
      for i := 0 to |subs|
        invariant generatedTests == old(generatedTests)
          + SubtestsAdded(llm, verify, contractCode, functionCode, referenceDocument, subs[..i], recompileTries)
      {
        SubtestsAddedSnoc(llm, verify, contractCode, functionCode, referenceDocument, subs, i, recompileTries);
        ghost var done := SubtestsAdded(llm, verify, contractCode, functionCode, referenceDocument, subs[..i], recompileTries);
        ghost var next := Added(SubtestAttempt(llm, verify, contractCode, functionCode, referenceDocument, subs[i], recompileTries));
        GenerateForSubtest(contractCode, functionCode, referenceDocument, subs[i], recompileTries, verify);
        AppendAssoc(old(generatedTests), done, next);
      }
      assert subs[..|subs|] == subs;
    }

    /** One candidate guided by one reference test: generate, repair while
        tries remain, verify once more, append only on success. */
    method GenerateForSubtest(contractCode: string, functionCode: string, referenceDocument: Document,
                              subtest: string, recompileTries: int, verify: string -> string)
      modifies this
      ensures generatedTests == old(generatedTests)
        + Added(SubtestAttempt(llm, verify, contractCode, functionCode, referenceDocument, subtest, recompileTries))
    {
      var response := llm.testModel(subtest, referenceDocument.functionCode, contractCode, functionCode);
      if recompileTries > 0 {
        response := RecompileOutput(functionCode, contractCode, response, recompileTries, verify, llm.compilationModel).final;
      }
      var compilerErrors := verify(response);
      if IsSuccess(compilerErrors) {
        generatedTests := generatedTests + [response];
      }
    }

    /** The loop over the kept reference documents of one function. */
    method GenerateFromDocuments(contractCode: string, functionCode: string, documents: seq<Document>,
                                 recompileTries: int, verify: string -> string, subtests: int)
      modifies this
      ensures generatedTests == old(generatedTests)
        + DocumentsAdded(llm, verify, contractCode, functionCode, documents, recompileTries, subtests)
    {
      for d := 0 to |documents|
        invariant generatedTests == old(generatedTests)
          + DocumentsAdded(llm, verify, contractCode, functionCode, documents[..d], recompileTries, subtests)
      {
        DocumentsAddedSnoc(llm, verify, contractCode, functionCode, documents, d, recompileTries, subtests);
        ghost var done := DocumentsAdded(llm, verify, contractCode, functionCode, documents[..d], recompileTries, subtests);
        ghost var next := SubtestsAdded(llm, verify, contractCode, functionCode, documents[d], Subtests(documents[d], subtests), recompileTries);
        GenerateTestFunction(contractCode, functionCode, documents[d], recompileTries, verify, subtests);
        AppendAssoc(old(generatedTests), done, next);
      }
      assert documents[..|documents|] == documents;
    }

    /** The whole run for one contract: extract the blocks, keep the public
        ones, then generate with or without reference documents. */
    method GenerateTestFunctions(contract: string, recompileTries: int, k: int, subtests: int, verify: string -> string)
      modifies this
      ensures generatedTests == old(generatedTests) + SessionAdded(llm, useRag, verify, contract, recompileTries, k, subtests)
    {
      var functions, functionNames := ContractParser.StrFunctionsWithNames(contract);
      var publicFunctions, publicFunctionNames := FilterPublic(functions, functionNames);
      var contractCode := contract;
      if useRag {
        var publicFunctionDescriptions := DescribeFunctions(publicFunctions);
        GenerateWithRag(contractCode, publicFunctions, publicFunctionDescriptions, recompileTries, k, subtests, verify);
      } else {
        GenerateWithoutRag(contractCode, publicFunctions, recompileTries, verify);
      }
    }

    /** One description per public function, in order. */
    method DescribeFunctions(publicFunctions: seq<string>) returns (descriptions: seq<string>)
      ensures |descriptions| == |publicFunctions|
      ensures forall j :: 0 <= j < |publicFunctions| ==> descriptions[j] == llm.descriptionModel(publicFunctions[j])
    {
      descriptions := [];
      for i := 0 to |publicFunctions|
        invariant |descriptions| == i
        invariant forall j :: 0 <= j < i ==> descriptions[j] == llm.descriptionModel(publicFunctions[j])
      {
        descriptions := descriptions + [llm.descriptionModel(publicFunctions[i])];
      }
    }

    /** The reference-guided loop over the public functions. */
    method GenerateWithRag(contractCode: string, publicFunctions: seq<string>, descriptions: seq<string>,
                           recompileTries: int, k: int, subtests: int, verify: string -> string)
      requires |descriptions| == |publicFunctions|
      requires forall j :: 0 <= j < |publicFunctions| ==> descriptions[j] == llm.descriptionModel(publicFunctions[j])
      modifies this
      ensures generatedTests == old(generatedTests) + RagAdded(llm, verify, contractCode, publicFunctions, recompileTries, k, subtests)
    {
      for i := 0 to |descriptions|
        invariant generatedTests == old(generatedTests)
          + RagAdded(llm, verify, contractCode, publicFunctions[..i], recompileTries, k, subtests)
      {
        var similarDocuments := llm.similaritySearch(descriptions[i], k);
        var filteredSimilarDocuments := FilterSimilarDocuments(similarDocuments);
        assert filteredSimilarDocuments == ReferenceDocuments(llm, publicFunctions[i], k);
        RagAddedSnoc(llm, verify, contractCode, publicFunctions, i, recompileTries, k, subtests);
        ghost var done := RagAdded(llm, verify, contractCode, publicFunctions[..i], recompileTries, k, subtests);
        ghost var next := DocumentsAdded(llm, verify, contractCode, publicFunctions[i], filteredSimilarDocuments, recompileTries, subtests);
        GenerateFromDocuments(contractCode, publicFunctions[i], filteredSimilarDocuments, recompileTries, verify, subtests);
        AppendAssoc(old(generatedTests), done, next);
      }
      assert publicFunctions[..|publicFunctions|] == publicFunctions;
    }

    /** The loop over the public functions without reference documents. */
    method GenerateWithoutRag(contractCode: string, publicFunctions: seq<string>, recompileTries: int, verify: string -> string)
      modifies this
      ensures generatedTests == old(generatedTests) + NoRagAdded(llm, verify, contractCode, publicFunctions, recompileTries)
    {
      for i := 0 to |publicFunctions|
        invariant generatedTests == old(generatedTests) + NoRagAdded(llm, verify, contractCode, publicFunctions[..i], recompileTries)
      {
        assert publicFunctions[..i + 1][..i] == publicFunctions[..i];
        ghost var done := NoRagAdded(llm, verify, contractCode, publicFunctions[..i], recompileTries);
        ghost var next := Added(NoRagAttempt(llm, verify, contractCode, publicFunctions[i], recompileTries));
        GenerateTestFunctionNoRag(contractCode, publicFunctions[i], recompileTries, verify);
        AppendAssoc(old(generatedTests), done, next);
      }
      assert publicFunctions[..|publicFunctions|] == publicFunctions;
    }
  }
}
