/**
 * The compile-repair loop of the test generator (`Model.recompile_output`)
 * and the final check its callers make.
 *
 * The verifier (`get_compile_errors`: render the candidate into a scratch
 * test file, run `forge test` on it and return its standard output) is a
 * deterministic function `verify` from candidate text to raw output.  The
 * repair step (the compilation model prompted with the error template) is
 * a function `repair` of the exact context it is shown.  Each run returns
 * the candidate it ends with together with the trace of the calls it made
 * to the two, so that the number, order and arguments of those calls can
 * be stated.
 */
module Recompile {
  import opened PyStr

  const CompilerRunSuccessful := "Compiler run successful"
  const CompilationSkipped := "compilation skipped"

  /** Success test on raw verifier output: either marker occurs in it,
      compared case-sensitively. */
  function IsSuccess(output: string): (passed: bool)
    ensures |output| < |CompilationSkipped| ==> !passed
  {
    Contains(output, CompilerRunSuccessful) || Contains(output, CompilationSkipped)
  }

  /** Output counts as success exactly when one of the two markers occurs in it. */
  lemma SuccessIffMarker(output: string)
    ensures IsSuccess(output) <==>
      (exists i :: OccursAt(output, CompilerRunSuccessful, i)) || (exists i :: OccursAt(output, CompilationSkipped, i))
  {
    ContainsIff(output, CompilerRunSuccessful);
    ContainsIff(output, CompilationSkipped);
  }

  /** What the repair step is shown: the raw verifier output, the failing
      candidate, the contract and the function under test. */
  datatype RepairContext = RepairContext(errorInfo: string, testFunction: string, contractCode: string, functionCode: string)

  /** One call made to a collaborator. */
  datatype Call = Verify(candidate: string) | Repair(context: RepairContext)

  /** The candidate a run ends with, and the calls it made, in order. */
  datatype Lineage = Lineage(final: string, calls: seq<Call>)

  /** The contexts of the repair calls in a trace, in order. */
  function Repairs(calls: seq<Call>): seq<RepairContext> {
    if calls == [] then []
    else (if calls[0].Repair? then [calls[0].context] else []) + Repairs(calls[1..])
  }

  /** The number of verifier calls in a trace. */
  function VerifyCount(calls: seq<Call>): nat {
    if calls == [] then 0
    else (if calls[0].Verify? then 1 else 0) + VerifyCount(calls[1..])
  }

  lemma TraceOfRound(c: string, ctx: RepairContext, rest: seq<Call>)
    ensures Repairs([Verify(c), Repair(ctx)] + rest) == [ctx] + Repairs(rest)
    ensures VerifyCount([Verify(c), Repair(ctx)] + rest) == 1 + VerifyCount(rest)
  {
    var t := [Verify(c), Repair(ctx)] + rest;
    assert t[1..] == [Repair(ctx)] + rest;
    assert t[1..][1..] == rest;
  }

  /** `recompile_output`: with tries left, verify the candidate; stop on
      success, otherwise repair it and go on with one try fewer.  With no
      tries left the candidate is returned without being verified. */
  function RecompileOutput(functionCode: string, contractCode: string, testFunction: string, tries: nat,
                           verify: string -> string, repair: RepairContext -> string): (r: Lineage)
    ensures |Repairs(r.calls)| <= tries && VerifyCount(r.calls) <= tries
    ensures Repairs(r.calls) == [] ==> r.final == testFunction
    ensures Repairs(r.calls) != [] ==> r.final == repair(Repairs(r.calls)[|Repairs(r.calls)| - 1])
    ensures tries == 0 ==> r.calls == []
    ensures tries > 0 && IsSuccess(verify(testFunction)) ==> r.calls == [Verify(testFunction)]
    decreases tries
  {
    if tries == 0 then Lineage(testFunction, [])
    else
      var compilerErrors := verify(testFunction);
      if IsSuccess(compilerErrors) then Lineage(testFunction, [Verify(testFunction)])
      else
        var context := RepairContext(compilerErrors, testFunction, contractCode, functionCode);
        var rest := RecompileOutput(functionCode, contractCode, repair(context), tries - 1, verify, repair);
        TraceOfRound(testFunction, context, rest.calls);
        Lineage(rest.final, [Verify(testFunction), Repair(context)] + rest.calls)
  }

  /** The protocol of a run that starts from `c`: the first call verifies
      `c`; each repair call comes right after a failing verification and is
      shown exactly that candidate, its raw output, the contract and the
      function; each later verification is of the previous repair's output. */
  ghost predicate FollowsProtocol(calls: seq<Call>, c: string, functionCode: string, contractCode: string,
                                  verify: string -> string, repair: RepairContext -> string)
  {
    && (calls != [] ==> calls[0] == Verify(c))
    && (forall j :: 0 <= j < |calls| && calls[j].Repair? ==>
          j > 0 && calls[j - 1] == Verify(calls[j].context.testFunction)
          && !IsSuccess(verify(calls[j].context.testFunction))
          && calls[j].context == RepairContext(verify(calls[j].context.testFunction), calls[j].context.testFunction, contractCode, functionCode))
    && (forall j :: 0 < j < |calls| && calls[j].Verify? ==>
          calls[j - 1].Repair? && calls[j].candidate == repair(calls[j - 1].context))
  }

  lemma {:induction false} RecompileFollowsProtocol(functionCode: string, contractCode: string, testFunction: string, tries: nat,
                                                   verify: string -> string, repair: RepairContext -> string)
    ensures FollowsProtocol(RecompileOutput(functionCode, contractCode, testFunction, tries, verify, repair).calls,
                            testFunction, functionCode, contractCode, verify, repair)
    decreases tries
  {
    if tries > 0 && !IsSuccess(verify(testFunction)) {
      var context := RepairContext(verify(testFunction), testFunction, contractCode, functionCode);
      var next := repair(context);
      RecompileFollowsProtocol(functionCode, contractCode, next, tries - 1, verify, repair);
      var rest := RecompileOutput(functionCode, contractCode, next, tries - 1, verify, repair).calls;
      var calls := [Verify(testFunction), Repair(context)] + rest;
      forall j | 0 <= j < |calls| && calls[j].Repair?
        ensures j > 0 && calls[j - 1] == Verify(calls[j].context.testFunction)
          && !IsSuccess(verify(calls[j].context.testFunction))
          && calls[j].context == RepairContext(verify(calls[j].context.testFunction), calls[j].context.testFunction, contractCode, functionCode)
      {
        if j >= 2 {
          assert calls[j] == rest[j - 2];
          assert calls[j - 1] == rest[j - 3];
        }
      }
      forall j | 0 < j < |calls| && calls[j].Verify?
        ensures calls[j - 1].Repair? && calls[j].candidate == repair(calls[j - 1].context)
      {
        assert j >= 2 && calls[j] == rest[j - 2];
        if j > 2 {
          assert calls[j - 1] == rest[j - 3];
        }
      }
    }
  }

  /** The run stops before its tries are used up only on success, after
      verifying the candidate it returns. */
  lemma {:induction false} StopsEarlyOnlyOnSuccess(functionCode: string, contractCode: string, testFunction: string, tries: nat,
                                                   verify: string -> string, repair: RepairContext -> string)
    ensures var r := RecompileOutput(functionCode, contractCode, testFunction, tries, verify, repair);
      |Repairs(r.calls)| < tries ==>
        && r.calls != [] && r.calls[|r.calls| - 1] == Verify(r.final)
        && IsSuccess(verify(r.final))
    decreases tries
  {
    var r := RecompileOutput(functionCode, contractCode, testFunction, tries, verify, repair);
    if tries > 0 && IsSuccess(verify(testFunction)) {
      assert r == Lineage(testFunction, [Verify(testFunction)]);
      assert r.calls[|r.calls| - 1] == Verify(r.final);
    } else if tries > 0 {
      var context := RepairContext(verify(testFunction), testFunction, contractCode, functionCode);
      StopsEarlyOnlyOnSuccess(functionCode, contractCode, repair(context), tries - 1, verify, repair);
      var rest := RecompileOutput(functionCode, contractCode, repair(context), tries - 1, verify, repair);
      TraceOfRound(testFunction, context, rest.calls);
      var calls := [Verify(testFunction), Repair(context)] + rest.calls;
      assert r == Lineage(rest.final, calls);
      if |Repairs(calls)| < tries {
        assert |Repairs(rest.calls)| < tries - 1;
        assert rest.calls != [] && rest.calls[|rest.calls| - 1] == Verify(rest.final);
        assert calls[|calls| - 1] == Verify(r.final);
      }
    }
  }

  /** After `tries` failed rounds the run returns the output of the last
      repair call, which it has not verified, and every verification it
      made failed. */
  lemma {:induction false} ExhaustedEndsWithRepair(functionCode: string, contractCode: string, testFunction: string, tries: nat,
                                                   verify: string -> string, repair: RepairContext -> string)
    requires tries > 0
    ensures var r := RecompileOutput(functionCode, contractCode, testFunction, tries, verify, repair);
      |Repairs(r.calls)| == tries ==>
        && r.calls[|r.calls| - 1] == Repair(Repairs(r.calls)[tries - 1])
        && r.final == repair(Repairs(r.calls)[tries - 1])
    decreases tries
  {
    var r := RecompileOutput(functionCode, contractCode, testFunction, tries, verify, repair);
    if IsSuccess(verify(testFunction)) {
      assert Repairs(r.calls) == Repairs([Verify(testFunction)]) == [];
    } else {
      var context := RepairContext(verify(testFunction), testFunction, contractCode, functionCode);
      var next := repair(context);
      var rest := RecompileOutput(functionCode, contractCode, next, tries - 1, verify, repair);
      TraceOfRound(testFunction, context, rest.calls);
      var calls := [Verify(testFunction), Repair(context)] + rest.calls;
      assert r == Lineage(rest.final, calls);
      if |Repairs(calls)| == tries {
        if tries > 1 {
          ExhaustedEndsWithRepair(functionCode, contractCode, next, tries - 1, verify, repair);
          assert Repairs(calls)[tries - 1] == Repairs(rest.calls)[tries - 2];
          assert calls[|calls| - 1] == rest.calls[|rest.calls| - 1];
        } else {
          assert rest == Lineage(next, []);
          assert Repairs(calls) == [context];
          assert calls[|calls| - 1] == Repair(context);
        }
      }
    }
  }

  /** No verification recorded in a trace passed. */
  ghost predicate NoVerifyPassed(calls: seq<Call>, verify: string -> string) {
    forall j :: 0 <= j < |calls| && calls[j].Verify? ==> !IsSuccess(verify(calls[j].candidate))
  }

  /** A failing round in front of a trace without a passing verification
      adds none. */
  lemma FailedRoundKeepsFailing(c: string, ctx: RepairContext, rest: seq<Call>, verify: string -> string)
    requires !IsSuccess(verify(c)) && NoVerifyPassed(rest, verify)
    ensures NoVerifyPassed([Verify(c), Repair(ctx)] + rest, verify)
  {
    var calls := [Verify(c), Repair(ctx)] + rest;
    forall j | 0 <= j < |calls| && calls[j].Verify?
      ensures !IsSuccess(verify(calls[j].candidate))
    {
      if j >= 2 {
        assert calls[j] == rest[j - 2];
      }
    }
  }

  /** When every try was spent on a repair, every verification made failed. */
  lemma {:induction false} ExhaustedNeverPassed(functionCode: string, contractCode: string, testFunction: string, tries: nat,
                                                verify: string -> string, repair: RepairContext -> string)
    ensures var r := RecompileOutput(functionCode, contractCode, testFunction, tries, verify, repair);
      |Repairs(r.calls)| == tries ==> NoVerifyPassed(r.calls, verify)
    decreases tries
  {
    var r := RecompileOutput(functionCode, contractCode, testFunction, tries, verify, repair);
    if tries == 0 {
      assert r.calls == [];
    } else if IsSuccess(verify(testFunction)) {
      assert Repairs(r.calls) == Repairs([Verify(testFunction)]) == [];
    } else {
      var context := RepairContext(verify(testFunction), testFunction, contractCode, functionCode);
      var next := repair(context);
      var rest := RecompileOutput(functionCode, contractCode, next, tries - 1, verify, repair);
      var calls := [Verify(testFunction), Repair(context)] + rest.calls;
      TraceOfRound(testFunction, context, rest.calls);
      assert r == Lineage(rest.final, calls);
      if |Repairs(calls)| == tries {
        assert |Repairs(rest.calls)| == tries - 1;
        ExhaustedNeverPassed(functionCode, contractCode, next, tries - 1, verify, repair);
        FailedRoundKeepsFailing(testFunction, context, rest.calls, verify);
        assert NoVerifyPassed(calls, verify);
      }
    }
  }

  // ---------------------------------------------------------------------
  // The caller's final check

  /** One candidate lineage as `generate_test_function` and
      `generate_test_function_no_rag` run it: the repair loop when
      `recompile_tries > 0`, then one more verification of the result,
      whose output decides acceptance. */
  datatype Attempt = Attempt(lineage: Lineage, finalOutput: string)

  function RunAttempt(functionCode: string, contractCode: string, response: string, tries: int,
                      verify: string -> string, repair: RepairContext -> string): (a: Attempt)
    ensures a.finalOutput == verify(a.lineage.final)
    ensures tries <= 0 ==> a.lineage == Lineage(response, [])
  {
    var lineage := if tries > 0 then RecompileOutput(functionCode, contractCode, response, tries, verify, repair)
                   else Lineage(response, []);
    Attempt(lineage, verify(lineage.final))
  }

  /** Every call of a lineage, the caller's final verification included. */
  function AllCalls(a: Attempt): seq<Call> {
    a.lineage.calls + [Verify(a.lineage.final)]
  }

  predicate Accepted(a: Attempt) {
    IsSuccess(a.finalOutput)
  }

  lemma VerifyCountAppend(calls: seq<Call>, c: string)
    ensures VerifyCount(calls + [Verify(c)]) == VerifyCount(calls) + 1
    ensures Repairs(calls + [Verify(c)]) == Repairs(calls)
  {
    if calls != [] {
      assert (calls + [Verify(c)])[1..] == calls[1..] + [Verify(c)];
      VerifyCountAppend(calls[1..], c);
    }
  }

  /** A lineage makes at most `tries + 1` verifier calls and at most `tries`
      repair calls; with no tries it makes exactly one verifier call and no
      repair call. */
  lemma AttemptCallBounds(functionCode: string, contractCode: string, response: string, tries: int,
                          verify: string -> string, repair: RepairContext -> string)
    ensures var a := RunAttempt(functionCode, contractCode, response, tries, verify, repair);
      && VerifyCount(AllCalls(a)) <= (if tries > 0 then tries else 0) + 1
      && |Repairs(AllCalls(a))| <= (if tries > 0 then tries else 0)
      && (tries <= 0 ==> VerifyCount(AllCalls(a)) == 1 && Repairs(AllCalls(a)) == [] && a.lineage.final == response)
  {
    var a := RunAttempt(functionCode, contractCode, response, tries, verify, repair);
    VerifyCountAppend(a.lineage.calls, a.lineage.final);
  }

  /** A candidate accepted inside the loop is verified a second time by the
      caller, and (the verifier being deterministic) accepted again. */
  lemma VerifiedTwiceWhenLoopSucceeds(functionCode: string, contractCode: string, response: string, tries: int,
                                      verify: string -> string, repair: RepairContext -> string)
    ensures var a := RunAttempt(functionCode, contractCode, response, tries, verify, repair);
      tries > 0 && |Repairs(a.lineage.calls)| < tries ==>
        && Accepted(a)
        && |AllCalls(a)| >= 2
        && AllCalls(a)[|AllCalls(a)| - 2] == AllCalls(a)[|AllCalls(a)| - 1] == Verify(a.lineage.final)
  {
    if tries > 0 {
      StopsEarlyOnlyOnSuccess(functionCode, contractCode, response, tries, verify, repair);
    }
  }

  /** No tries and a verifier that rejects the candidate: one verifier call,
      the candidate itself returned, and it is not accepted. */
  lemma ZeroTriesRejected(functionCode: string, contractCode: string, response: string,
                          verify: string -> string, repair: RepairContext -> string)
    requires !IsSuccess(verify(response))
    ensures var a := RunAttempt(functionCode, contractCode, response, 0, verify, repair);
      AllCalls(a) == [Verify(response)] && a.lineage.final == response && !Accepted(a)
  {
  }

  /** Two tries; the first candidate and the first repair fail, the second
      repair passes: two repair calls, three verifier calls, and the second
      repair's output is accepted. */
  lemma TwoRepairsThenAccepted(functionCode: string, contractCode: string, c0: string,
                               verify: string -> string, repair: RepairContext -> string)
    requires !IsSuccess(verify(c0))
    requires var c1 := repair(RepairContext(verify(c0), c0, contractCode, functionCode));
      !IsSuccess(verify(c1))
      && IsSuccess(verify(repair(RepairContext(verify(c1), c1, contractCode, functionCode))))
    ensures var c1 := repair(RepairContext(verify(c0), c0, contractCode, functionCode));
      var c2 := repair(RepairContext(verify(c1), c1, contractCode, functionCode));
      var a := RunAttempt(functionCode, contractCode, c0, 2, verify, repair);
      && a.lineage.final == c2 && Accepted(a)
      && |Repairs(AllCalls(a))| == 2 && VerifyCount(AllCalls(a)) == 3
  {
    var c1 := repair(RepairContext(verify(c0), c0, contractCode, functionCode));
    var c2 := repair(RepairContext(verify(c1), c1, contractCode, functionCode));
    var a := RunAttempt(functionCode, contractCode, c0, 2, verify, repair);
    var r1 := RecompileOutput(functionCode, contractCode, c1, 1, verify, repair);
    var r2 := RecompileOutput(functionCode, contractCode, c2, 0, verify, repair);
    assert r1.calls == [Verify(c1), Repair(RepairContext(verify(c1), c1, contractCode, functionCode))];
    AttemptCallBounds(functionCode, contractCode, c0, 2, verify, repair);
    VerifyCountAppend(a.lineage.calls, c2);
  }
}
