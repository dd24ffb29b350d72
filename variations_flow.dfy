/** The stylistic-variations flow: three calls of the hosted model with the
    same request; the truthy media urls are collected in call order. A call
    that throws is not caught, so it aborts the whole flow. */
module VariationsFlow {
  import opened ModelCall

  datatype VariationsInput = VariationsInput(photoDataUri: string, prompt: string)

  datatype VariationsOutput = VariationsOutput(stylisticVariations: seq<string>)

  const StylePrefix := "Generate an image of this character in the style of: "

  /** The loop bound `i < 3`. */
  const VariationCount: nat := 3

  function StyleRequest(input: VariationsInput): (q: Request)
  {
    ImageRequest(input.photoDataUri, StylePrefix + input.prompt)
  }

  /** What the model answers to the three calls, in call order. */
  function Answers(input: VariationsInput, oracle: Oracle): (answers: seq<CallOutcome>)
  {
    seq(VariationCount, k requires 0 <= k < VariationCount => oracle(k, StyleRequest(input)))
  }

  /** The url one answer contributes: `media?.url` when it is truthy. */
  function Kept(o: CallOutcome): (urls: seq<string>)
  {
    match MediaUrl(o)
    case Some(url) => if url != "" then [url] else []
    case None => []
  }

  /** The collected urls after the given answers were consumed one by one,
      or the error of the first call that threw. */
  function Collect(answers: seq<CallOutcome>): (r: Result<seq<string>>)
    decreases |answers|
  {
    if answers == [] then Ok([])
    else
      var last := answers[|answers| - 1];
      match Collect(answers[..|answers| - 1])
      case Err(e) => Err(e)
      case Ok(urls) => if last.Threw? then Err(ModelError(last.message)) else Ok(urls + Kept(last))
  }

  /** How many calls are made: up to and including the first that throws. */
  function CallsMade(answers: seq<CallOutcome>): (n: nat)
    decreases |answers|
  {
    if answers == [] then 0
    else if Collect(answers[..|answers| - 1]).Err? then CallsMade(answers[..|answers| - 1])
    else |answers|
  }

  /** `n` copies of the same request. */
  function Repeat(q: Request, n: nat): (r: seq<Request>)
  {
    seq(n, _ => q)
  }

  /** `generateStylisticVariationsFlow` as a function of the oracle. */
  function Flow(input: VariationsInput, oracle: Oracle): (run: Run<VariationsOutput>)
  {
    var answers := Answers(input, oracle);
    var result := match Collect(answers)
      case Ok(urls) => Ok(VariationsOutput(urls))
      case Err(e) => Err(e);
    Run(result, Repeat(StyleRequest(input), CallsMade(answers)))
  }

  /** The flow's body: the loop that pushes every truthy `media.url`. */
  method GenerateStylisticVariations(input: VariationsInput, oracle: Oracle) returns (run: Run<VariationsOutput>)
    ensures run == Flow(input, oracle)
  {
    var request := StyleRequest(input);
    ghost var answers := Answers(input, oracle);
    var stylisticVariations: seq<string> := [];
    var calls: seq<Request> := [];
    var i: nat := 0;
    while i < VariationCount
      invariant i <= VariationCount
      invariant calls == Repeat(request, i)
      invariant Collect(answers[..i]) == Ok(stylisticVariations)
      invariant CallsMade(answers[..i]) == i
    {
      var answer := oracle(i, request);
      calls := calls + [request];
      assert answers[..i + 1][..i] == answers[..i] && answers[i] == answer;
      if answer.Threw? {
        AbortIsFinal(answers, i + 1);
        return Run(Err(ModelError(answer.message)), calls);
      }
      ghost var old_variations := stylisticVariations;
      var url := MediaUrl(answer);
      if url.Some? && url.value != "" {
        stylisticVariations := stylisticVariations + [url.value];
      }
      assert stylisticVariations == old_variations + Kept(answer);
      i := i + 1;
    }
    assert answers[..i] == answers;
    run := Run(Ok(VariationsOutput(stylisticVariations)), calls);
  }

  /** Once a call has thrown, the later answers change nothing: neither the
      outcome nor the number of calls. */
  lemma {:induction false} AbortIsFinal(answers: seq<CallOutcome>, k: nat)
    requires k <= |answers|
    requires Collect(answers[..k]).Err?
    ensures Collect(answers) == Collect(answers[..k])
    ensures CallsMade(answers) == CallsMade(answers[..k])
    decreases |answers| - k
  {
    if k < |answers| {
      var init := answers[..|answers| - 1];
      assert init[..k] == answers[..k];
      AbortIsFinal(init, k);
    } else {
      assert answers[..k] == answers;
    }
  }

  /** The flow succeeds iff no call throws, and then every call is made;
      otherwise the calls stop at the first that throws, and its message is
      the error. */
  lemma {:induction false} CallsStopAtFirstThrow(answers: seq<CallOutcome>)
    ensures Collect(answers).Ok? <==> forall j :: 0 <= j < |answers| ==> !answers[j].Threw?
    ensures Collect(answers).Ok? ==> CallsMade(answers) == |answers|
    ensures Collect(answers).Err? ==>
      && 1 <= CallsMade(answers) <= |answers|
      && answers[CallsMade(answers) - 1].Threw?
      && Collect(answers) == Err(ModelError(answers[CallsMade(answers) - 1].message))
      && forall j :: 0 <= j < CallsMade(answers) - 1 ==> !answers[j].Threw?
    decreases |answers|
  {
    if answers != [] {
      var init := answers[..|answers| - 1];
      CallsStopAtFirstThrow(init);
      assert forall j :: 0 <= j < |init| ==> init[j] == answers[j];
    }
  }

  /** The truthy urls of the answers in call order, defined front to back. */
  function TruthyUrls(answers: seq<CallOutcome>): (urls: seq<string>)
    decreases |answers|
  {
    if answers == [] then [] else Kept(answers[0]) + TruthyUrls(answers[1..])
  }

  lemma {:induction false} TruthyUrlsAppend(answers: seq<CallOutcome>, o: CallOutcome)
    ensures TruthyUrls(answers + [o]) == TruthyUrls(answers) + Kept(o)
    decreases |answers|
  {
    if answers == [] {
      assert [o][1..] == [];
    } else {
      assert (answers + [o])[1..] == answers[1..] + [o];
      TruthyUrlsAppend(answers[1..], o);
    }
  }

  /** A successful collection is exactly the subsequence of truthy urls, in
      call order. */
  lemma {:induction false} CollectIsTruthyUrls(answers: seq<CallOutcome>)
    ensures Collect(answers).Ok? ==> Collect(answers).value == TruthyUrls(answers)
    decreases |answers|
  {
    if answers != [] {
      var init := answers[..|answers| - 1];
      var last := answers[|answers| - 1];
      CollectIsTruthyUrls(init);
      assert answers == init + [last];
      TruthyUrlsAppend(init, last);
    }
  }

  /** At most one url per answer, and every one is a non-empty string. */
  lemma {:induction false} TruthyUrlsBounds(answers: seq<CallOutcome>)
    ensures |TruthyUrls(answers)| <= |answers|
    ensures forall u :: u in TruthyUrls(answers) ==> u != ""
    decreases |answers|
  {
    if answers != [] {
      TruthyUrlsBounds(answers[1..]);
    }
  }

  /** What the flow promises: every call carries the same photo and the
      styled instruction; it makes three calls unless one throws; on success
      it returns 0 to 3 non-empty urls, the truthy ones in call order; on
      failure it returns no partial list, only the first thrown error. */
  lemma FlowContract(input: VariationsInput, oracle: Oracle)
    ensures var run := Flow(input, oracle);
      && 1 <= |run.calls| <= VariationCount
      && (forall c :: c in run.calls ==> c == ImageRequest(input.photoDataUri, StylePrefix + input.prompt))
      && (run.result.Ok? <==> forall k :: 0 <= k < VariationCount ==> !oracle(k, StyleRequest(input)).Threw?)
      && (run.result.Ok? ==>
            && |run.calls| == VariationCount
            && run.result.value.stylisticVariations == TruthyUrls(Answers(input, oracle))
            && |run.result.value.stylisticVariations| <= VariationCount
            && forall u :: u in run.result.value.stylisticVariations ==> u != "")
      && (run.result.Err? ==>
            && oracle(|run.calls| - 1, StyleRequest(input)).Threw?
            && run.result.error == ModelError(oracle(|run.calls| - 1, StyleRequest(input)).message)
            && forall k :: 0 <= k < |run.calls| - 1 ==> !oracle(k, StyleRequest(input)).Threw?)
  {
    var answers := Answers(input, oracle);
    CallsStopAtFirstThrow(answers);
    CollectIsTruthyUrls(answers);
    TruthyUrlsBounds(answers);
  }

  /** Three answers with urls give three variations, in call order. */
  lemma AllImagesGiveThree(input: VariationsInput, oracle: Oracle, u0: string, u1: string, u2: string)
    requires u0 != "" && u1 != "" && u2 != ""
    requires oracle(0, StyleRequest(input)) == Returned(Some(Media(Some(u0))))
    requires oracle(1, StyleRequest(input)) == Returned(Some(Media(Some(u1))))
    requires oracle(2, StyleRequest(input)) == Returned(Some(Media(Some(u2))))
    ensures Flow(input, oracle).result == Ok(VariationsOutput([u0, u1, u2]))
  {
    var answers := Answers(input, oracle);
    CallsStopAtFirstThrow(answers);
    CollectIsTruthyUrls(answers);
    UnfoldThree(answers);
    assert Collect(answers).Ok?;
    assert Kept(answers[0]) == [u0];
    assert Kept(answers[1]) == [u1];
    assert Kept(answers[2]) == [u2];
    assert Collect(answers).value == [u0, u1, u2];
  }

  /** An imageless second answer is skipped: the other two urls remain. */
  lemma ImagelessCallIsSkipped(input: VariationsInput, oracle: Oracle, u0: string, u2: string)
    requires u0 != "" && u2 != ""
    requires oracle(0, StyleRequest(input)) == Returned(Some(Media(Some(u0))))
    requires oracle(1, StyleRequest(input)) == Returned(None)
    requires oracle(2, StyleRequest(input)) == Returned(Some(Media(Some(u2))))
    ensures Flow(input, oracle).result == Ok(VariationsOutput([u0, u2]))
    ensures |Flow(input, oracle).calls| == VariationCount
  {
    var answers := Answers(input, oracle);
    CallsStopAtFirstThrow(answers);
    CollectIsTruthyUrls(answers);
    UnfoldThree(answers);
    assert Collect(answers).Ok?;
    assert Kept(answers[0]) == [u0];
    assert Kept(answers[1]) == [];
    assert Kept(answers[2]) == [u2];
    assert Collect(answers).value == [u0, u2];
  }

  /** A throwing second call aborts after two calls; the first url is lost. */
  lemma ThrowingCallAborts(input: VariationsInput, oracle: Oracle, u0: string, m: string)
    requires oracle(0, StyleRequest(input)) == Returned(Some(Media(Some(u0))))
    requires oracle(1, StyleRequest(input)) == Threw(m)
    ensures Flow(input, oracle).result == Err(ModelError(m))
    ensures |Flow(input, oracle).calls| == 2
  {
    var answers := Answers(input, oracle);
    CallsStopAtFirstThrow(answers);
    assert answers[..1][..0] == [] && answers[..2][..1] == answers[..1];
    assert answers[..1][0] == answers[0] && answers[..2][1] == answers[1];
    assert [] + Kept(answers[0]) == Kept(answers[0]);
    assert Collect(answers[..1]) == Ok(Kept(answers[0]));
    assert Collect(answers[..2]) == Err(ModelError(m));
    assert CallsMade(answers[..2]) == 2;
    AbortIsFinal(answers, 2);
  }

  lemma UnfoldThree(answers: seq<CallOutcome>)
    requires |answers| == 3
    ensures TruthyUrls(answers) == Kept(answers[0]) + Kept(answers[1]) + Kept(answers[2])
  {
    assert answers[1..][1..] == answers[2..] && answers[2..][1..] == [];
    assert TruthyUrls(answers[2..]) == Kept(answers[2]);
    assert TruthyUrls(answers[1..]) == Kept(answers[1]) + Kept(answers[2]);
  }
}
