/** `runTestSuite` once its options are validated: the end-state markers, the
    effective console ignore list, the headless override from the
    environment and the pass verdict drawn from the first end-state
    message. */
module Runner {
  import opened JsValues
  import opened Watch
  import opened ConsoleFilter
  import opened Options

  /** `/^\[MOCHA_END/`: the pattern every end-of-run marker matches. */
  const MochaEndState: JsValue := RegExp("^\\[MOCHA_END", "")

  /** The text an end-of-run marker starts with. */
  const EndMarkerPrefix: string := "[MOCHA_END"

  /** The end-of-run marker of a passing suite. */
  const MochaPassed: string := "[MOCHA_END_PASSED]"

  /** A matcher that gives `MochaEndState` its meaning: a text matches
      exactly when it starts with `[MOCHA_END`. */
  ghost predicate EndStateMatcher(matches: Matcher) {
    forall t :: matches(t, MochaEndState) <==> EndMarkerPrefix <= t
  }

  /** The ignore list of the console listener: the end-state pattern, then the
      caller's entries in order. */
  function ConsoleIgnoreList(ignoreConsole: seq<JsValue>): seq<JsValue> {
    [MochaEndState] + ignoreConsole
  }

  /** End-of-run markers are never forwarded to the local console, whatever
      the caller's ignore list, arguments or `onlyMocha`. */
  lemma EndMarkersNeverForwarded(msg: ConsoleMessage, ignoreConsole: seq<JsValue>, onlyMocha: bool, matches: Matcher)
    requires EndStateMatcher(matches) && EndMarkerPrefix <= msg.text
    ensures Forward(msg, ConsoleIgnoreList(ignoreConsole), onlyMocha, matches) == None
  {
    IgnoredForwardsNothing(msg, ConsoleIgnoreList(ignoreConsole), onlyMocha, matches, 0);
  }

  /** The caller's ignore entries keep their effect behind the end-state
      pattern: any one of them that matches silences the message. */
  lemma CallerIgnoresApply(msg: ConsoleMessage, ignoreConsole: seq<JsValue>, onlyMocha: bool, matches: Matcher, i: nat)
    requires i < |ignoreConsole| && matches(msg.text, ignoreConsole[i])
    ensures Forward(msg, ConsoleIgnoreList(ignoreConsole), onlyMocha, matches) == None
  {
    IgnoredForwardsNothing(msg, ConsoleIgnoreList(ignoreConsole), onlyMocha, matches, i + 1);
  }

  /** The headless flag given to the browser: `PUPPETEER_HEADLESS === 'true'`
      when the variable is set, the option otherwise. */
  function EffectiveHeadless(envHeadless: Option<string>, headless: bool): bool {
    if envHeadless.Some? then envHeadless.value == "true" else headless
  }

  /** A set variable overrides the option in both directions, and only the
      exact text `true` turns headless mode on. */
  lemma HeadlessFromEnvironment(envHeadless: Option<string>, headless: bool)
    ensures envHeadless.Some? ==> (EffectiveHeadless(envHeadless, headless) <==> envHeadless.value == "true")
    ensures envHeadless.None? ==> EffectiveHeadless(envHeadless, headless) == headless
    ensures envHeadless.Some? ==> EffectiveHeadless(envHeadless, headless) == EffectiveHeadless(envHeadless, !headless)
  {
  }

  /** `s_MOCHA_PASSED === mochaEndState`. */
  function Passed(endState: string): bool {
    MochaPassed == endState
  }

  /** How a run ends: with a verdict, or never, when no end-state marker
      arrives (the wait has no timeout). */
  datatype RunOutcome = Finished(passed: bool) | NeverFinishes

  /** The completion wait of `runTestSuite`, over the console texts the page
      emits in order. */
  function SuiteOutcome(matches: Matcher, texts: seq<string>): RunOutcome {
    match FirstSettle(WatchSpec(MochaEndState, Undefined, matches), texts)
    case None => NeverFinishes
    case Some(s) => Finished(Passed(s.text))
  }

  /** The first end-state message decides the run, and it passes exactly when
      that message is `[MOCHA_END_PASSED]`. */
  lemma {:induction false} SuiteVerdict(matches: Matcher, texts: seq<string>)
    requires EndStateMatcher(matches)
    ensures SuiteOutcome(matches, texts) == NeverFinishes <==>
      forall i :: 0 <= i < |texts| ==> !(EndMarkerPrefix <= texts[i])
    ensures SuiteOutcome(matches, texts) == Finished(true) <==>
      exists i :: 0 <= i < |texts| && texts[i] == MochaPassed
        && forall j :: 0 <= j < i ==> !(EndMarkerPrefix <= texts[j])
  {
    var w := WatchSpec(MochaEndState, Undefined, matches);
    assert forall t :: Decide(w, t).None? <==> !(EndMarkerPrefix <= t);
    PendingIffNoMatch(w, texts);
    if SuiteOutcome(matches, texts) == Finished(true) {
      var i := FirstSettleWitness(w, texts);
      assert texts[i] == MochaPassed;
    }
    if exists i :: 0 <= i < |texts| && texts[i] == MochaPassed
        && forall j :: 0 <= j < i ==> !(EndMarkerPrefix <= texts[j]) {
      var i :| 0 <= i < |texts| && texts[i] == MochaPassed
        && forall j :: 0 <= j < i ==> !(EndMarkerPrefix <= texts[j]);
      assert EndMarkerPrefix <= MochaPassed;
      FirstSettleAt(w, texts, i);
    }
  }

  /** The result of `runTestSuite(options)` with `PUPPETEER_HEADLESS` as given
      and the page emitting `texts`: the headless value before
      `puppeteerOptions` are merged over it, the console listener's ignore
      list and `onlyMocha` flag, and how the run ends, or the `TypeError` of
      the first ill-typed option. */
  datatype Run = Run(headless: bool, ignore: seq<JsValue>, onlyMocha: bool, outcome: RunOutcome)

  function RunTestSuite(bag: Bag, envHeadless: Option<string>, matches: Matcher, texts: seq<string>)
    : (r: Result<Run, OptionError>)
    ensures r.Failure? <==> exists i :: 0 <= i < |SuiteRules| && !Satisfies(bag, SuiteRules[i])
    ensures r.Failure? ==> Some(r.error.message) == FirstViolation(bag, SuiteRules)
    ensures r.Success? ==>
      && (envHeadless.None? ==> Value(bag, HeadlessRule) == Bool(r.value.headless))
      && (envHeadless.Some? ==> (r.value.headless <==> envHeadless.value == "true"))
      && Value(bag, IgnoreConsoleRule).Array?
      && r.value.ignore == [MochaEndState] + Value(bag, IgnoreConsoleRule).elems
      && Value(bag, OnlyMochaRule) == Bool(r.value.onlyMocha)
      && r.value.outcome == SuiteOutcome(matches, texts)
  {
    match ValidateSuite(bag)
    case Failure(e) => Failure(e)
    case Success(c) =>
      Success(Run(EffectiveHeadless(envHeadless, c.headless), ConsoleIgnoreList(c.ignoreConsole),
                  c.onlyMocha, SuiteOutcome(matches, texts)))
  }

  /** Whether a run fails on its options, and with which error, depends on
      the options alone, not on the environment or the console stream. */
  lemma OptionErrorsDependOnOptionsOnly(bag: Bag, e1: Option<string>, m1: Matcher, t1: seq<string>,
                                        e2: Option<string>, m2: Matcher, t2: seq<string>)
    requires RunTestSuite(bag, e1, m1, t1).Failure?
    ensures RunTestSuite(bag, e2, m2, t2) == RunTestSuite(bag, e1, m1, t1)
    ensures exists i :: (0 <= i < |SuiteRules| && !Satisfies(bag, SuiteRules[i])
                         && SuiteRules[i].message == RunTestSuite(bag, e1, m1, t1).error.message)
  {
    ViolationIsReal(bag, SuiteRules);
  }

  /** The console listener of a validated run: it never forwards an end
      marker, and it forwards every other message with arguments that no
      caller entry ignores, tag stripped, unless `onlyMocha` asks for the
      tag and the message lacks it. */
  lemma {:induction false} RunListener(bag: Bag, envHeadless: Option<string>, matches: Matcher,
                                       texts: seq<string>, msg: ConsoleMessage)
    requires RunTestSuite(bag, envHeadless, matches, texts).Success? && EndStateMatcher(matches)
    ensures var run := RunTestSuite(bag, envHeadless, matches, texts).value;
      && (EndMarkerPrefix <= msg.text ==> Forward(msg, run.ignore, run.onlyMocha, matches) == None)
      && (!(EndMarkerPrefix <= msg.text) && |msg.args| > 0
          && (forall i :: 0 <= i < |Value(bag, IgnoreConsoleRule).elems| ==>
                !matches(msg.text, Value(bag, IgnoreConsoleRule).elems[i]))
          ==> Forward(msg, run.ignore, run.onlyMocha, matches) ==
                if run.onlyMocha && msg.args[0] != MochaTag then None
                else Some(Forwarded(SinkFor(msg.kind), StripTag(msg.args))))
  {
    var run := RunTestSuite(bag, envHeadless, matches, texts).value;
    var caller := Value(bag, IgnoreConsoleRule).elems;
    assert run.ignore == ConsoleIgnoreList(caller);
    if EndMarkerPrefix <= msg.text {
      EndMarkersNeverForwarded(msg, caller, run.onlyMocha, matches);
    } else if forall i :: 0 <= i < |caller| ==> !matches(msg.text, caller[i]) {
      forall i | 0 <= i < |run.ignore|
        ensures !matches(msg.text, run.ignore[i])
      {
        if i > 0 {
          assert run.ignore[i] == caller[i - 1];
        }
      }
    }
  }

  /** The run in which the page logs `hello`, `[MOCHA_END_PASSED]` and
      `world`: the watch settles on the second message and the run passes;
      the third is never seen by the detached watch. */
  lemma PassingRunExample(matches: Matcher)
    requires EndStateMatcher(matches)
    ensures FirstSettle(WatchSpec(MochaEndState, Undefined, matches), ["hello", MochaPassed, "world"])
      == Some(Resolved(MochaPassed))
    ensures SuiteOutcome(matches, ["hello", MochaPassed, "world"]) == Finished(true)
  {
    var texts := ["hello", MochaPassed, "world"];
    var w := WatchSpec(MochaEndState, Undefined, matches);
    assert !(EndMarkerPrefix <= "hello");
    assert EndMarkerPrefix <= MochaPassed;
    FirstSettleAt(w, texts, 1);
  }
}
