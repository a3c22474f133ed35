/** The option bags of `runServerAndTestSuite` and `runTestSuite`: parameter
    destructuring with defaults, the eager `TypeError` checks, the default
    URL built from the port and the ignore-list concatenation. */
module Options {
  import opened JsValues
  import opened Decimal

  /** An options object: its own properties by name. */
  type Bag = map<string, JsValue>

  /** The `TypeError` thrown for an ill-typed option, with its message. */
  datatype OptionError = TypeError(message: string)

  /** A destructured parameter: the default replaces a missing property and
      one whose value is `undefined`. */
  function Param(bag: Bag, name: string, default: JsValue): JsValue {
    if name in bag && bag[name] != Undefined then bag[name] else default
  }

  /** The type test applied to an option. */
  datatype Kind = StringKind | BooleanKind | IntegerKind | ObjectKind | ArrayKind | OptionalFunctionKind

  predicate HasKind(v: JsValue, k: Kind) {
    match k
    case StringKind => TypeOf(v) == "string"
    case BooleanKind => TypeOf(v) == "boolean"
    case IntegerKind => IsInteger(v)
    case ObjectKind => TypeOf(v) == "object"
    case ArrayKind => IsArray(v)
    case OptionalFunctionKind => v == Undefined || TypeOf(v) == "function"
  }

  /** One checked option: its name, its default, its test and the message of
      the `TypeError` raised when the test fails. */
  datatype Rule = Rule(name: string, default: JsValue, kind: Kind, message: string)

  function Value(bag: Bag, rule: Rule): JsValue {
    Param(bag, rule.name, rule.default)
  }

  predicate Satisfies(bag: Bag, rule: Rule) {
    HasKind(Value(bag, rule), rule.kind)
  }

  /** The message of the first rule, in order, that the bag violates. */
  function FirstViolation(bag: Bag, rules: seq<Rule>): Option<string> {
    if rules == [] then None
    else if !Satisfies(bag, rules[0]) then Some(rules[0].message)
    else FirstViolation(bag, rules[1..])
  }

  /** No violation is reported exactly when every rule holds. */
  lemma {:induction false} NoViolationIffAllSatisfied(bag: Bag, rules: seq<Rule>)
    ensures FirstViolation(bag, rules).None? <==> forall i :: 0 <= i < |rules| ==> Satisfies(bag, rules[i])
  {
    if rules != [] {
      NoViolationIffAllSatisfied(bag, rules[1..]);
      assert forall i :: 1 <= i < |rules| ==> rules[i] == rules[1..][i - 1];
    }
  }

  /** The error reported is that of the first violated rule. */
  lemma {:induction false} FirstViolationAt(bag: Bag, rules: seq<Rule>, i: nat)
    requires i < |rules| && !Satisfies(bag, rules[i])
    requires forall j :: 0 <= j < i ==> Satisfies(bag, rules[j])
    ensures FirstViolation(bag, rules) == Some(rules[i].message)
  {
    if i > 0 {
      assert Satisfies(bag, rules[0]);
      FirstViolationAt(bag, rules[1..], i - 1);
    }
  }

  /** A reported error names some violated rule. */
  lemma {:induction false} ViolationIsReal(bag: Bag, rules: seq<Rule>)
    requires FirstViolation(bag, rules).Some?
    ensures exists i :: (0 <= i < |rules| && !Satisfies(bag, rules[i])
                         && rules[i].message == FirstViolation(bag, rules).value)
  {
    if Satisfies(bag, rules[0]) {
      ViolationIsReal(bag, rules[1..]);
      var i :| 0 <= i < |rules[1..]| && !Satisfies(bag, rules[1..][i])
        && rules[1..][i].message == FirstViolation(bag, rules).value;
      assert rules[i + 1] == rules[1..][i];
    }
  }

  // The options of `runServerAndTestSuite`, in the order they are checked.
  const RootRule := Rule("root", Str("./test/public"), StringKind, "'root' must be a directory path string.")
  const ExitOnFailRule := Rule("exitOnFail", Bool(true), BooleanKind, "'exitOnFail' must be a boolean.")
  const PortRule := Rule("port", Num(8080.0), IntegerKind, "'port' must be an integer.")
  const ServerRules := [RootRule, ExitOnFailRule, PortRule]

  // The options of `runTestSuite`, in the order they are checked.
  const UrlRule := Rule("url", Undefined, StringKind, "'url' must be a string.")
  const EmptyCoverageRule := Rule("emptyCoverage", Bool(true), BooleanKind, "'emptyCoverage' must be a boolean.")
  const HeadlessRule := Rule("headless", Bool(true), BooleanKind, "'headless' must be a boolean.")
  const KeepAliveRule := Rule("keepAlive", Bool(false), BooleanKind, "'keepAlive' must be a boolean.")
  const PuppeteerOptionsRule := Rule("puppeteerOptions", Obj, ObjectKind, "'puppeteerOptions' must be an object.")
  const IgnoreConsoleRule := Rule("ignoreConsole", Array([]), ArrayKind, "'ignoreConsole' must be an array.")
  const OnlyMochaRule := Rule("onlyMocha", Bool(false), BooleanKind, "'onlyMocha' must be a boolean.")
  const CoverageGlobalRule := Rule("coverageGlobal", Str("__coverage__"), StringKind, "'coverageGlobal' must be a string.")
  const ReportDirRule := Rule("reportDir", Str("./coverage"), StringKind, "'reportDir' must be a string.")
  const PageConsoleRule := Rule("pageConsole", Undefined, OptionalFunctionKind, "'pageConsole' must be a function.")
  const SuiteRules := [UrlRule, EmptyCoverageRule, HeadlessRule, KeepAliveRule, PuppeteerOptionsRule,
                       IgnoreConsoleRule, OnlyMochaRule, CoverageGlobalRule, ReportDirRule, PageConsoleRule]

  /** The validated options of `runTestSuite`. */
  datatype SuiteConfig = SuiteConfig(
    url: string,
    emptyCoverage: bool,
    headless: bool,
    keepAlive: bool,
    puppeteerOptions: JsValue,
    ignoreConsole: seq<JsValue>,
    onlyMocha: bool,
    coverageGlobal: string,
    reportDir: string,
    pageConsole: JsValue)

  /** The destructuring and checks at the head of `runTestSuite`. */
  function ValidateSuite(bag: Bag): (r: Result<SuiteConfig, OptionError>)
    ensures r.Success? <==> forall i :: 0 <= i < |SuiteRules| ==> Satisfies(bag, SuiteRules[i])
    ensures r.Failure? ==> Some(r.error.message) == FirstViolation(bag, SuiteRules)
    ensures r.Success? ==>
      && Value(bag, UrlRule) == Str(r.value.url)
      && Value(bag, EmptyCoverageRule) == Bool(r.value.emptyCoverage)
      && Value(bag, HeadlessRule) == Bool(r.value.headless)
      && Value(bag, KeepAliveRule) == Bool(r.value.keepAlive)
      && Value(bag, PuppeteerOptionsRule) == r.value.puppeteerOptions
      && Value(bag, IgnoreConsoleRule) == Array(r.value.ignoreConsole)
      && Value(bag, OnlyMochaRule) == Bool(r.value.onlyMocha)
      && Value(bag, CoverageGlobalRule) == Str(r.value.coverageGlobal)
      && Value(bag, ReportDirRule) == Str(r.value.reportDir)
      && Value(bag, PageConsoleRule) == r.value.pageConsole
  {
    NoViolationIffAllSatisfied(bag, SuiteRules);
    match FirstViolation(bag, SuiteRules)
    case Some(m) => Failure(TypeError(m))
    case None =>
      assert Satisfies(bag, SuiteRules[0]) && Satisfies(bag, SuiteRules[1]) && Satisfies(bag, SuiteRules[2]);
      assert Satisfies(bag, SuiteRules[3]) && Satisfies(bag, SuiteRules[5]) && Satisfies(bag, SuiteRules[6]);
      assert Satisfies(bag, SuiteRules[7]) && Satisfies(bag, SuiteRules[8]);
      Success(SuiteConfig(
        Value(bag, UrlRule).s,
        Value(bag, EmptyCoverageRule).b,
        Value(bag, HeadlessRule).b,
        Value(bag, KeepAliveRule).b,
        Value(bag, PuppeteerOptionsRule),
        Value(bag, IgnoreConsoleRule).elems,
        Value(bag, OnlyMochaRule).b,
        Value(bag, CoverageGlobalRule).s,
        Value(bag, ReportDirRule).s,
        Value(bag, PageConsoleRule)))
  }

  /** The test-suite option whose check fails first decides the error. */
  lemma SuiteRejectsFirstIllTyped(bag: Bag, i: nat)
    requires i < |SuiteRules| && !Satisfies(bag, SuiteRules[i])
    requires forall j :: 0 <= j < i ==> Satisfies(bag, SuiteRules[j])
    ensures ValidateSuite(bag) == Failure(TypeError(SuiteRules[i].message))
  {
    FirstViolationAt(bag, SuiteRules, i);
  }

  const UrlPrefix := "http://localhost:"

  /** `http://localhost:${port}/`: the port's canonical decimal numeral
      between the host prefix and a closing slash, from which the port can
      be read back. */
  function DefaultUrl(port: int): (u: string)
    ensures |u| > |UrlPrefix| + 1 && u[..|UrlPrefix|] == UrlPrefix && u[|u| - 1] == '/'
    ensures IsCanonical(u[|UrlPrefix|..|u| - 1])
    ensures IsNumeral(u[|UrlPrefix|..|u| - 1]) && ParseInt(u[|UrlPrefix|..|u| - 1]) == port
  {
    var u := UrlPrefix + IntToString(port) + "/";
    assert u[|UrlPrefix|..|u| - 1] == IntToString(port);
    IntToStringRoundTrip(port);
    u
  }

  /** Different ports give different default URLs. */
  lemma DefaultUrlInjective(p: int, q: int)
    requires DefaultUrl(p) == DefaultUrl(q)
    ensures p == q
  {
  }

  /** The ignore entries every run starts from: none. */
  const DefaultIgnoreConsole: seq<JsValue> := []

  /** What `runServerAndTestSuite` hands on: the server root, the exit
      policy, the port and the options for `runTestSuite`. */
  datatype ServerPlan = ServerPlan(root: string, exitOnFail: bool, port: int, suiteOptions: Bag)

  /** The options `runServerAndTestSuite` passes to `runTestSuite`: the
      remaining options laid over a default `url`, with `ignoreConsole` made
      the default entries followed by the caller's array, or the default
      entries alone when it is not an array. */
  function SuiteOptionsFor(bag: Bag, port: int): Bag {
    var rest := bag - {"root", "exitOnFail", "port"};
    var options := map["url" := Str(DefaultUrl(port))] + rest;
    var ignore :=
      if "ignoreConsole" in options && IsArray(options["ignoreConsole"])
      then DefaultIgnoreConsole + options["ignoreConsole"].elems
      else DefaultIgnoreConsole;
    options["ignoreConsole" := Array(ignore)]
  }

  /** The destructuring, checks and option rewriting at the head of
      `runServerAndTestSuite`. */
  function PrepareServer(bag: Bag): (r: Result<ServerPlan, OptionError>)
    ensures r.Success? <==> forall i :: 0 <= i < |ServerRules| ==> Satisfies(bag, ServerRules[i])
    ensures r.Failure? ==> Some(r.error.message) == FirstViolation(bag, ServerRules)
    ensures r.Success? ==>
      && Value(bag, RootRule) == Str(r.value.root)
      && Value(bag, ExitOnFailRule) == Bool(r.value.exitOnFail)
      && Value(bag, PortRule) == Num(r.value.port as real)
      && r.value.suiteOptions == SuiteOptionsFor(bag, r.value.port)
  {
    NoViolationIffAllSatisfied(bag, ServerRules);
    match FirstViolation(bag, ServerRules)
    case Some(m) => Failure(TypeError(m))
    case None =>
      assert Satisfies(bag, ServerRules[0]) && Satisfies(bag, ServerRules[1]) && Satisfies(bag, ServerRules[2]);
      var port := Value(bag, PortRule).n.Floor;
      Success(ServerPlan(Value(bag, RootRule).s, Value(bag, ExitOnFailRule).b, port, SuiteOptionsFor(bag, port)))
  }

  /** The `url` handed on is the caller's if the bag has one (even
      `undefined`), else the default URL for the port. */
  lemma SuiteOptionsUrl(bag: Bag, port: int)
    ensures "url" in SuiteOptionsFor(bag, port)
    ensures SuiteOptionsFor(bag, port)["url"] == if "url" in bag then bag["url"] else Str(DefaultUrl(port))
  {
  }

  /** `ignoreConsole` handed on is always an array: the default entries, then
      the caller's entries in order when the caller gave an array. */
  lemma SuiteOptionsIgnore(bag: Bag, port: int)
    ensures "ignoreConsole" in SuiteOptionsFor(bag, port)
    ensures SuiteOptionsFor(bag, port)["ignoreConsole"] == Array(DefaultIgnoreConsole +
      if "ignoreConsole" in bag && IsArray(bag["ignoreConsole"]) then bag["ignoreConsole"].elems else [])
  {
  }

  /** The server's own options are removed, every other option is handed on
      unchanged. */
  lemma SuiteOptionsRest(bag: Bag, port: int, k: string)
    requires k != "url" && k != "ignoreConsole"
    ensures k == "root" || k == "exitOnFail" || k == "port" ==> k !in SuiteOptionsFor(bag, port)
    ensures k != "root" && k != "exitOnFail" && k != "port" ==>
      (k in SuiteOptionsFor(bag, port) <==> k in bag)
      && (k in bag ==> SuiteOptionsFor(bag, port)[k] == bag[k])
  {
    var rest := bag - {"root", "exitOnFail", "port"};
    var options := map["url" := Str(DefaultUrl(port))] + rest;
    assert k in options <==> k in rest;
    assert k in rest ==> options[k] == rest[k];
  }

  /** A bag whose `ignoreConsole` is an array (or absent) never fails
      `runTestSuite` with the `ignoreConsole` error: no other check raises
      that message. */
  lemma IgnoreCheckPasses(opts: Bag)
    requires Satisfies(opts, IgnoreConsoleRule)
    ensures ValidateSuite(opts) != Failure(TypeError(IgnoreConsoleRule.message))
  {
    if ValidateSuite(opts).Failure? {
      ViolationIsReal(opts, SuiteRules);
      var i :| 0 <= i < |SuiteRules| && !Satisfies(opts, SuiteRules[i])
        && SuiteRules[i].message == ValidateSuite(opts).error.message;
    }
  }

  /** A prepared run never fails the `ignoreConsole` check of `runTestSuite`,
      and, when the caller gave no `url`, never fails the `url` check
      either; if it validates, it targets the default URL. */
  lemma PreparedSuiteAcceptsDefaults(bag: Bag)
    requires PrepareServer(bag).Success?
    ensures var opts := PrepareServer(bag).value.suiteOptions;
      && ValidateSuite(opts) != Failure(TypeError(IgnoreConsoleRule.message))
      && ("url" !in bag ==> Satisfies(opts, UrlRule))
      && ("url" !in bag && ValidateSuite(opts).Success? ==>
            ValidateSuite(opts).value.url == DefaultUrl(PrepareServer(bag).value.port))
  {
    var plan := PrepareServer(bag).value;
    var opts := plan.suiteOptions;
    SuiteOptionsUrl(bag, plan.port);
    SuiteOptionsIgnore(bag, plan.port);
    assert Satisfies(opts, IgnoreConsoleRule);
    IgnoreCheckPasses(opts);
  }
}
