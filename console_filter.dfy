/** The console listener installed by `runTestSuite`: for each browser console
    message it either drops it or forwards its resolved arguments to a local
    console sink. */
module ConsoleFilter {
  import opened JsValues

  /** The first argument that tags a test-runner line for local display. */
  const MochaTag: JsValue := Str("[MOCHA]")

  /** A browser console message: its text, its type (`log`, `warning`,
      `error`, ...) and its arguments, already resolved to values. */
  datatype ConsoleMessage = ConsoleMessage(text: string, kind: string, args: seq<JsValue>)

  /** A call `console[sink](...args)`. */
  datatype Forwarded = Forwarded(sink: string, args: seq<JsValue>)

  /** The local console method for a message type. */
  function SinkFor(kind: string): string {
    if kind == "warning" then "warn" else kind
  }

  /** Whether some entry of the ignore list matches the text. */
  predicate Ignored(text: string, ignore: seq<JsValue>, matches: Matcher) {
    exists i :: 0 <= i < |ignore| && matches(text, ignore[i])
  }

  /** The arguments with a leading `[MOCHA]` tag removed, if there is one. */
  function StripTag(args: seq<JsValue>): seq<JsValue> {
    if |args| > 0 && args[0] == MochaTag then args[1..] else args
  }

  /** The forwarding policy: what a message produces, if anything. */
  function Forward(msg: ConsoleMessage, ignore: seq<JsValue>, onlyMocha: bool, matches: Matcher)
    : Option<Forwarded>
  {
    if Ignored(msg.text, ignore, matches) then None
    else if |msg.args| == 0 then None
    else if onlyMocha && msg.args[0] != MochaTag then None
    else Some(Forwarded(SinkFor(msg.kind), StripTag(msg.args)))
  }

  /** The listener itself: the ignore list is scanned in order and the first
      match ends the handler; the tag is shifted off the argument list in
      place. */
  method HandleConsole(msg: ConsoleMessage, ignore: seq<JsValue>, onlyMocha: bool, matches: Matcher)
    returns (r: Option<Forwarded>)
    ensures r == Forward(msg, ignore, onlyMocha, matches)
  {
    var text := msg.text;
    for i := 0 to |ignore|
      invariant forall j :: 0 <= j < i ==> !matches(text, ignore[j])
    {
      if matches(text, ignore[i]) {
        return None;
      }
    }
    var args := msg.args;
    if |args| == 0 {
      return None;
    }
    if onlyMocha && args[0] != MochaTag {
      return None;
    }
    if args[0] == MochaTag {
      args := args[1..];
    }
    var kind := msg.kind;
    r := Some(Forwarded(if kind == "warning" then "warn" else kind, args));
  }

  /** A message matched by any ignore entry forwards nothing, whatever its
      type and arguments. */
  lemma IgnoredForwardsNothing(msg: ConsoleMessage, ignore: seq<JsValue>, onlyMocha: bool, matches: Matcher, i: nat)
    requires i < |ignore| && matches(msg.text, ignore[i])
    ensures Forward(msg, ignore, onlyMocha, matches) == None
  {
  }

  /** Exactly which messages are forwarded: those not ignored, with at least
      one argument, and, under `onlyMocha`, tagged. */
  lemma ForwardedExactly(msg: ConsoleMessage, ignore: seq<JsValue>, onlyMocha: bool, matches: Matcher)
    ensures Forward(msg, ignore, onlyMocha, matches).Some? <==>
      && (forall i :: 0 <= i < |ignore| ==> !matches(msg.text, ignore[i]))
      && |msg.args| > 0
      && (onlyMocha ==> msg.args[0] == MochaTag)
  {
  }

  /** What is forwarded is the argument list in order, minus one leading
      `[MOCHA]` tag when present, to the sink named by the type. */
  lemma {:induction false} ForwardedContent(msg: ConsoleMessage, ignore: seq<JsValue>, onlyMocha: bool, matches: Matcher)
    requires Forward(msg, ignore, onlyMocha, matches).Some?
    ensures var f := Forward(msg, ignore, onlyMocha, matches).value;
      && f.sink == SinkFor(msg.kind)
      && msg.args == (if msg.args[0] == MochaTag then [MochaTag] else []) + f.args
  {
    var f := Forward(msg, ignore, onlyMocha, matches).value;
    if msg.args[0] == MochaTag {
      assert msg.args == [msg.args[0]] + msg.args[1..];
    } else {
      assert [] + f.args == f.args;
    }
  }

  /** `onlyMocha` only removes output: whatever it lets through is forwarded
      identically without it, and always had its tag stripped. */
  lemma OnlyMochaNarrows(msg: ConsoleMessage, ignore: seq<JsValue>, matches: Matcher)
    requires Forward(msg, ignore, true, matches).Some?
    ensures Forward(msg, ignore, false, matches) == Forward(msg, ignore, true, matches)
    ensures |Forward(msg, ignore, true, matches).value.args| == |msg.args| - 1
  {
  }

  /** Extra ignore entries only remove output, and swapping two blocks of
      the ignore list changes nothing. */
  lemma {:induction false} MoreIgnoresNarrow(msg: ConsoleMessage, a: seq<JsValue>, b: seq<JsValue>, onlyMocha: bool, matches: Matcher)
    ensures Forward(msg, a + b, onlyMocha, matches) == Forward(msg, b + a, onlyMocha, matches)
    ensures Forward(msg, a + b, onlyMocha, matches).Some? ==>
      Forward(msg, a, onlyMocha, matches) == Forward(msg, a + b, onlyMocha, matches)
  {
    var t := msg.text;
    if Ignored(t, a + b, matches) {
      var i :| 0 <= i < |a + b| && matches(t, (a + b)[i]);
      if i < |a| {
        assert (b + a)[|b| + i] == a[i];
      } else {
        assert (b + a)[i - |a|] == b[i - |a|];
      }
    }
    if Ignored(t, b + a, matches) {
      var i :| 0 <= i < |b + a| && matches(t, (b + a)[i]);
      if i < |b| {
        assert (a + b)[|a| + i] == b[i];
      } else {
        assert (a + b)[i - |b|] == a[i - |b|];
      }
    }
    if Ignored(t, a, matches) {
      var i :| 0 <= i < |a| && matches(t, a[i]);
      assert (a + b)[i] == a[i];
    }
  }

  /** Only which patterns the ignore list holds matters: two lists with the
      same entries, in any order and with any repetition, forward the same. */
  lemma {:induction false} IgnoreOrderIrrelevant(msg: ConsoleMessage, a: seq<JsValue>, b: seq<JsValue>, onlyMocha: bool, matches: Matcher)
    requires forall x :: x in a <==> x in b
    ensures Forward(msg, a, onlyMocha, matches) == Forward(msg, b, onlyMocha, matches)
  {
    var t := msg.text;
    if Ignored(t, a, matches) {
      var i :| 0 <= i < |a| && matches(t, a[i]);
      assert a[i] in b;
      var j :| 0 <= j < |b| && b[j] == a[i];
    }
    if Ignored(t, b, matches) {
      var j :| 0 <= j < |b| && matches(t, b[j]);
      assert b[j] in a;
      var i :| 0 <= i < |a| && a[i] == b[j];
    }
  }

  /** Only the `warning` type is renamed, and only to `warn`. */
  lemma SinkRenamesOnlyWarning(kind: string)
    ensures SinkFor(kind) == "warn" <==> kind == "warning" || kind == "warn"
    ensures kind != "warning" ==> SinkFor(kind) == kind
  {
  }
}
