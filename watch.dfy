/** `waitForMessage`: a one-shot console listener that settles a promise with
    the text of the first message matching `ack` (resolve) or, when a truthy
    `nak` is given, `nak` (reject), and then removes itself from the page. */
module Watch {
  import opened JsValues

  /** How the promise returned by `waitForMessage` settles. */
  datatype Settled = Resolved(text: string) | Rejected(text: string)

  /** The arguments of one call: the `ack` pattern, the `nak` pattern
      (`Undefined` when omitted) and the matcher standing for `text.match`. */
  datatype WatchSpec = WatchSpec(ack: JsValue, nak: JsValue, matches: Matcher)

  /** Settling a promise: a resolve or reject on an already-settled promise
      changes nothing. */
  function Settle(p: Option<Settled>, s: Settled): Option<Settled> {
    if p.Some? then p else Some(s)
  }

  /** The effect of one message on a watch that is still listening: the
      settlement it causes, if any. */
  function Decide(w: WatchSpec, text: string): Option<Settled> {
    if w.matches(text, w.ack) then Some(Resolved(text))
    else if Truthy(w.nak) && w.matches(text, w.nak) then Some(Rejected(text))
    else None
  }

  /** The settlement of a watch over messages delivered in order: the
      decision of the first message that decides anything. */
  function FirstSettle(w: WatchSpec, msgs: seq<string>): Option<Settled> {
    if msgs == [] then None
    else if Decide(w, msgs[0]).Some? then Decide(w, msgs[0])
    else FirstSettle(w, msgs[1..])
  }

  /** The message at `i` settles the watch when no earlier message decides
      anything. */
  lemma {:induction false} FirstSettleAt(w: WatchSpec, msgs: seq<string>, i: nat)
    requires i < |msgs| && Decide(w, msgs[i]).Some?
    requires forall j :: 0 <= j < i ==> Decide(w, msgs[j]).None?
    ensures FirstSettle(w, msgs) == Decide(w, msgs[i])
  {
    if i > 0 {
      assert Decide(w, msgs[0]).None?;
      FirstSettleAt(w, msgs[1..], i - 1);
    }
  }

  /** Conversely, a settled watch was settled by some message that is the
      first to decide anything. */
  lemma {:induction false} FirstSettleWitness(w: WatchSpec, msgs: seq<string>) returns (i: nat)
    requires FirstSettle(w, msgs).Some?
    ensures i < |msgs| && Decide(w, msgs[i]) == FirstSettle(w, msgs)
    ensures forall j :: 0 <= j < i ==> Decide(w, msgs[j]).None?
  {
    if Decide(w, msgs[0]).Some? {
      i := 0;
    } else {
      var k := FirstSettleWitness(w, msgs[1..]);
      i := k + 1;
      forall j | 0 <= j < i
        ensures Decide(w, msgs[j]).None?
      {
        if j > 0 {
          assert msgs[j] == msgs[1..][j - 1];
        }
      }
    }
  }

  /** A watch with no deciding message never settles, and only then: the
      promise stays pending for ever, since there is no timeout. */
  lemma {:induction false} PendingIffNoMatch(w: WatchSpec, msgs: seq<string>)
    ensures FirstSettle(w, msgs).None? <==> forall i :: 0 <= i < |msgs| ==> Decide(w, msgs[i]).None?
  {
    if FirstSettle(w, msgs).Some? {
      var i := FirstSettleWitness(w, msgs);
    } else if msgs != [] {
      PendingIffNoMatch(w, msgs[1..]);
      forall i | 0 <= i < |msgs|
        ensures Decide(w, msgs[i]).None?
      {
        if i > 0 {
          assert msgs[i] == msgs[1..][i - 1];
        }
      }
    }
  }

  /** A settlement carries the text of a delivered message; a resolution
      means that text matched `ack`; a rejection means a truthy `nak` matched
      it and `ack` did not. */
  lemma SettlementJustified(w: WatchSpec, msgs: seq<string>)
    ensures FirstSettle(w, msgs).Some? ==> FirstSettle(w, msgs).value.text in msgs
    ensures forall t :: FirstSettle(w, msgs) == Some(Resolved(t)) ==> w.matches(t, w.ack)
    ensures forall t :: FirstSettle(w, msgs) == Some(Rejected(t)) ==>
      Truthy(w.nak) && w.matches(t, w.nak) && !w.matches(t, w.ack)
  {
    if FirstSettle(w, msgs).Some? {
      var i := FirstSettleWitness(w, msgs);
    }
  }

  /** Without a truthy `nak` the watch can only resolve. */
  lemma WithoutNakOnlyResolves(w: WatchSpec, msgs: seq<string>)
    requires !Truthy(w.nak)
    ensures FirstSettle(w, msgs).Some? ==> FirstSettle(w, msgs).value.Resolved?
  {
    SettlementJustified(w, msgs);
  }

  /** `ack` is tested first: when the first message that matches anything
      matches `ack`, the watch resolves with it whether or not it also
      matches `nak`. */
  lemma AckPrecedence(w: WatchSpec, msgs: seq<string>, i: nat)
    requires i < |msgs| && w.matches(msgs[i], w.ack)
    requires forall j :: 0 <= j < i ==> Decide(w, msgs[j]).None?
    ensures FirstSettle(w, msgs) == Some(Resolved(msgs[i]))
  {
    FirstSettleAt(w, msgs, i);
  }

  /** A first deciding message that matches a truthy `nak` but not `ack`
      rejects with exactly its text. */
  lemma NakRejects(w: WatchSpec, msgs: seq<string>, i: nat)
    requires i < |msgs| && Truthy(w.nak)
    requires w.matches(msgs[i], w.nak) && !w.matches(msgs[i], w.ack)
    requires forall j :: 0 <= j < i ==> Decide(w, msgs[j]).None?
    ensures FirstSettle(w, msgs) == Some(Rejected(msgs[i]))
  {
    FirstSettleAt(w, msgs, i);
  }

  /** Once settled, later messages change nothing. */
  lemma {:induction false} LaterMessagesIgnored(w: WatchSpec, a: seq<string>, b: seq<string>)
    requires FirstSettle(w, a).Some?
    ensures FirstSettle(w, a + b) == FirstSettle(w, a)
  {
    var i := FirstSettleWitness(w, a);
    forall j | 0 <= j < i
      ensures Decide(w, (a + b)[j]).None?
    {
      assert (a + b)[j] == a[j];
    }
    FirstSettleAt(w, a + b, i);
  }

  /** Messages that match neither pattern have no effect: the watch keeps
      waiting for the rest of the stream. */
  lemma {:induction false} UnmatchedMessagesIgnored(w: WatchSpec, a: seq<string>, b: seq<string>)
    requires forall i :: 0 <= i < |a| ==> Decide(w, a[i]).None?
    ensures FirstSettle(w, a + b) == FirstSettle(w, b)
  {
    if a != [] {
      assert (a + b)[0] == a[0] && Decide(w, a[0]).None?;
      assert (a + b)[1..] == a[1..] + b;
      forall i | 0 <= i < |a[1..]|
        ensures Decide(w, a[1..][i]).None?
      {
        assert a[1..][i] == a[i + 1];
      }
      UnmatchedMessagesIgnored(w, a[1..], b);
      assert FirstSettle(w, a + b) == FirstSettle(w, (a + b)[1..]);
    } else {
      assert a + b == b;
    }
  }

  /** Delivering one more message: a settled watch stays as it is, a pending
      one takes that message's decision. */
  lemma {:induction false} FirstSettleSnoc(w: WatchSpec, a: seq<string>, t: string)
    ensures FirstSettle(w, a + [t]) ==
      if FirstSettle(w, a).Some? then FirstSettle(w, a) else Decide(w, t)
  {
    if FirstSettle(w, a).Some? {
      LaterMessagesIgnored(w, a, [t]);
    } else {
      PendingIffNoMatch(w, a);
      UnmatchedMessagesIgnored(w, a, [t]);
    }
  }

  /** The listener registered by `waitForMessage`. `listening` is whether the
      handler is still attached to the page; `result` is the state of the
      returned promise; `delivered` records every console message the page
      has emitted since registration. */
  class MessageWatcher {
    const spec: WatchSpec
    var listening: bool
    var result: Option<Settled>
    ghost var delivered: seq<string>

    ghost predicate Valid()
      reads this
    {
      && listening == result.None?
      && result == FirstSettle(spec, delivered)
    }

    /** `page.on('console', handler)` inside a new, pending promise. */
    constructor (ack: JsValue, nak: JsValue, matches: Matcher)
      ensures Valid() && spec == WatchSpec(ack, nak, matches)
      ensures listening && result == None && delivered == []
    {
      spec := WatchSpec(ack, nak, matches);
      listening := true;
      result := None;
      delivered := [];
    }

    /** The page emits one console message. While attached, the handler
        tests `ack`, then `nak` when it is truthy, and on each match removes
        itself and settles the promise; once detached it is never called. */
    method OnMessage(text: string)
      requires Valid()
      modifies this
      ensures Valid()
      ensures delivered == old(delivered) + [text]
      ensures old(listening) ==> result == Decide(spec, text)
      ensures !old(listening) ==> result == old(result) && !listening
    {
      if listening {
        var ackMatch := spec.matches(text, spec.ack);
        if ackMatch {
          listening := false;
          result := Settle(result, Resolved(text));
        }
        if Truthy(spec.nak) {
          var nakMatch := spec.matches(text, spec.nak);
          if nakMatch {
            listening := false;
            result := Settle(result, Rejected(text));
          }
        }
      }
      FirstSettleSnoc(spec, delivered, text);
      delivered := delivered + [text];
    }
  }

  /** `await waitForMessage(page, ack, nak)` while the page emits `messages`
      in order: the promise's state once they have all been delivered. */
  method WaitForMessage(ack: JsValue, nak: JsValue, matches: Matcher, messages: seq<string>)
    returns (r: Option<Settled>)
    ensures r == FirstSettle(WatchSpec(ack, nak, matches), messages)
  {
    var watcher := new MessageWatcher(ack, nak, matches);
    for i := 0 to |messages|
      invariant watcher.Valid()
      invariant watcher.spec == WatchSpec(ack, nak, matches)
      invariant watcher.delivered == messages[..i]
    {
      watcher.OnMessage(messages[i]);
      assert messages[..i + 1] == messages[..i] + [messages[i]];
    }
    assert messages[..|messages|] == messages;
    r := watcher.result;
  }
}
