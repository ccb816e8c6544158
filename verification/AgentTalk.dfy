/** Whole conversations of cwmpd/src/agent.c: what goes over the wire for what the ACS says, from the connection to
    the end of the session (section 3.7.1 of TR-069). */
module AgentTalk {
  import opened Agent

  // ----- one reply, after any run -------------------------------------------------------------------------

  /** A call that is answered: the next request is the response and nothing else, and what is owed stays owed. */
  lemma CallIsAnswered(flag: bool, answers: seq<Answer>, a: Answer, b: Answer)
    requires Run(Created(flag), answers).0.status == Analyse && a.reply == Call(true)
    ensures var (s, events) := Run(Created(flag), answers);
            var (t, after) := Run(Created(flag), answers + [a, b]);
            && after == events + [if b.ok then Sent([Response]) else SendFailed]
            && t == s.(status := if b.ok then Recv else Exit, writers := [Response])
            && Owed(flag, after) == Owed(flag, events)
  {
    hide Run, Owed, Count, Informed, Streak;
    RunKeeps(flag, answers);
    TwoMore(Created(flag), answers, a, b);
    FlagIsOwed(flag, answers);
    FlagIsOwed(flag, answers + [a, b]);
    var s := Run(Created(flag), answers).0;
    Joined(Next(s, a).1, Next(Next(s, a).0, b).1);
  }

  /** A call without an answer: the TransferComplete that is owed, and otherwise an empty request. */
  lemma CallIsAcknowledged(flag: bool, answers: seq<Answer>, a: Answer, b: Answer)
    requires Run(Created(flag), answers).0.status == Analyse && a.reply == Call(false)
    ensures var (s, events) := Run(Created(flag), answers);
            var (t, after) := Run(Created(flag), answers + [a, b]);
            var said := if Owed(flag, events) then [TransferComplete] else [];
            var made := if Owed(flag, events) then [TransferMade] else [];
            && after == events + (made + [if b.ok then Sent(said) else SendFailed])
            && t == s.(status := if b.ok then Recv else Exit, writers := said, flag := false)
  {
    hide Run, Owed, Count, Informed, Streak;
    RunKeeps(flag, answers);
    TwoMore(Created(flag), answers, a, b);
    FlagIsOwed(flag, answers);
    var s := Run(Created(flag), answers).0;
    Joined(Next(s, a).1, Next(Next(s, a).0, b).1);
  }

  /** Without a reply the connection is given up: nothing more is sent, and what is owed stays owed. */
  lemma NoReply(flag: bool, answers: seq<Answer>, a: Answer, b: Answer)
    requires Run(Created(flag), answers).0.status == Recv && !a.ok
    ensures var (s, events) := Run(Created(flag), answers);
            Run(Created(flag), answers + [a, b]) == (s.(status := Exit), events)
  {
    hide Run, Count, Informed, Streak;
    RunKeeps(flag, answers);
    TwoMore(Created(flag), answers, a, b);
    var s, events := Run(Created(flag), answers).0, Run(Created(flag), answers).1;
    Joined(Next(s, a).1, Next(Next(s, a).0, b).1);
    assert events + [] == events;
  }

  /** The end of a connection: another one when it is asked for, on which what stands in the buffer goes out in
      front of the Inform; otherwise the session is closed, whatever comes. */
  lemma AfterExit(flag: bool, answers: seq<Answer>, a: Answer, more: seq<Answer>)
    requires Run(Created(flag), answers).0.status == Exit
    ensures var (s, events) := Run(Created(flag), answers);
            && (a.again ==> Run(Created(flag), answers + [a]) == (s.(status := Start), events + [Reconnecting]))
            && (!a.again ==> Run(Created(flag), answers + [a] + more) == (s.(status := Closed), events))
  {
    hide Run, Count, Informed, Streak;
    RunKeeps(flag, answers);
    More(Created(flag), answers, a);
    var events := Run(Created(flag), answers).1;
    assert events + [] == events;
    var all := answers + [a] + more;
    assert all[..|answers| + 1] == answers + [a];
    if !a.again {
      StaysClosed(Created(flag), all, |answers| + 1);
    }
  }

  /** The events of a new connection up to its first request. */
  function Greeting(before: seq<Message>, transfer: bool): seq<Event> {
    [Connected] + (if transfer then [FlagSet] else []) + [Sent(before + [InformMessage])]
  }

  lemma Greets(flag: bool, answers: seq<Answer>, a: Answer, b: Answer, c: Answer)
    requires Run(Created(flag), answers).0.status == Start && a.ok && c.ok
    ensures var (s, events) := Run(Created(flag), answers);
            Run(Created(flag), answers + [a, b, c])
            == (s.(status := Recv, flag := s.flag || b.transfer, writers := s.writers + [InformMessage]),
                events + Greeting(s.writers, b.transfer))
  {
    hide Run, Count, Informed, Streak;
    var s, events := Run(Created(flag), answers).0, Run(Created(flag), answers).1;
    RunKeeps(flag, answers);
    TwoMore(Created(flag), answers, a, b);
    More(Created(flag), answers + [a, b], c);
    assert answers + [a, b] + [c] == answers + [a, b, c];
    Joined(Next(s, a).1, Next(Next(s, a).0, b).1);
    var flagged := if b.transfer then [FlagSet] else [];
    assert events + ([Connected] + flagged) + [Sent(s.writers + [InformMessage])] == events + Greeting(s.writers, b.transfer);
  }

  // ----- a conversation ------------------------------------------------------------------------------------

  /** A reply that calls a method, received, read and answered without a fault. */
  function Talk(calls: seq<bool>): seq<Answer> {
    if calls == [] then []
    else
      var w := With(Call(calls[|calls| - 1]), false);
      Talk(calls[..|calls| - 1]) + [w, w, w]
  }

  /** Nothing but calls that are answered have come so far. */
  predicate AllAnswered(calls: seq<bool>) {
    forall i :: 0 <= i < |calls| ==> calls[i]
  }

  /** What is sent for call `k`: its response; for the first call without one the TransferComplete that is owed;
      for all others an empty request. */
  function Said(owed: bool, calls: seq<bool>, k: nat): seq<Message>
    requires k < |calls|
  {
    if calls[k] then [Response] else if owed && AllAnswered(calls[..k]) then [TransferComplete] else []
  }

  function Replies(owed: bool, calls: seq<bool>): seq<seq<Message>> {
    seq(|calls|, k requires 0 <= k < |calls| => Said(owed, calls, k))
  }

  lemma OneMore(owed: bool, calls: seq<bool>)
    requires calls != []
    ensures var n := |calls| - 1;
            Replies(owed, calls) == Replies(owed, calls[..n]) + [Said(owed, calls, n)]
  {
    var n := |calls| - 1;
    forall k | 0 <= k < n
      ensures Replies(owed, calls)[k] == Replies(owed, calls[..n])[k]
    {
      assert calls[..n][..k] == calls[..k];
    }
  }

  /** The requests of a run, in their order. */
  function Requests(events: seq<Event>): seq<seq<Message>> {
    if events == [] then []
    else
      var last := events[|events| - 1];
      Requests(events[..|events| - 1]) + if last.Sent? then [last.messages] else []
  }

  lemma RequestsStep(events: seq<Event>, e: Event)
    ensures Requests(events + [e]) == Requests(events) + if e.Sent? then [e.messages] else []
  {
    assert (events + [e])[..|events|] == events;
  }

  lemma RequestsMade(events: seq<Event>, made: seq<Event>, messages: seq<Message>)
    requires made == [] || made == [TransferMade]
    ensures Requests(events + [Received] + (made + [Sent(messages)])) == Requests(events) + [messages]
  {
    hide Requests;
    var received := events + [Received];
    RequestsStep(events, Received);
    if made == [] {
      assert made + [Sent(messages)] == [Sent(messages)];
      RequestsStep(received, Sent(messages));
    } else {
      RequestsStep(received, TransferMade);
      RequestsStep(received + [TransferMade], Sent(messages));
      assert received + [TransferMade] + [Sent(messages)] == received + (made + [Sent(messages)]);
    }
    assert Requests(events) + [] == Requests(events);
  }

  /** Everything is sent that is to be sent and nothing else, in this order: the Inform, and one request for each
      call of the ACS, its response when it has one. The one TransferComplete goes out at the first call that has
      none, and stays owed until then. */
  lemma {:induction false} Conversation(flag: bool, transfer: bool, calls: seq<bool>)
    ensures var w := With(Call(true), transfer);
            var (s, events) := Run(Created(flag), [w, w, w] + Talk(calls));
            && s.status == Recv && !s.newdata && s.retry == 0
            && (s.flag <==> (flag || transfer) && AllAnswered(calls))
            && Requests(events) == [[InformMessage]] + Replies(flag || transfer, calls)
            && s.writers == Requests(events)[|calls|]
    decreases |calls|
  {
    hide Run, Requests;
    var w := With(Call(true), transfer);
    if calls == [] {
      FirstRequest(flag, transfer);
      assert [w, w, w] + Talk(calls) == [w, w, w];
    } else {
      var n := |calls| - 1;
      var shorter, c := calls[..n], calls[n];
      Conversation(flag, transfer, shorter);
      var answers := [w, w, w] + Talk(shorter);
      OneCall(flag, answers, c);
      assert [w, w, w] + Talk(calls) == answers + [With(Call(c), false), With(Call(c), false), With(Call(c), false)];
      OneMore(flag || transfer, calls);
    }
  }

  lemma FirstRequest(flag: bool, transfer: bool)
    ensures var w := With(Call(true), transfer);
            var (s, events) := Run(Created(flag), [w, w, w]);
            && s == Created(flag).(status := Recv, flag := flag || transfer, writers := [InformMessage])
            && Requests(events) == [[InformMessage]]
  {
    hide Run, Requests;
    var w := With(Call(true), transfer);
    NoAnswers(Created(flag));
    Greets(flag, [], w, w, w);
    assert [] + [w, w, w] == [w, w, w];
    var none: seq<Message> := [];
    assert none + [InformMessage] == [InformMessage];
    GreetingRequests(none, transfer);
    var quiet: seq<Event> := [];
    assert quiet + Greeting(none, transfer) == Greeting(none, transfer);
  }

  lemma GreetingRequests(before: seq<Message>, transfer: bool)
    ensures Requests(Greeting(before, transfer)) == [before + [InformMessage]]
  {
    hide Requests;
    RequestsOfNone();
    var none: seq<Event> := [];
    assert none + [Connected] == [Connected];
    RequestsStep(none, Connected);
    RequestsStep([Connected], FlagSet);
    var begun := [Connected] + (if transfer then [FlagSet] else []);
    assert !transfer ==> begun == [Connected];
    RequestsStep(begun, Sent(before + [InformMessage]));
  }

  lemma RequestsOfNone()
    ensures Requests([]) == []
  {
  }

  lemma OneCall(flag: bool, answers: seq<Answer>, c: bool)
    requires var s := Run(Created(flag), answers).0; s.status == Recv && !s.newdata
    ensures var (s, events) := Run(Created(flag), answers);
            var w := With(Call(c), false);
            var (t, after) := Run(Created(flag), answers + [w, w, w]);
            var said := if c then [Response] else if s.flag then [TransferComplete] else [];
            && t == s.(writers := said, flag := s.flag && c) && Requests(after) == Requests(events) + [said]
  {
    hide Run, Requests, Owed;
    var s, events, w := Run(Created(flag), answers).0, Run(Created(flag), answers).1, With(Call(c), false);
    More(Created(flag), answers, w);
    FlagIsOwed(flag, answers + [w]);
    if c {
      CallIsAnswered(flag, answers + [w], w, w);
      RequestsMade(events, [], [Response]);
    } else {
      CallIsAcknowledged(flag, answers + [w], w, w);
      RequestsMade(events, if s.flag then [TransferMade] else [], if s.flag then [TransferComplete] else []);
    }
    assert answers + [w] + [w, w] == answers + [w, w, w];
    var quiet: seq<Event> := [];
    assert forall e: Event :: quiet + [e] == [e];
  }

  /** The ACS ends a conversation in which nothing is owed with an empty body: no other request is sent, and the
      session closes. */
  lemma Farewell(flag: bool, transfer: bool, calls: seq<bool>, more: seq<Answer>)
    requires (flag || transfer) ==> !AllAnswered(calls)
    ensures var w, e := With(Call(true), transfer), With(Empty(None), false);
            var talk := [w, w, w] + Talk(calls);
            var (s, events) := Run(Created(flag), talk);
            var (t, after) := Run(Created(flag), talk + [e, e, e, e] + more);
            t == s.(status := Closed) && after == events + [Received]
  {
    hide Run, Requests, AllAnswered, Talk, Said;
    var w, e := With(Call(true), transfer), With(Empty(None), false);
    var talk := [w, w, w] + Talk(calls);
    Conversation(flag, transfer, calls);
    More(Created(flag), talk, e);
    More(Created(flag), talk + [e], e);
    More(Created(flag), talk + [e, e], e);
    assert talk + [e] + [e] == talk + [e, e] && talk + [e, e] + [e] == talk + [e, e, e];
    assert forall events: seq<Event> :: events + [] == events;
    AfterExit(flag, talk + [e, e, e], e, more);
    assert talk + [e, e, e] + [e] == talk + [e, e, e, e];
  }
}
