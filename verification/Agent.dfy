/** The session loop of cwmpd/src/agent.c (section 3.7.1 of TR-069) as steps under arbitrary answers of the
    network and of the ACS. */
module Agent {

  const MAX_SESSION_RETRY := 3

  datatype Status = Start | Inform | Send | Recv | Analyse | Retry | End | Exit | Closed

  /** The documents that are made in a session. */
  datatype Message = Nothing | InformMessage | Response | TransferComplete | Faulted

  /** What the ACS has sent. For an empty body the code jumps over the initialiser of the pointer through
      which it reads the event flag: `pointer` is the flag word it reads then, or None when the pointer
      happens to be the session's. For a body that is not XML it returns a value it never set. */
  datatype Reply = Empty(pointer: Option<bool>) | Unparsable(unsetIsOk: bool) | Call(answered: bool)

  datatype Option<T> = None | Some(value: T)

  /** What a step may meet: whether the network call succeeds, whether an active event asks for a transfer
      complete message, what the ACS has sent, and whether another connection is asked for. */
  datatype Answer = Answer(ok: bool, transfer: bool, reply: Reply, again: bool)

  /** `writers` is what stands in the buffer to be sent; with nothing in it, an empty request is sent. */
  datatype Session = Session(status: Status, newdata: bool, retry: nat, reconnect: bool, flag: bool, writers: seq<Message>)

  datatype Event =
    | ConnectFailed | Connected | FlagSet | Sent(messages: seq<Message>) | SendFailed | Received
    | TransferMade | StrayTransfer | StrayMiss | FaultQueued | GaveUp | Reconnecting

  // ----- one step ---------------------------------------------------------------------------------

  /** cwmp_agent_retry_session, without its pause. */
  function RetrySession(s: Session): (r: (bool, Session)) {
    if s.retry > MAX_SESSION_RETRY then (true, s.(retry := 0)) else (false, s.(retry := s.retry + 1))
  }

  /** cwmp_agent_analyse_session: whether it returns CWMP_OK, the session and what happened. Only the call
      of a method clears the buffer; after an empty or an unreadable body the document goes behind what was
      sent last. */
  function AnalyseSession(s: Session, reply: Reply): (r: (bool, Session, seq<Event>)) {
    match reply
    case Unparsable(unsetIsOk) => (unsetIsOk, s.(writers := s.writers + [Faulted]), if unsetIsOk then [FaultQueued] else [])
    case Call(answered) =>
      if answered then (true, s.(newdata := true, writers := [Response]), [])
      else if s.flag then (true, s.(newdata := true, flag := false, writers := [TransferComplete]), [TransferMade])
      else (true, s.(newdata := true, writers := []), [])
    case Empty(None) =>
      if s.flag then (true, s.(newdata := true, flag := false, writers := s.writers + [TransferComplete]), [TransferMade])
      else (false, s.(newdata := false), [])
    case Empty(Some(seen)) =>
      if seen then (true, s.(newdata := true, writers := s.writers + [TransferComplete]), [StrayTransfer])
      else (false, s.(newdata := false), [StrayMiss])
  }

  /** One turn of the loop of cwmp_agent_start_session. */
  function Next(s: Session, a: Answer): (r: (Session, seq<Event>)) {
    match s.status
    case Start =>
      if a.ok then (s.(status := Inform), [Connected]) else (s.(status := Retry), [ConnectFailed])
    case Inform =>
      (s.(status := Send, flag := s.flag || a.transfer, writers := s.writers + [InformMessage]), if a.transfer then [FlagSet] else [])
    case Send =>
      if a.ok then (s.(status := Recv, newdata := false), [Sent(s.writers)])
      else (s.(status := Exit, newdata := false), [SendFailed])
    case Recv =>
      if a.ok then (s.(status := Analyse), [Received]) else (s.(status := End), [])
    case Analyse =>
      var (ok, t, events) := AnalyseSession(s, a.reply);
      (t.(status := if ok then Send else End), events)
    case Retry =>
      var (timeout, t) := RetrySession(s);
      if timeout then (t.(status := Exit), [GaveUp]) else (t.(status := Start), [])
    case End => (s.(status := if s.newdata then Send else Exit), [])
    case Exit =>
      var reconnect := s.reconnect || a.again;
      (s.(status := if reconnect then Start else Closed, reconnect := false), if reconnect then [Reconnecting] else [])
    case Closed => (s, [])
  }

  function Run(s: Session, answers: seq<Answer>): (r: (Session, seq<Event>))
    decreases |answers|
  {
    if answers == [] then (s, [])
    else
      var (t, before) := Run(s, answers[..|answers| - 1]);
      var (u, events) := Next(t, answers[|answers| - 1]);
      (u, before + events)
  }

  /** cwmp_session_create, with the event flag as it stands. */
  function Created(flag: bool): Session {
    Session(Start, false, 0, false, flag, [])
  }

  // ----- the loop ---------------------------------------------------------------------------------

  class Loop {
    var session: Session
    ghost var trace: seq<Event>

    constructor (flag: bool)
      ensures session == Created(flag) && trace == []
    {
      session, trace := Created(flag), [];
    }

    /** cwmp_agent_analyse_session */
    method AnalyseReply(reply: Reply) returns (ok: bool)
      modifies this
      ensures (ok, session) == (AnalyseSession(old(session), reply).0, AnalyseSession(old(session), reply).1)
      ensures trace == old(trace) + AnalyseSession(old(session), reply).2
    {
      assert trace + [] == trace;
      if reply.Unparsable? {
        session := session.(writers := session.writers + [Faulted]);
        trace := trace + if reply.unsetIsOk then [FaultQueued] else [];
        return reply.unsetIsOk;
      }
      if reply.Call? {
        session := session.(writers := []);
      }
      var newdoc := Nothing;
      if reply == Call(true) {
        newdoc := Response;
      } else {
        if reply.Empty? {
          session := session.(newdata := false);
        }
        newdoc := CheckEvent(reply);
      }
      if newdoc != Nothing || reply.Call? {
        session := session.(newdata := true);
        ghost var none: seq<Message> := [];
        assert none + [newdoc] == [newdoc] && none + none == none;
        session := session.(writers := session.writers + if newdoc == Nothing then [] else [newdoc]);
        ok := true;
      } else {
        ok := false;
      }
    }

    /** From the label eventcheck on: the flag is read, and taken back. */
    method CheckEvent(reply: Reply) returns (newdoc: Message)
      requires !reply.Unparsable?
      modifies this
      ensures var stray := reply.Empty? && reply.pointer.Some?;
              var seen := if stray then reply.pointer.value else old(session).flag;
              && newdoc == (if seen then TransferComplete else Nothing)
              && session == (if seen && !stray then old(session).(flag := false) else old(session))
              && trace == old(trace) + if stray then (if seen then [StrayTransfer] else [StrayMiss]) else if seen then [TransferMade] else []
    {
      var flag, stray := session.flag, false;
      if reply.Empty? {
        if reply.pointer.Some? {
          flag, stray := reply.pointer.value, true;
          trace := trace + if flag then [StrayTransfer] else [StrayMiss];
        }
      }
      newdoc := Nothing;
      if flag {
        if !stray {
          session := session.(flag := false);
          trace := trace + [TransferMade];
        }
        newdoc := TransferComplete;
      }
    }

    method Turn(a: Answer)
      modifies this
      ensures session == Next(old(session), a).0 && trace == old(trace) + Next(old(session), a).1
    {
      assert trace + [] == trace;
      match session.status {
        case Start =>
          if !a.ok {
            session := session.(status := Retry);
            trace := trace + [ConnectFailed];
          } else {
            session := session.(status := Inform);
            trace := trace + [Connected];
          }
        case Inform =>
          if a.transfer {
            session := session.(flag := true);
            trace := trace + [FlagSet];
          }
          session := session.(writers := session.writers + [InformMessage]);
          session := session.(status := Send);
        case Send =>
          session := session.(newdata := false);
          if a.ok {
            session := session.(status := Recv);
            trace := trace + [Sent(session.writers)];
          } else {
            session := session.(status := Exit);
            trace := trace + [SendFailed];
          }
        case Recv =>
          if a.ok {
            session := session.(status := Analyse);
            trace := trace + [Received];
          } else {
            session := session.(status := End);
          }
        case Analyse =>
          var ok := AnalyseReply(a.reply);
          session := session.(status := if ok then Send else End);
        case Retry =>
          if session.retry > MAX_SESSION_RETRY {
            session := session.(retry := 0);
            session := session.(status := Exit);
            trace := trace + [GaveUp];
          } else {
            session := session.(retry := session.retry + 1);
            session := session.(status := Start);
          }
        case End =>
          session := session.(status := if session.newdata then Send else Exit);
        case Exit =>
          if session.reconnect || a.again {
            session := session.(reconnect := false);
            session := session.(status := Start);
            trace := trace + [Reconnecting];
          } else {
            session := session.(status := Closed);
          }
        case Closed =>
      }
    }

    /** The loop, for as long as the session is open and there are answers. */
    method StartSession(answers: seq<Answer>)
      modifies this
      ensures session == Run(old(session), answers).0 && trace == old(trace) + Run(old(session), answers).1
    {
      hide Next;
      ghost var s, before := session, trace;
      var i := 0;
      assert answers[..0] == [] && trace + [] == trace;
      while i < |answers| && session.status != Closed
        invariant i <= |answers| && session == Run(s, answers[..i]).0 && trace == before + Run(s, answers[..i]).1
      {
        RunStep(s, answers, i);
        Turn(answers[i]);
        i := i + 1;
      }
      StaysClosed(s, answers, i);
      assert answers[..|answers|] == answers;
    }
  }

  lemma RunStep(s: Session, answers: seq<Answer>, i: nat)
    requires i < |answers|
    ensures var (t, before) := Run(s, answers[..i]);
            Run(s, answers[..i + 1]) == (Next(t, answers[i]).0, before + Next(t, answers[i]).1)
  {
    hide Next;
    assert answers[..i + 1][..i] == answers[..i];
  }

  lemma {:induction false} StaysClosed(s: Session, answers: seq<Answer>, i: nat)
    requires i <= |answers| && (i < |answers| ==> Run(s, answers[..i]).0.status == Closed)
    ensures Run(s, answers) == Run(s, answers[..i])
    decreases |answers|
  {
    if i < |answers| {
      var shorter := answers[..|answers| - 1];
      assert shorter[..i] == answers[..i];
      StaysClosed(s, shorter, i);
      var r := Run(s, shorter);
      assert r.1 + [] == r.1;
    } else {
      assert answers[..i] == answers;
    }
  }

  // ----- what every run keeps -----------------------------------------------------------------------

  function Count(events: seq<Event>, e: Event): nat {
    multiset(events)[e]
  }

  /** Failed attempts since the last connection, or since giving up. */
  function Streak(events: seq<Event>): nat {
    if events == [] then 0
    else
      var last := events[|events| - 1];
      if last == Connected || last == GaveUp then 0
      else Streak(events[..|events| - 1]) + if last == ConnectFailed then 1 else 0
  }

  /** Whether an Inform has been sent on the connection that is open. */
  predicate Informed(events: seq<Event>) {
    if events == [] then false
    else
      var last := events[|events| - 1];
      if last == Connected then false
      else (last.Sent? && InformMessage in last.messages) || Informed(events[..|events| - 1])
  }

  predicate Begun(s: Status) {
    s == Recv || s == Analyse || s == End
  }

  /** The invariant of the loop, over the session and all that has happened. */
  predicate Inv(s: Session, events: seq<Event>, flagged: nat) {
    && (s.newdata ==> s.status == Send) && !s.reconnect
    && s.retry <= MAX_SESSION_RETRY + 1
    && Streak(events) <= s.retry + (if s.status == Retry then 1 else 0)
    && (s.status == Retry ==> Streak(events) >= 1)
    && Count(events, TransferMade) + (if s.flag then 1 else 0) <= flagged + Count(events, FlagSet)
    && (Begun(s.status) ==> Informed(events))
    && (s.status == Send ==> Informed(events) || InformMessage in s.writers)
  }

  lemma CountJoins(a: seq<Event>, b: seq<Event>, e: Event)
    ensures Count(a + b, e) == Count(a, e) + Count(b, e)
  {
  }

  lemma Last(events: seq<Event>, e: Event)
    ensures Streak(events + [e]) == if e == Connected || e == GaveUp then 0 else Streak(events) + (if e == ConnectFailed then 1 else 0)
    ensures Informed(events + [e]) == (e != Connected && ((e.Sent? && InformMessage in e.messages) || Informed(events)))
  {
    assert (events + [e])[..|events|] == events;
  }

  lemma StepKeeps(s: Session, events: seq<Event>, a: Answer, flagged: nat)
    requires Inv(s, events, flagged) && s.status != Closed
    ensures Inv(Next(s, a).0, events + Next(s, a).1, flagged)
  {
    hide Streak, Informed, Count;
    var more := Next(s, a).1;
    CountJoins(events, more, TransferMade);
    CountJoins(events, more, FlagSet);
    Counts(more);
    if more == [] {
      assert events + more == events;
    } else {
      assert more == [more[0]];
      Last(events, more[0]);
    }
  }

  lemma Counts(more: seq<Event>)
    ensures |more| == 0 ==> Count(more, TransferMade) == Count(more, FlagSet) == 0
    ensures |more| == 1 ==> forall e :: Count(more, e) == if more[0] == e then 1 else 0
  {
    if |more| == 1 {
      assert more == [more[0]];
    }
  }

  /** Every run of a session keeps the invariant. */
  lemma {:induction false} RunKeeps(flag: bool, answers: seq<Answer>)
    ensures var (s, events) := Run(Created(flag), answers);
            Inv(s, events, if flag then 1 else 0)
    decreases |answers|
  {
    if answers != [] {
      var shorter := answers[..|answers| - 1];
      RunKeeps(flag, shorter);
      var (s, events) := Run(Created(flag), shorter);
      if s.status == Closed {
        assert events + [] == events;
      } else {
        StepKeeps(s, events, answers[|answers| - 1], if flag then 1 else 0);
      }
    }
  }

  /** END is entered without new data only, so that it always leads to EXIT. */
  lemma EndLeadsToExit(flag: bool, answers: seq<Answer>, a: Answer)
    requires Run(Created(flag), answers).0.status == End
    ensures !Run(Created(flag), answers).0.newdata
    ensures Run(Created(flag), answers + [a]).0.status == Exit
  {
    RunKeeps(flag, answers);
    assert (answers + [a])[..|answers|] == answers;
  }

  /** Never more than five failed attempts to connect in a row. */
  lemma AtMostFiveAttempts(flag: bool, answers: seq<Answer>)
    ensures Streak(Run(Created(flag), answers).1) <= 5
  {
    RunKeeps(flag, answers);
  }

  function Refused(n: nat, a: Answer): seq<Answer> {
    seq(n, _ => a.(ok := false))
  }

  function Failures(n: nat): seq<Event> {
    seq(n, _ => ConnectFailed)
  }

  lemma RefusedStep(s: Session, n: nat, a: Answer)
    ensures var (t, before) := Run(s, Refused(n, a));
            Run(s, Refused(n + 1, a)) == (Next(t, a.(ok := false)).0, before + Next(t, a.(ok := false)).1)
  {
    hide Next;
    assert Refused(n + 1, a)[..n] == Refused(n, a);
  }

  lemma RefusedNext(s: Session, a: Answer)
    requires !a.ok && s.status == Start
    ensures Next(s, a) == (s.(status := Retry), [ConnectFailed])
    ensures s.retry <= 3 ==> Next(s.(status := Retry), a) == (s.(retry := s.retry + 1), [])
    ensures s.retry == 4 ==> Next(s.(status := Retry), a) == (s.(status := Exit, retry := 0), [GaveUp])
  {
  }

  /** With every attempt refused, the session is back at its start after each of the first four. */
  lemma {:induction false} KeepsTrying(flag: bool, a: Answer, k: nat)
    requires k <= 4
    ensures Run(Created(flag), Refused(2 * k, a)) == (Created(flag).(retry := k), Failures(k))
  {
    hide Next, Refused, Failures;
    RefusedNone(a);
    if k > 0 {
      KeepsTrying(flag, a, k - 1);
      RefusedStep(Created(flag), 2 * k - 2, a);
      RefusedStep(Created(flag), 2 * k - 1, a);
      RefusedNext(Created(flag).(retry := k - 1), a.(ok := false));
      OneMoreFailure(k - 1);
    }
  }

  lemma RefusedNone(a: Answer)
    ensures Refused(0, a) == [] && Failures(0) == []
  {
  }

  lemma OneMoreFailure(k: nat)
    ensures Failures(k) + [ConnectFailed] == Failures(k + 1) && Failures(k + 1) + [] == Failures(k + 1)
  {
  }

  /** It gives up after the fifth. */
  lemma GivesUpAfterFive(flag: bool, a: Answer)
    ensures Run(Created(flag), Refused(10, a)) == (Created(flag).(status := Exit), Failures(5) + [GaveUp])
  {
    hide Run, Next, Refused, Failures;
    KeepsTrying(flag, a, 4);
    RefusedStep(Created(flag), 8, a);
    RefusedStep(Created(flag), 9, a);
    RefusedNext(Created(flag).(retry := 4), a.(ok := false));
    OneMoreFailure(4);
  }

  /** The first request on a connection holds its Inform (section 3.7.1.1 of TR-069). */
  lemma InformComesFirst(flag: bool, answers: seq<Answer>, a: Answer)
    requires var s := Run(Created(flag), answers).0; s.status == Send && a.ok
    ensures var (s, events) := Run(Created(flag), answers);
            var after := Run(Created(flag), answers + [a]).1;
            after == events + [Sent(s.writers)] && (Informed(events) || InformMessage in s.writers)
  {
    RunKeeps(flag, answers);
    assert (answers + [a])[..|answers|] == answers;
  }

  // ----- transfer complete ----------------------------------------------------------------------------

  predicate Holds(e: Event) {
    e.Sent? && TransferComplete in e.messages
  }

  /** The requests sent that hold a TransferComplete. */
  function Carried(events: seq<Event>): nat {
    if events == [] then 0
    else Carried(events[..|events| - 1]) + if Holds(events[|events| - 1]) then 1 else 0
  }

  lemma CarriedStep(events: seq<Event>, e: Event)
    ensures Carried(events + [e]) == Carried(events) + if Holds(e) then 1 else 0
  {
    assert (events + [e])[..|events|] == events;
  }

  /** A TransferComplete stands in the buffer and will be sent if all goes well. */
  predicate Pending(s: Session) {
    TransferComplete in s.writers && (s.status == Start || s.status == Retry || s.status == Inform || s.status == Send)
  }

  /** What may put a TransferComplete on the wire: that one is made, or that the buffer is kept. */
  function Causes(events: seq<Event>): nat {
    Count(events, TransferMade) + Count(events, StrayTransfer) + Count(events, FaultQueued) + Count(events, Reconnecting)
  }

  lemma CausesStep(events: seq<Event>, more: seq<Event>)
    ensures more == [] ==> Causes(events + more) == Causes(events)
    ensures |more| == 1 ==>
      Causes(events + more) == Causes(events) + if more[0] in {TransferMade, StrayTransfer, FaultQueued, Reconnecting} then 1 else 0
  {
    hide Count;
    if more == [] {
      assert events + more == events;
    }
    CountJoins(events, more, TransferMade);
    CountJoins(events, more, StrayTransfer);
    CountJoins(events, more, FaultQueued);
    CountJoins(events, more, Reconnecting);
    Counts(more);
  }

  lemma StepCarries(s: Session, events: seq<Event>, a: Answer)
    requires Carried(events) + (if Pending(s) then 1 else 0) <= Causes(events) && (s.newdata ==> s.status == Send)
    ensures Carried(events + Next(s, a).1) + (if Pending(Next(s, a).0) then 1 else 0) <= Causes(events + Next(s, a).1)
  {
    hide Carried, Causes;
    var more := Next(s, a).1;
    CausesStep(events, more);
    if more == [] {
      assert events + more == events;
    } else {
      assert more == [more[0]];
      CarriedStep(events, more[0]);
    }
  }

  lemma {:induction false} RunCarries(flag: bool, answers: seq<Answer>)
    ensures var (s, events) := Run(Created(flag), answers);
            Carried(events) + (if Pending(s) then 1 else 0) <= Causes(events)
    decreases |answers|
  {
    hide Next, Carried, Causes;
    if answers == [] {
      NoneCarried();
    } else {
      var shorter := answers[..|answers| - 1];
      RunCarries(flag, shorter);
      RunKeeps(flag, shorter);
      var (s, events) := Run(Created(flag), shorter);
      StepCarries(s, events, answers[|answers| - 1]);
    }
  }

  lemma NoneCarried()
    ensures Carried([]) == 0 && forall e :: Count([], e) == 0
  {
  }

  /** A TransferComplete goes out at most once for each time the flag was set, and once more for each flag
      word read off the stack, each fault that is queued behind what was sent last, and each reconnection:
      none of these clears the buffer. */
  lemma {:induction false} TransferOnce(flag: bool, answers: seq<Answer>)
    ensures var (s, events) := Run(Created(flag), answers);
            Carried(events) + (if s.flag then 1 else 0) <= (if flag then 1 else 0) + Count(events, FlagSet)
              + Count(events, StrayTransfer) + Count(events, FaultQueued) + Count(events, Reconnecting)
  {
    RunKeeps(flag, answers);
    RunCarries(flag, answers);
  }

  /** The replies after which what was sent last is sent again. */
  predicate KeepsBuffer(s: Session, reply: Reply) {
    match reply
    case Unparsable(unsetIsOk) => unsetIsOk
    case Call(_) => false
    case Empty(None) => s.flag
    case Empty(Some(seen)) => seen
  }

  /** What is queued behind what was sent last. */
  function Added(reply: Reply): Message {
    if reply.Empty? then TransferComplete else Faulted
  }

  /** After any run, with a reply to be read: the next request holds what was sent last once more, and one
      message behind it, exactly when the reply is no XML and the value never set is CWMP_OK, or is empty and
      the flag is read as set. After the call of a method it holds at most one message, a TransferComplete
      only if that has just been made; otherwise the connection ends without another request. */
  lemma SentAgain(flag: bool, answers: seq<Answer>, a: Answer, b: Answer)
    requires Run(Created(flag), answers).0.status == Analyse && b.ok
    ensures var (s, events) := Run(Created(flag), answers);
            var (t, after) := Run(Created(flag), answers + [a, b]);
            && (KeepsBuffer(s, a.reply) <==> t.status == Recv && t.writers == s.writers + [Added(a.reply)])
            && (t.status == Recv ==> |after| > |events| && after[|after| - 1] == Sent(t.writers))
            && (a.reply.Call? ==> t.status == Recv && |t.writers| <= 1)
            && (a.reply.Call? ==> (TransferComplete in t.writers <==> after == events + [TransferMade, Sent([TransferComplete])]))
            && (!a.reply.Call? && !KeepsBuffer(s, a.reply) ==> t.status == Exit && (after == events || after == events + [StrayMiss]))
  {
    hide Run, Count, Informed, Streak;
    RunKeeps(flag, answers);
    var s, events := Run(Created(flag), answers).0, Run(Created(flag), answers).1;
    TwoMore(Created(flag), answers, a, b);
    ReplyThenSend(s, a, b);
    var more := Next(s, a).1 + Next(Next(s, a).0, b).1;
    assert events + more == events ==> more == [];
    assert events + more == events + [TransferMade, Sent([TransferComplete])] ==> more == (events + more)[|events|..];
  }

  lemma TwoMore(s: Session, answers: seq<Answer>, a: Answer, b: Answer)
    ensures var (t, events) := Run(s, answers);
            Run(s, answers + [a, b]) == (Next(Next(t, a).0, b).0, events + (Next(t, a).1 + Next(Next(t, a).0, b).1))
  {
    hide Run, Next;
    More(s, answers, a);
    More(s, answers + [a], b);
    assert answers + [a] + [b] == answers + [a, b];
    var events := Run(s, answers).1;
    assert events + Next(Run(s, answers).0, a).1 + Next(Next(Run(s, answers).0, a).0, b).1
        == events + (Next(Run(s, answers).0, a).1 + Next(Next(Run(s, answers).0, a).0, b).1);
  }

  lemma ReplyThenSend(s: Session, a: Answer, b: Answer)
    requires s.status == Analyse && b.ok && !s.newdata
    ensures var t := Next(Next(s, a).0, b).0;
            var more := Next(s, a).1 + Next(Next(s, a).0, b).1;
            && (KeepsBuffer(s, a.reply) <==> t.status == Recv && t.writers == s.writers + [Added(a.reply)])
            && (t.status == Recv ==> more != [] && more[|more| - 1] == Sent(t.writers))
            && (a.reply.Call? ==> t.status == Recv && |t.writers| <= 1)
            && (a.reply.Call? ==> (TransferComplete in t.writers <==> more == [TransferMade, Sent([TransferComplete])]))
            && (!a.reply.Call? && !KeepsBuffer(s, a.reply) ==> t.status == Exit && (more == [] || more == [StrayMiss]))
  {
    Joined(Next(s, a).1, Next(Next(s, a).0, b).1);
    assert (s.writers + [Added(a.reply)])[|s.writers|] == Added(a.reply);
  }

  lemma Joined(first: seq<Event>, second: seq<Event>)
    requires |first| <= 1 && |second| <= 1
    ensures first == [] ==> first + second == second
    ensures second == [] ==> first + second == first
    ensures |first| == |second| == 1 ==> first + second == [first[0], second[0]]
  {
  }

  /** A reply that is no XML to a request that held the one TransferComplete. */
  function Garbled(): Answer {
    With(Unparsable(true), false)
  }

  function Rounds(n: nat): (answers: seq<Answer>)
    ensures |answers| == 3 * n
  {
    if n == 0 then [] else Rounds(n - 1) + [Garbled(), Garbled(), Garbled()]
  }

  function Faults(n: nat): (messages: seq<Message>)
    ensures |messages| == n + 1 && TransferComplete in messages
  {
    if n == 0 then [TransferComplete] else Faults(n - 1) + [Faulted]
  }

  /** The flag is set once, and the TransferComplete made for it is sent. */
  function OneTransfer(): seq<Answer> {
    Opening(Call(false), true) + [With(Call(false), false)]
  }

  lemma OneTransferRuns()
    ensures var (s, events) := Run(Created(false), OneTransfer());
            && s == Created(false).(status := Recv, writers := [TransferComplete])
            && events == [Connected, FlagSet, Sent([InformMessage]), Received, TransferMade, Sent([TransferComplete])]
  {
    hide Run, Opening;
    OpeningRuns(false, Call(false), true);
    More(Created(false), Opening(Call(false), true), With(Call(false), false));
    assert [Connected] + [FlagSet] + [Sent([InformMessage]), Received] + [TransferMade] + [Sent([TransferComplete])]
        == [Connected, FlagSet, Sent([InformMessage]), Received, TransferMade, Sent([TransferComplete])];
  }

  /** The bound is attained, for any number of bodies that are no XML: the flag is set once, and the one
      TransferComplete made for it goes out n + 1 times. */
  lemma {:induction false} SentAgainAndAgain(n: nat)
    ensures var (s, events) := Run(Created(false), OneTransfer() + Rounds(n));
            && s == Created(false).(status := Recv, writers := Faults(n))
            && Carried(events) == n + 1 && Count(events, FlagSet) == Count(events, TransferMade) == 1
            && Count(events, FaultQueued) == n && Count(events, StrayTransfer) == Count(events, Reconnecting) == 0
  {
    hide Run, OneTransfer, Carried, Count, Faults;
    OneTransferRuns();
    if n == 0 {
      assert OneTransfer() + Rounds(0) == OneTransfer();
      OneCarried();
    } else {
      SentAgainAndAgain(n - 1);
      var before := OneTransfer() + Rounds(n - 1);
      assert before + [Garbled(), Garbled(), Garbled()] == OneTransfer() + Rounds(n);
      OneRound(before, n - 1);
    }
  }

  lemma OneCarried()
    ensures var events := [Connected, FlagSet, Sent([InformMessage]), Received, TransferMade, Sent([TransferComplete])];
            Carried(events) == 1 && Count(events, FlagSet) == Count(events, TransferMade) == 1
            && Count(events, FaultQueued) == Count(events, StrayTransfer) == Count(events, Reconnecting) == 0
    ensures Faults(0) == [TransferComplete]
  {
    hide Carried, Count;
    var none: seq<Event> := [];
    NoneCarried();
    var e1 := Grown(none, Connected);
    var e2 := Grown(e1, FlagSet);
    var e3 := Grown(e2, Sent([InformMessage]));
    var e4 := Grown(e3, Received);
    var e5 := Grown(e4, TransferMade);
    var e6 := Grown(e5, Sent([TransferComplete]));
    assert e6 == [Connected, FlagSet, Sent([InformMessage]), Received, TransferMade, Sent([TransferComplete])];
  }

  lemma Grown(events: seq<Event>, x: Event) returns (more: seq<Event>)
    ensures more == events + [x] && Carried(more) == Carried(events) + if Holds(x) then 1 else 0
    ensures forall e :: Count(more, e) == Count(events, e) + if x == e then 1 else 0
  {
    more := events + [x];
    CarriedStep(events, x);
  }

  lemma OneRound(before: seq<Answer>, n: nat)
    requires Run(Created(false), before).0 == Created(false).(status := Recv, writers := Faults(n))
    ensures var events := Run(Created(false), before).1;
            var (s, after) := Run(Created(false), before + [Garbled(), Garbled(), Garbled()]);
            && s == Created(false).(status := Recv, writers := Faults(n + 1))
            && after == events + [Received, FaultQueued, Sent(Faults(n + 1))]
            && Carried(after) == Carried(events) + 1 && Count(after, FaultQueued) == Count(events, FaultQueued) + 1
            && forall e :: e in {FlagSet, TransferMade, StrayTransfer, Reconnecting} ==> Count(after, e) == Count(events, e)
  {
    hide Run, Carried, Count;
    var s, u, events := Created(false), Garbled(), Run(Created(false), before).1;
    More(s, before, u);
    More(s, before + [u], u);
    More(s, before + [u, u], u);
    assert before + [u] + [u] == before + [u, u] && before + [u, u] + [u] == before + [u, u, u];
    var e1 := Grown(events, Received);
    var e2 := Grown(e1, FaultQueued);
    var e3 := Grown(e2, Sent(Faults(n + 1)));
    assert e3 == events + [Received, FaultQueued, Sent(Faults(n + 1))];
  }

  /** The shortest such run: one TransferComplete, sent twice. */
  lemma SentTwice()
    ensures var a, u := With(Call(false), true), Garbled();
            Run(Created(false), Opening(Call(false), true) + [a, a, u, u]).1 ==
              [Connected, FlagSet, Sent([InformMessage]), Received, TransferMade, Sent([TransferComplete]),
               Received, FaultQueued, Sent([TransferComplete, Faulted])]
  {
    hide Run, Opening;
    var a, u, s := With(Call(false), true), Garbled(), Created(false);
    var opening := Opening(Call(false), true);
    OpeningRuns(false, Call(false), true);
    More(s, opening, a);
    More(s, opening + [a], a);
    More(s, opening + [a, a], u);
    More(s, opening + [a, a, u], u);
    assert opening + [a] + [a] == opening + [a, a] && opening + [a, a] + [u] == opening + [a, a, u];
    assert opening + [a, a, u] + [u] == opening + [a, a, u, u];
    assert [TransferComplete] + [Faulted] == [TransferComplete, Faulted];
  }

  /** A TransferComplete is owed: the flag was set, and none has been made for it since. */
  predicate Owed(flag: bool, events: seq<Event>) {
    if events == [] then flag
    else
      var last := events[|events| - 1];
      last == FlagSet || (last != TransferMade && Owed(flag, events[..|events| - 1]))
  }

  lemma OwedStep(flag: bool, events: seq<Event>, e: Event)
    ensures Owed(flag, events + [e]) == (e == FlagSet || (e != TransferMade && Owed(flag, events)))
  {
    assert (events + [e])[..|events|] == events;
  }

  /** In every run the flag says whether a TransferComplete is owed. */
  lemma {:induction false} FlagIsOwed(flag: bool, answers: seq<Answer>)
    ensures var (s, events) := Run(Created(flag), answers);
            s.flag == Owed(flag, events)
    decreases |answers|
  {
    hide Next;
    if answers != [] {
      var shorter, a := answers[..|answers| - 1], answers[|answers| - 1];
      FlagIsOwed(flag, shorter);
      var (s, events) := Run(Created(flag), shorter);
      StepOwes(flag, s, events, a);
    }
  }

  lemma StepOwes(flag: bool, s: Session, events: seq<Event>, a: Answer)
    requires s.flag == Owed(flag, events)
    ensures Next(s, a).0.flag == Owed(flag, events + Next(s, a).1)
  {
    hide Owed;
    var more := Next(s, a).1;
    if more == [] {
      assert events + more == events;
    } else {
      assert more == [more[0]];
      OwedStep(flag, events, more[0]);
    }
  }

  /** When a TransferComplete is owed and a reply has come, it is made exactly for an empty body whose flag is
      read rightly and for a call without an answer; and then it reaches the wire exactly when sending
      succeeds. When it is not made, it stays owed. */
  lemma OwedIsSent(flag: bool, answers: seq<Answer>, a: Answer, b: Answer)
    requires var (s, events) := Run(Created(flag), answers); s.status == Analyse && Owed(flag, events)
    ensures var (s, events) := Run(Created(flag), answers);
            var (t, after) := Run(Created(flag), answers + [a, b]);
            var made := a.reply == Call(false) || a.reply == Empty(None);
            && (made && b.ok <==> TransferComplete in t.writers && after == events + [TransferMade, Sent(t.writers)])
            && (made && !b.ok ==> after == events + [TransferMade, SendFailed] && t.status == Exit && !Owed(flag, after))
            && (made <==> !Owed(flag, after))
  {
    hide Run, Owed, Count, Informed, Streak;
    RunKeeps(flag, answers);
    FlagIsOwed(flag, answers);
    FlagIsOwed(flag, answers + [a, b]);
    TwoMore(Created(flag), answers, a, b);
    var s, events := Run(Created(flag), answers).0, Run(Created(flag), answers).1;
    MadeThenSent(s, a, b);
    var more := Next(s, a).1 + Next(Next(s, a).0, b).1;
    var t := Next(Next(s, a).0, b).0;
    assert events + more == events + [TransferMade, Sent(t.writers)] ==> more == (events + more)[|events|..];
  }

  lemma MadeThenSent(s: Session, a: Answer, b: Answer)
    requires s.status == Analyse && !s.newdata && s.flag
    ensures var t := Next(Next(s, a).0, b).0;
            var more := Next(s, a).1 + Next(Next(s, a).0, b).1;
            var made := a.reply == Call(false) || a.reply == Empty(None);
            && (made && b.ok <==> TransferComplete in t.writers && more == [TransferMade, Sent(t.writers)])
            && (made && !b.ok ==> more == [TransferMade, SendFailed] && t.status == Exit)
            && (made <==> !t.flag)
  {
    Joined(Next(s, a).1, Next(Next(s, a).0, b).1);
  }

  /** The run in which it is lost: sending fails after the flag has been taken back, and the session closes
      without a request that held a TransferComplete, and without owing one. */
  lemma TransferIsLost(b: Answer)
    requires !b.ok && !b.again
    ensures var (s, events) := Run(Created(false), Opening(Call(false), true) + [b, b]);
            && events == [Connected, FlagSet, Sent([InformMessage]), Received, TransferMade, SendFailed]
            && s.status == Closed && !s.flag && !Owed(false, events)
  {
    hide Run, Opening, Owed;
    var s, opening := Created(false), Opening(Call(false), true);
    OpeningRuns(false, Call(false), true);
    More(s, opening, b);
    More(s, opening + [b], b);
    assert opening + [b] + [b] == opening + [b, b];
    FlagIsOwed(false, opening + [b, b]);
  }

  /** An empty body ends the session exactly when no TransferComplete is owed, provided that the flag is
      read through the right pointer; otherwise it does so exactly when what is read there is clear, which
      may be either. When it goes on, the messages sent last are sent again in front of the
      TransferComplete. */
  lemma EmptyBody(flag: bool, answers: seq<Answer>, a: Answer)
    requires Run(Created(flag), answers).0.status == Analyse && a.reply.Empty?
    ensures var (s, events) := Run(Created(flag), answers);
            var t := Run(Created(flag), answers + [a]).0;
            && (a.reply.pointer.None? ==> (t.status == End <==> !Owed(flag, events)))
            && ((t.status == End <==> !Owed(flag, events)) <==> a.reply.pointer.None? || a.reply.pointer.value == Owed(flag, events))
            && (t.status != End ==> t.status == Send && t.writers == s.writers + [TransferComplete])
  {
    FlagIsOwed(flag, answers);
    More(Created(flag), answers, a);
  }

  lemma More(s: Session, answers: seq<Answer>, a: Answer)
    ensures var (t, events) := Run(s, answers);
            Run(s, answers + [a]) == (Next(t, a).0, events + Next(t, a).1)
  {
    assert (answers + [a])[..|answers|] == answers;
  }

  function With(reply: Reply, transfer: bool): Answer {
    Answer(true, transfer, reply, false)
  }

  /** A connection on which everything goes well and the first body is `reply`. */
  function Opening(reply: Reply, transfer: bool): seq<Answer> {
    var a := With(reply, transfer);
    [a, a, a, a, a]
  }

  lemma OpeningRuns(flag: bool, reply: Reply, transfer: bool)
    ensures var s := Created(flag).(status := Analyse, flag := flag || transfer, writers := [InformMessage]);
            var events := [Connected] + (if transfer then [FlagSet] else []) + [Sent([InformMessage]), Received];
            var a := With(reply, transfer);
            Run(Created(flag), Opening(reply, transfer)) == (Next(s, a).0, events + Next(s, a).1)
  {
    hide Run;
    var s, a := Created(flag), With(reply, transfer);
    NoAnswers(s);
    More(s, [], a);
    More(s, [a], a);
    More(s, [a, a], a);
    More(s, [a, a, a], a);
    More(s, [a, a, a, a], a);
    assert [] + [a] == [a] && [a] + [a] == [a, a] && [a, a] + [a] == [a, a, a];
    assert [a, a, a] + [a] == [a, a, a, a] && [a, a, a, a] + [a] == Opening(reply, transfer);
    var none: seq<Message> := [];
    assert none + [InformMessage] == [InformMessage];
    var before := [Connected] + (if transfer then [FlagSet] else []);
    var quiet: seq<Event> := [];
    assert quiet + [Connected] == [Connected];
    assert before + [Sent([InformMessage])] + [Received] == before + [Sent([InformMessage]), Received];
  }

  lemma NoAnswers(s: Session)
    ensures Run(s, []) == (s, [])
  {
  }

  /** The run in which the stack holds a clear flag word: the flag is set, the session ends, and no
      TransferComplete has been made. And the one in which it holds a set one: a TransferComplete goes out,
      behind the Inform once more, although the flag was never set. */
  lemma StrayPointerMisleads(a: Answer)
    ensures var answers := Opening(Empty(Some(false)), true) + [a, a.(again := false)];
            var (s, events) := Run(Created(false), answers);
            s.status == Closed && s.flag && FlagSet in events && TransferMade !in events && StrayTransfer !in events
    ensures var answers := Opening(Empty(Some(true)), false) + [a.(ok := true)];
            var (s, events) := Run(Created(false), answers);
            Sent([InformMessage, TransferComplete]) in events && FlagSet !in events
  {
    hide Run, Opening;
    var s := Created(false);
    var lost, b := Opening(Empty(Some(false)), true), a.(again := false);
    OpeningRuns(false, Empty(Some(false)), true);
    More(s, lost, a);
    More(s, lost + [a], b);
    assert lost + [a] + [b] == lost + [a, b];
    var made := Opening(Empty(Some(true)), false);
    OpeningRuns(false, Empty(Some(true)), false);
    More(s, made, a.(ok := true));
    assert [InformMessage] + [TransferComplete] == [InformMessage, TransferComplete];
    assert Run(s, made + [a.(ok := true)]).1[|Run(s, made).1|] == Sent([InformMessage, TransferComplete]);
  }

  /** Whenever a body comes that is not XML, the value that was never set decides whether the fault is sent,
      behind what was sent last, or the session closes without another word. */
  lemma UnparsableBody(flag: bool, answers: seq<Answer>, a: Answer)
    requires Run(Created(flag), answers).0.status == Analyse
    ensures var (s, events) := Run(Created(flag), answers);
            var unset := a.(ok := true, again := false, reply := Unparsable(true));
            Run(Created(flag), answers + [unset, unset]).1 == events + [FaultQueued, Sent(s.writers + [Faulted])]
    ensures var (s, events) := Run(Created(flag), answers);
            var unset := a.(ok := true, again := false, reply := Unparsable(false));
            var t := Run(Created(flag), answers + [unset, unset, unset]);
            t == (s.(status := Closed, newdata := false, writers := s.writers + [Faulted]), events)
  {
    hide Run;
    var s := Created(flag);
    RunKeeps(flag, answers);
    var u := a.(ok := true, again := false, reply := Unparsable(true));
    More(s, answers, u);
    More(s, answers + [u], u);
    assert answers + [u] + [u] == answers + [u, u];
    var events := Run(s, answers).1;
    assert events + [] == events;
    var w := a.(ok := true, again := false, reply := Unparsable(false));
    More(s, answers, w);
    More(s, answers + [w], w);
    More(s, answers + [w, w], w);
    assert answers + [w] + [w] == answers + [w, w] && answers + [w, w] + [w] == answers + [w, w, w];
  }
}
