/**
  The client side of the native runtime's protocol (scripts/native_session.py): one queue
  brings replies, notifications and requests of the runtime, one log keeps all of them.

  `queue` is everything the reader thread has put or will put on the message queue, in
  order. `turns` and `checks` say what the clock and the abort event show each time the
  session looks; when they run out, time is up.
*/
module NativeSession {
  import opened Basics

  /** A JSON id; Missing also stands for null. */
  datatype Id = Missing | Number(value: real) | Flag(on: bool) | Other(tag: nat)

  datatype Verb = FileChange | CommandExecution | Permissions | Elicitation | Unknown(name: nat)

  /** `verb` is its method, None when it has none or an empty one. */
  datatype Message = Message(id: Id, verb: Option<Verb>, failed: bool, result: Option<nat>)

  datatype Incoming = Arrived(message: Message) | Exit

  datatype Answer = Decline | GrantNothing | DeclineElicitation | Chosen(value: nat)

  datatype Outgoing = Request(number: nat, name: nat) | Reply(id: Id, answer: Answer)

  datatype Error = Aborted | Silence | Exited | Refused | Failed | NoResult | Late

  /** What one turn of the waiting loop finds: the abort event, the deadline, an idle queue. */
  datatype Turn = Turn(aborted: bool, late: bool, idle: bool)

  /** The decision maker of a session; it sees how many messages came before this one. */
  type Handler = (nat, Message) -> Option<Answer>

  // ---------------------------------------------------------------- what a session owes

  /** Python's comparison of a JSON id with an integer: true equals 1. */
  predicate IsNumber(id: Id, n: nat) {
    match id
    case Number(x) => x == n as real
    case Flag(b) => n == if b then 1 else 0
    case _ => false
  }

  predicate Asks(m: Message) {
    m.id != Missing && m.verb.Some?
  }

  predicate RepliesTo(m: Message, n: nat) {
    IsNumber(m.id, n) && m.verb.None?
  }

  /** A reply bears no method and the number itself, or true where the number is one. */
  lemma ReplyMeaning(m: Message, n: nat)
    requires n > 0
    ensures RepliesTo(m, n) <==> m.verb == None && (m.id == Number(n as real) || (n == 1 && m.id == Flag(true)))
  {
    match m.id
    case Number(x) =>
    case _ =>
  }

  /** The decision about a request of the runtime; None means that deciding raises. */
  function Decide(handler: Option<Handler>, n: nat, m: Message): Option<Answer>
    requires Asks(m)
  {
    match handler
    case Some(h) => h(n, m)
    case None =>
      match m.verb.value
      case FileChange => Some(Decline)
      case CommandExecution => Some(Decline)
      case Permissions => Some(GrantNothing)
      case Elicitation => Some(DeclineElicitation)
      case Unknown(_) => None
  }

  /** Whether taking in message number n raises. */
  predicate Refuses(handler: Option<Handler>, n: nat, m: Message) {
    Asks(m) && Decide(handler, n, m).None?
  }

  function AnswerTo(handler: Option<Handler>, n: nat, m: Message): seq<Outgoing> {
    if Asks(m) then
      match Decide(handler, n, m)
      case Some(a) => [Reply(m.id, a)]
      case None => []
    else []
  }

  function Answers(handler: Option<Handler>, events: seq<Message>): seq<Outgoing> {
    if events == [] then []
    else
      var n := |events| - 1;
      Answers(handler, events[..n]) + AnswerTo(handler, n, events[n])
  }

  function Kept(taken: seq<Incoming>): seq<Message> {
    if taken == [] then []
    else
      var n := |taken| - 1;
      Kept(taken[..n]) + if taken[n].Arrived? then [taken[n].message] else []
  }

  function Replies(sent: seq<Outgoing>): seq<Outgoing> {
    if sent == [] then []
    else
      var n := |sent| - 1;
      Replies(sent[..n]) + if sent[n].Reply? then [sent[n]] else []
  }

  /** The numbers of the requests sent so far. */
  function Numbers(sent: seq<Outgoing>): seq<nat> {
    if sent == [] then []
    else
      var n := |sent| - 1;
      Numbers(sent[..n]) + if sent[n].Request? then [sent[n].number] else []
  }

  function UpTo(n: nat): seq<nat> {
    seq(n, i => i + 1)
  }

  /** The first index from `start` on whose message satisfies p. */
  function FirstMatch(events: seq<Message>, start: nat, p: Message -> bool): (i: Option<nat>)
    ensures i.Some? ==> start <= i.value < |events| && p(events[i.value])
    ensures i.Some? ==> forall j :: start <= j < i.value ==> !p(events[j])
    ensures i.None? ==> forall j :: start <= j < |events| ==> !p(events[j])
    decreases |events| - start
  {
    if start >= |events| then None
    else if p(events[start]) then Some(start)
    else FirstMatch(events, start + 1, p)
  }

  /** Where a Python slice from `since` starts in a list of that length. */
  function SliceStart(since: int, length: nat): (start: nat)
    ensures start <= length
  {
    if since < 0 then MaxInt(0, length + since) else if since < length then since else length
  }

  // ---------------------------------------------------------------- one message more

  lemma KeptSnoc(taken: seq<Incoming>, x: Incoming)
    ensures Kept(taken + [x]) == Kept(taken) + if x.Arrived? then [x.message] else []
  {
    assert (taken + [x])[..|taken|] == taken;
  }

  lemma AnswersSnoc(handler: Option<Handler>, events: seq<Message>, m: Message)
    ensures Answers(handler, events + [m]) == Answers(handler, events) + AnswerTo(handler, |events|, m)
  {
    assert (events + [m])[..|events|] == events;
  }

  lemma SentSnoc(sent: seq<Outgoing>, x: Outgoing)
    ensures Replies(sent + [x]) == Replies(sent) + if x.Reply? then [x] else []
    ensures Numbers(sent + [x]) == Numbers(sent) + if x.Request? then [x.number] else []
  {
    assert (sent + [x])[..|sent|] == sent;
  }

  lemma SentAnswer(handler: Option<Handler>, sent: seq<Outgoing>, n: nat, m: Message)
    ensures Replies(sent + AnswerTo(handler, n, m)) == Replies(sent) + AnswerTo(handler, n, m)
    ensures Numbers(sent + AnswerTo(handler, n, m)) == Numbers(sent)
  {
    var a := AnswerTo(handler, n, m);
    if a == [] {
      assert sent + a == sent;
    } else {
      assert a == [a[0]];
      SentSnoc(sent, a[0]);
    }
  }

  /** The answers to later messages are sent after those to earlier ones. */
  lemma {:induction false} AnswersGrow(handler: Option<Handler>, events: seq<Message>, n: nat)
    requires n <= |events|
    ensures Answers(handler, events[..n]) <= Answers(handler, events)
    decreases |events|
  {
    if n == |events| {
      assert events[..n] == events;
    } else {
      var k := |events| - 1;
      assert events[..k][..n] == events[..n];
      AnswersGrow(handler, events[..k], n);
    }
  }

  /** Every request that did not raise is answered, at its own place, with its own id. */
  lemma {:induction false} EachRequestAnswered(handler: Option<Handler>, events: seq<Message>, i: nat)
    requires i < |events| && Asks(events[i]) && !Refuses(handler, i, events[i])
    ensures var at := |Answers(handler, events[..i])|;
            && at < |Answers(handler, events)|
            && Answers(handler, events)[at] == Reply(events[i].id, Decide(handler, i, events[i]).value)
  {
    assert events[..i + 1] == events[..i] + [events[i]];
    AnswersSnoc(handler, events[..i], events[i]);
    AnswersGrow(handler, events, i + 1);
  }

  /** With a decision maker every request gets, at its own place and with its own id, what was decided about it. */
  lemma DecidedAnswers(h: Handler, events: seq<Message>, i: nat)
    requires i < |events| && events[i].id != Missing && events[i].verb.Some? && h(i, events[i]).Some?
    ensures var at := |Answers(Some(h), events[..i])|;
            && at < |Answers(Some(h), events)|
            && Answers(Some(h), events)[at] == Reply(events[i].id, h(i, events[i]).value)
  {
    EachRequestAnswered(Some(h), events, i);
  }

  /** Without one, a change or a command is declined, nothing is granted, and elicitation has its own refusal. */
  lemma DefaultAnswers(events: seq<Message>, i: nat)
    requires i < |events| && events[i].id != Missing && events[i].verb.Some? && !events[i].verb.value.Unknown?
    ensures var at := |Answers(None, events[..i])|;
            && at < |Answers(None, events)|
            && Answers(None, events)[at].Reply? && Answers(None, events)[at].id == events[i].id
            && (events[i].verb.value in {FileChange, CommandExecution} <==> Answers(None, events)[at].answer == Decline)
            && (events[i].verb.value == Permissions <==> Answers(None, events)[at].answer == GrantNothing)
            && (events[i].verb.value == Elicitation <==> Answers(None, events)[at].answer == DeclineElicitation)
  {
    EachRequestAnswered(None, events, i);
  }

  /** Nothing but a request is ever answered, and a request of an unknown kind never is without a decision maker. */
  lemma NothingElse(handler: Option<Handler>, n: nat, m: Message)
    ensures m.id == Missing || m.verb.None? ==> AnswerTo(handler, n, m) == [] && !Refuses(handler, n, m)
    ensures m.id != Missing && m.verb.Some? && m.verb.value.Unknown? && handler.None?
            ==> AnswerTo(handler, n, m) == [] && Refuses(handler, n, m)
  {
  }

  /** How many of the messages are requests whose decision did not raise. */
  function Answerable(handler: Option<Handler>, events: seq<Message>): nat {
    if events == [] then 0
    else
      var n := |events| - 1;
      Answerable(handler, events[..n])
      + if Asks(events[n]) && !Refuses(handler, n, events[n]) then 1 else 0
  }

  /** No request is answered twice and nothing else is answered: the counts agree. */
  lemma {:induction false} NothingElseAnswered(handler: Option<Handler>, events: seq<Message>)
    ensures |Answers(handler, events)| == Answerable(handler, events)
    decreases |events|
  {
    if events != [] {
      NothingElseAnswered(handler, events[..|events| - 1]);
    }
  }

  /** Without a decision maker nothing is ever granted. */
  lemma {:induction false} DefaultsGrantNothing(events: seq<Message>)
    ensures forall r <- Answers(None, events) :: r.Reply? && r.answer in {Decline, GrantNothing, DeclineElicitation}
    decreases |events|
  {
    if events != [] {
      DefaultsGrantNothing(events[..|events| - 1]);
    }
  }

  // ---------------------------------------------------------------- waiting for a message

  /** How waiting for one message ends, after how many turns. */
  datatype Waited = Took(turns: nat) | GaveUp(error: Error, turns: nat)

  /** A turn that shows an abort to a session that watches for one. */
  predicate Aborts(watched: bool, t: Turn) {
    watched && t.aborted
  }

  /** A turn that brings a message, after the looks at the abort event and at the clock. */
  predicate Brings(watched: bool, t: Turn, waiting: bool) {
    !Aborts(watched, t) && !t.late && waiting && !t.idle
  }

  /** A turn after which a session that watches for an abort looks once more. */
  predicate Quiet(watched: bool, t: Turn, waiting: bool) {
    watched && !t.aborted && !t.late && !Brings(watched, t, waiting)
  }

  /**
    The first turn that is not quiet decides: an abort before anything else, then the
    deadline, then a message if there is one. Without an abort event to watch for, the first
    turn always decides.
  */
  function Wait(watched: bool, turns: seq<Turn>, waiting: bool): (w: Waited)
    ensures w.turns <= |turns| && forall i :: 0 <= i < w.turns - 1 ==> Quiet(watched, turns[i], waiting)
    ensures w.Took? ==> w.turns > 0 && Brings(watched, turns[w.turns - 1], waiting)
    ensures w.GaveUp? ==> w.error == Silence || w.error == Aborted
    ensures w.GaveUp? && w.error == Aborted ==> w.turns > 0 && Aborts(watched, turns[w.turns - 1])
    ensures w.GaveUp? && w.error == Silence ==>
              if w.turns > 0 && !Quiet(watched, turns[w.turns - 1], waiting)
              then !Aborts(watched, turns[w.turns - 1]) && !Brings(watched, turns[w.turns - 1], waiting)
              else w.turns == |turns|
  {
    if turns == [] then GaveUp(Silence, 0)
    else if watched && turns[0].aborted then GaveUp(Aborted, 1)
    else if turns[0].late then GaveUp(Silence, 1)
    else if waiting && !turns[0].idle then Took(1)
    else if !watched then GaveUp(Silence, 1)
    else
      match Wait(watched, turns[1..], waiting)
      case Took(n) => Took(n + 1)
      case GaveUp(e, n) => GaveUp(e, n + 1)
  }

  class Session {
    const watched: bool
    const handler: Option<Handler>
    var queue: seq<Incoming>
    var turns: seq<Turn>
    var checks: seq<bool>
    var events: seq<Message>
    var sent: seq<Outgoing>
    var nextId: nat
    /** Everything taken off the queue so far. */
    ghost var taken: seq<Incoming>

    ghost predicate Valid()
      reads this
    {
      && events == Kept(taken)
      && Replies(sent) == Answers(handler, events)
      && Numbers(sent) == UpTo(nextId)
    }

    /** The outcome of a search of the log that begins at `from`. */
    ghost predicate Earliest(p: Message -> bool, from: int, r: Result<Message, Error>)
      requires 0 <= from
      reads `events
    {
      match r
      case Returned(m) =>
        exists i :: from <= i < |events| && events[i] == m && p(m) && forall j :: from <= j < i ==> !p(events[j])
      case Raised(e) =>
        && (forall j :: from <= j < |events| - 1 ==> !p(events[j]))
        && (e != Refused ==> forall j :: from <= j < |events| ==> !p(events[j]))
    }

    constructor (watched: bool, handler: Option<Handler>, queue: seq<Incoming>, turns: seq<Turn>, checks: seq<bool>)
      ensures Valid() && this.queue == queue && events == [] && sent == [] && nextId == 0 && taken == []
      ensures this.watched == watched && this.handler == handler
    {
      this.watched, this.handler := watched, handler;
      this.queue, this.turns, this.checks := queue, turns, checks;
      events, sent, nextId, taken := [], [], 0, [];
    }

    /** One message off the queue: logged, answered if it asks, returned. */
    method Next() returns (r: Result<Message, Error>)
      requires Valid()
      modifies `queue, `turns, `events, `sent, `taken
      ensures Valid() && taken + queue == old(taken + queue)
      ensures var w := Wait(watched, old(turns), old(queue) != []);
              && turns == old(turns)[w.turns..]
              && (w.GaveUp? ==>
                    r == Raised(w.error) && queue == old(queue) && events == old(events) && sent == old(sent))
              && (w.Took? ==> queue == old(queue)[1..])
              && (w.Took? && old(queue)[0].Exit? ==>
                    r == Raised(Exited) && events == old(events) && sent == old(sent))
              && (w.Took? && old(queue)[0].Arrived? ==>
                    var m := old(queue)[0].message;
                    && events == old(events) + [m]
                    && sent == old(sent) + AnswerTo(handler, |old(events)|, m)
                    && r == if Refuses(handler, |old(events)|, m) then Raised(Refused) else Returned(m))
    {
      hide Kept, Answers, Replies, Numbers, UpTo;
      var arrived: Incoming;
      while true
        invariant Valid() && queue == old(queue) && taken == old(taken) && events == old(events) && sent == old(sent)
        invariant |turns| <= |old(turns)|
        invariant var w, rest := Wait(watched, old(turns), queue != []), Wait(watched, turns, queue != []);
                  && (w.GaveUp? <==> rest.GaveUp?) && (w.GaveUp? ==> w.error == rest.error)
                  && rest.turns <= |turns| && old(turns)[w.turns..] == turns[rest.turns..]
        decreases |turns|
      {
        if turns == [] {
          return Raised(Silence);
        }
        var now := turns[0];
        turns := turns[1..];
        if watched && now.aborted {
          return Raised(Aborted);
        }
        if now.late {
          return Raised(Silence);
        }
        if queue != [] && !now.idle {
          arrived := queue[0];
          break;
        }
        if !watched {
          return Raised(Silence);
        }
      }
      KeptSnoc(taken, arrived);
      taken := taken + [arrived];
      queue := queue[1..];
      if arrived.Exit? {
        return Raised(Exited);
      }
      var m := arrived.message;
      AnswersSnoc(handler, events, m);
      SentAnswer(handler, sent, |events|, m);
      var n := |events|;
      events := events + [m];
      if Asks(m) {
        var decision := Decide(handler, n, m);
        if decision.None? {
          assert sent + AnswerTo(handler, n, m) == sent;
          return Raised(Refused);
        }
        sent := sent + [Reply(m.id, decision.value)];
      }
      return Returned(m);
    }

    /** Sends a request under a fresh number and waits for the reply to that number. */
    method Rpc(name: nat) returns (r: Result<nat, Error>)
      requires Valid()
      modifies `queue, `turns, `checks, `events, `sent, `taken, `nextId
      ensures Valid() && taken + queue == old(taken + queue)
      ensures nextId == old(nextId) + 1 && old(sent) + [Request(nextId, name)] <= sent
      ensures old(events) <= events
      ensures forall k :: |old(events)| <= k < |events| - 1 ==> !RepliesTo(events[k], nextId)
      ensures r.Returned? ==>
                && |events| > |old(events)| && RepliesTo(events[|events| - 1], nextId)
                && !events[|events| - 1].failed && events[|events| - 1].result == Some(r.value)
      ensures r.Raised? && r.error in {Failed, NoResult} ==>
                && |events| > |old(events)| && RepliesTo(events[|events| - 1], nextId)
                && (r.error == Failed <==> events[|events| - 1].failed)
                && (r.error == NoResult ==> events[|events| - 1].result == None)
      ensures r.Raised? && r.error !in {Failed, NoResult} ==>
                forall k :: |old(events)| <= k < |events| ==> !RepliesTo(events[k], nextId)
    {
      hide Kept, Answers, Replies, Numbers, IsNumber;
      SentSnoc(sent, Request(nextId + 1, name));
      nextId := nextId + 1;
      sent := sent + [Request(nextId, name)];
      while true
        invariant Valid() && taken + queue == old(taken + queue) && nextId == old(nextId) + 1
        invariant old(sent) + [Request(nextId, name)] <= sent && old(events) <= events
        invariant forall k :: |old(events)| <= k < |events| ==> !RepliesTo(events[k], nextId)
        decreases |checks|
      {
        if checks == [] {
          return Raised(Late);
        }
        var inTime := checks[0];
        checks := checks[1..];
        if !inTime {
          return Raised(Late);
        }
        var got := Next();
        if got.Raised? {
          return Raised(got.error);
        }
        var m := got.value;
        if RepliesTo(m, nextId) {
          if m.failed {
            return Raised(Failed);
          }
          if m.result.None? {
            return Raised(NoResult);
          }
          return Returned(m.result.value);
        }
      }
    }

    /** The earliest logged message from `since` on that satisfies p, waiting for more if there is none. */
    method WaitFor(p: Message -> bool, since: int) returns (r: Result<Message, Error>)
      requires Valid()
      modifies `queue, `turns, `checks, `events, `sent, `taken
      ensures Valid() && taken + queue == old(taken + queue) && old(events) <= events && old(sent) <= sent
      ensures 0 <= since <= |old(events)| ==> Earliest(p, since, r)
      ensures since > |old(events)| ==> Earliest(p, |old(events)|, r)
      ensures -|old(events)| <= since < 0 ==> Earliest(p, |old(events)| + since, r)
      ensures since < -|old(events)| ==> Earliest(p, 0, r)
      ensures var start := SliceStart(since, |old(events)|);
              match r
              case Returned(m) =>
                var first := FirstMatch(events, start, p);
                && first.Some? && events[first.value] == m
                && (first.value < |old(events)| ==> events == old(events) && queue == old(queue) && sent == old(sent))
                && (first.value >= |old(events)| ==> first.value == |events| - 1)
              case Raised(e) =>
                && (forall j :: start <= j < |events| - 1 ==> !p(events[j]))
                && (e != Refused ==> FirstMatch(events, start, p) == None)
    {
      hide Kept, Answers, Replies, Numbers, UpTo;
      r := Search(p, SliceStart(since, |events|));
    }

    method Search(p: Message -> bool, start: nat) returns (r: Result<Message, Error>)
      requires Valid() && start <= |events|
      modifies `queue, `turns, `checks, `events, `sent, `taken
      ensures Valid() && taken + queue == old(taken + queue) && old(events) <= events && old(sent) <= sent
      ensures Earliest(p, start, r)
      ensures match r
              case Returned(m) =>
                var first := FirstMatch(events, start, p);
                && first.Some? && events[first.value] == m
                && (first.value < |old(events)| ==> events == old(events) && queue == old(queue) && sent == old(sent))
                && (first.value >= |old(events)| ==> first.value == |events| - 1)
              case Raised(e) =>
                && (forall j :: start <= j < |events| - 1 ==> !p(events[j]))
                && (e != Refused ==> FirstMatch(events, start, p) == None)
    {
      hide Kept, Answers, Replies, Numbers, UpTo;
      var i: nat := start;
      while i < |events|
        invariant start <= i <= |events| && forall j :: start <= j < i ==> !p(events[j])
      {
        if p(events[i]) {
          return Returned(events[i]);
        }
        i := i + 1;
      }
      while true
        invariant Valid() && taken + queue == old(taken + queue) && old(events) <= events && old(sent) <= sent
        invariant forall j :: start <= j < |events| ==> !p(events[j])
        decreases |checks|
      {
        if checks == [] {
          return Raised(Late);
        }
        var inTime := checks[0];
        checks := checks[1..];
        if !inTime {
          return Raised(Late);
        }
        var got := Next();
        if got.Raised? {
          return Raised(got.error);
        }
        if p(got.value) {
          assert events[|events| - 1] == got.value;
          return Returned(got.value);
        }
      }
    }
  }
}
