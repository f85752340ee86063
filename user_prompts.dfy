/** `Bot#prompt` and its three delegations (lib/user_prompts.rb). The prompt
    sends a message, then blocks until one of three handlers releases it: a
    message from the target user in the target channel that the block accepts,
    a press of the cancel reaction by the target user, or the timeout. The
    lock and the timeout thread are abstract: release is a flag, and the timer
    is the time of its last reset. Inbound events arrive as a trace. */
module UserPrompts {
  import opened Common

  type ChannelId = int
  type UserId = int
  type MessageId = int

  datatype Message = Message(id: MessageId, channel: ChannelId, author: UserId, content: string)

  /** What the block does when called with a response: returns a truthy
      value, returns a falsy one, or raises (the event dispatcher then logs
      the exception and the handler has no further effect). */
  datatype Verdict = Accept | Reject | Raise

  /** The keyword arguments of `prompt`. */
  datatype Options = Options(
    embed: Option<string>,
    timeout: Option<nat>,
    reaction: Option<string>,
    clean: bool,
    validator: Option<Message -> Verdict>)

  /** One inbound event, as the handlers see it. A reaction is not tied to a
      message: the cancel handler filters on the emoji alone. An expiry is a
      timeout thread waking up at time `at`. */
  datatype Event =
    | Posted(message: Message, at: int)
    | ReactionAdded(emoji: string, user: UserId)
    | TimerExpired(at: int)

  datatype Reason = Answered | Canceled | TimedOut

  /** The variables the handlers share: the messages to clean up, the
      response, the release of the lock (with what caused it), the time the
      timeout was last reset, and how many events have been seen. */
  datatype PromptState = PromptState(
    collected: seq<Message>,
    response: Option<Message>,
    released: Option<Reason>,
    lastReset: int,
    seen: nat)

  datatype Effect =
    | Send(channel: ChannelId, content: string, embed: Option<string>)
    | React(message: MessageId, emoji: string)
    | RemoveMessageHandler
    | RemoveReactionHandler
    | StopTimer
    | Delete(message: MessageId)

  /** The outcome of a call: still blocked when the trace ran out, or
      returned with its response. */
  datatype PromptCall = PromptCall(state: PromptState, effects: seq<Effect>)

  /** The filter of the message handler: `in: channel, from: user`. */
  predicate FromTarget(channel: ChannelId, user: UserId, m: Message)
  {
    m.channel == channel && m.author == user
  }

  function Judge(opts: Options, m: Message): Verdict
  {
    if opts.validator.None? then Accept else opts.validator.value(m)
  }

  /** The three handlers, applied to one event while the lock is closed. */
  function Step(channel: ChannelId, user: UserId, opts: Options, st: PromptState, e: Event): (r: PromptState)
    requires st.released.None?
    ensures r.seen == st.seen + 1
    // every message from the target user in the target channel is collected,
    // and nothing else is
    ensures e.Posted? && FromTarget(channel, user, e.message) ==> r.collected == st.collected + [e.message]
    ensures !(e.Posted? && FromTarget(channel, user, e.message)) ==> r.collected == st.collected
    // only an accepted message becomes the response, and it releases the lock
    ensures st.response.None? ==> (r.response.Some? <==> r.released == Some(Answered))
    ensures r.response != st.response ==> r.response.Some? && e.Posted? && r.response.value == e.message && Judge(opts, e.message) == Accept
    ensures e.Posted? && FromTarget(channel, user, e.message) && Judge(opts, e.message) == Accept ==> r.released == Some(Answered)
    // a rejected message restarts the timeout at the time it arrived
    ensures e.Posted? && FromTarget(channel, user, e.message) && Judge(opts, e.message) == Reject ==>
      r.released.None? && r.lastReset == (if opts.timeout.Some? then e.at else st.lastReset)
    // nothing else moves the timeout: not a raising block, not a reaction, not an expiry
    ensures !(e.Posted? && FromTarget(channel, user, e.message) && Judge(opts, e.message) == Reject && opts.timeout.Some?) ==>
      r.lastReset == st.lastReset
    // only the target user pressing the cancel emoji cancels
    ensures r.released == Some(Canceled) <==>
      e.ReactionAdded? && opts.reaction == Some(e.emoji) && e.user == user
    // the timeout fires only when one was given and has run out since the last reset
    ensures r.released == Some(TimedOut) <==>
      e.TimerExpired? && opts.timeout.Some? && e.at >= st.lastReset + opts.timeout.value
  {
    var s1 := st.(seen := st.seen + 1);
    match e
    case Posted(m, at) =>
      if !FromTarget(channel, user, m) then s1
      else
        var s2 := s1.(collected := s1.collected + [m]);
        (match Judge(opts, m)
         case Accept => s2.(response := Some(m), released := Some(Answered))
         case Reject => if opts.timeout.Some? then s2.(lastReset := at) else s2
         case Raise => s2)
    case ReactionAdded(emoji, u) =>
      if opts.reaction == Some(emoji) && u == user then s1.(released := Some(Canceled)) else s1
    case TimerExpired(at) =>
      if opts.timeout.Some? && at >= s1.lastReset + opts.timeout.value then s1.(released := Some(TimedOut)) else s1
  }

  /** The lock stays closed until a handler releases it or the events run out. */
  function Run(channel: ChannelId, user: UserId, opts: Options, st: PromptState, events: seq<Event>): PromptState
    decreases |events|
  {
    if st.released.Some? || events == [] then st
    else Run(channel, user, opts, Step(channel, user, opts, st, events[0]), events[1..])
  }

  /** What happens once the lock opens. */
  function Teardown(opts: Options, st: PromptState): (fx: seq<Effect>)
    ensures RemoveMessageHandler in fx
    ensures RemoveReactionHandler in fx <==> opts.reaction.Some?
    ensures StopTimer in fx <==> opts.timeout.Some?
    ensures forall id :: Delete(id) in fx <==> opts.clean && exists k :: 0 <= k < |st.collected| && st.collected[k].id == id
  {
    [RemoveMessageHandler]
    + (if opts.reaction.Some? then [RemoveReactionHandler] else [])
    + (if opts.timeout.Some? then [StopTimer] else [])
    + (if opts.clean then Deletions(st.collected) else [])
  }

  function Deletions(ms: seq<Message>): (fx: seq<Effect>)
    ensures |fx| == |ms|
    ensures forall k :: 0 <= k < |ms| ==> fx[k] == Delete(ms[k].id)
  {
    if ms == [] then [] else [Delete(ms[0].id)] + Deletions(ms[1..])
  }

  function Opening(channel: ChannelId, content: string, opts: Options, sent: Message): seq<Effect>
  {
    [Send(channel, content, opts.embed)] + (if opts.reaction.Some? then [React(sent.id, opts.reaction.value)] else [])
  }

  function Initial(sent: Message, now: int): PromptState
  {
    PromptState([sent], None, None, now, 0)
  }

  /** The whole call. `sent` is the message that `send_message` returned and
      `now` the time at which the timeout was first armed. */
  function PromptSpec(channel: ChannelId, user: UserId, content: string, opts: Options,
                      sent: Message, now: int, events: seq<Event>): (c: PromptCall)
    ensures |c.state.collected| >= 1 && c.state.collected[0] == sent
    ensures c.state.released.None? ==> c.effects == Opening(channel, content, opts, sent)
    ensures c.state.released.Some? ==> c.effects == Opening(channel, content, opts, sent) + Teardown(opts, c.state)
    ensures c.state.response.Some? <==> c.state.released == Some(Answered)
  {
    var st := Run(channel, user, opts, Initial(sent, now), events);
    RunKeepsPrompt(channel, user, opts, Initial(sent, now), events);
    RunAnswered(channel, user, opts, Initial(sent, now), events);
    PromptCall(st, Opening(channel, content, opts, sent) + (if st.released.Some? then Teardown(opts, st) else []))
  }

  /** `Bot#prompt`. */
  method Prompt(channel: ChannelId, user: UserId, content: string, opts: Options,
                sent: Message, now: int, events: seq<Event>) returns (c: PromptCall)
    ensures c == PromptSpec(channel, user, content, opts, sent, now, events)
  {
    var messages: seq<Message> := [];
    var response: Option<Message> := None;
    var released: Option<Reason> := None;
    var opening := [Send(channel, content, opts.embed)];
    if opts.reaction.Some? {
      opening := opening + [React(sent.id, opts.reaction.value)];
    }
    messages := messages + [sent];
    var lastReset := now;
    var i := 0;
    assert events[0..] == events;
    assert PromptState(messages, response, released, lastReset, i) == Initial(sent, now);
    while released.None? && i < |events|
      invariant 0 <= i <= |events|
      invariant Run(channel, user, opts, PromptState(messages, response, released, lastReset, i), events[i..])
        == Run(channel, user, opts, Initial(sent, now), events)
      decreases |events| - i
    {
      assert events[i..][1..] == events[i + 1..];
      var next := Handle(channel, user, opts, PromptState(messages, response, released, lastReset, i), events[i]);
      messages, response, released, lastReset, i := next.collected, next.response, next.released, next.lastReset, next.seen;
    }
    var st := PromptState(messages, response, released, lastReset, i);
    var closing: seq<Effect> := [];
    if released.Some? {
      closing := Release(opts, st);
    }
    c := PromptCall(st, opening + closing);
  }

  /** The handler that receives one event while the lock is closed, acting
      on the variables the three handlers share. */
  method Handle(channel: ChannelId, user: UserId, opts: Options, st: PromptState, e: Event) returns (r: PromptState)
    requires st.released.None?
    ensures r == Step(channel, user, opts, st, e)
  {
    r := st.(seen := st.seen + 1);
    match e {
      case Posted(m, at) =>
        if FromTarget(channel, user, m) {
          r := r.(collected := r.collected + [m]);
          var verdict := Judge(opts, m);
          if verdict == Reject {
            if opts.timeout.Some? {
              r := r.(lastReset := at);
            }
          } else if verdict == Accept {
            r := r.(response := Some(m), released := Some(Answered));
          }
        }
      case ReactionAdded(emoji, u) =>
        if opts.reaction == Some(emoji) && u == user {
          r := r.(released := Some(Canceled));
        }
      case TimerExpired(at) =>
        if opts.timeout.Some? && at >= r.lastReset + opts.timeout.value {
          r := r.(released := Some(TimedOut));
        }
    }
  }

  /** The code after `lock.close`: remove the handlers, stop the timeout
      thread, and delete the collected messages when cleaning. */
  method Release(opts: Options, st: PromptState) returns (closing: seq<Effect>)
    ensures closing == Teardown(opts, st)
  {
    var handlers := [RemoveMessageHandler];
    if opts.reaction.Some? {
      handlers := handlers + [RemoveReactionHandler];
    }
    var timer: seq<Effect> := [];
    if opts.timeout.Some? {
      timer := [StopTimer];
    }
    var deleted: seq<Effect> := [];
    if opts.clean {
      deleted := DeleteAll(st.collected);
    }
    closing := handlers + timer + deleted;
  }

  /** `messages.each(&:delete)`. */
  method DeleteAll(messages: seq<Message>) returns (deleted: seq<Effect>)
    ensures deleted == Deletions(messages)
  {
    var k := 0;
    deleted := [];
    while k < |messages|
      invariant 0 <= k <= |messages|
      invariant deleted == Deletions(messages[..k])
    {
      assert messages[..k + 1] == messages[..k] + [messages[k]];
      DeletionsAppend(messages[..k], messages[k]);
      deleted := deleted + [Delete(messages[k].id)];
      k := k + 1;
    }
    assert messages[..k] == messages;
  }

  lemma {:induction false} DeletionsAppend(ms: seq<Message>, m: Message)
    ensures Deletions(ms + [m]) == Deletions(ms) + [Delete(m.id)]
  {
    var l := Deletions(ms + [m]);
    assert |l| == |Deletions(ms) + [Delete(m.id)]|;
    forall k | 0 <= k < |l| ensures l[k] == (Deletions(ms) + [Delete(m.id)])[k] {
      assert (ms + [m])[k] == if k < |ms| then ms[k] else m;
    }
  }

  lemma {:induction false} RunKeepsPrompt(channel: ChannelId, user: UserId, opts: Options, st: PromptState, events: seq<Event>)
    ensures |Run(channel, user, opts, st, events).collected| >= |st.collected|
    ensures Run(channel, user, opts, st, events).collected[..|st.collected|] == st.collected
    decreases |events|
  {
    if st.released.None? && events != [] {
      var q := Step(channel, user, opts, st, events[0]);
      RunKeepsPrompt(channel, user, opts, q, events[1..]);
      assert q.collected[..|st.collected|] == st.collected;
    }
  }

  lemma {:induction false} RunAnswered(channel: ChannelId, user: UserId, opts: Options, st: PromptState, events: seq<Event>)
    requires st.response.Some? <==> st.released == Some(Answered)
    ensures var r := Run(channel, user, opts, st, events); r.response.Some? <==> r.released == Some(Answered)
    decreases |events|
  {
    if st.released.None? && events != [] {
      RunAnswered(channel, user, opts, Step(channel, user, opts, st, events[0]), events[1..]);
    }
  }

  /** The messages of the trace that the message handler sees. */
  function Matching(channel: ChannelId, user: UserId, events: seq<Event>): (ms: seq<Message>)
    ensures forall k :: 0 <= k < |ms| ==> FromTarget(channel, user, ms[k])
  {
    if events == [] then []
    else if events[0].Posted? && FromTarget(channel, user, events[0].message)
      then [events[0].message] + Matching(channel, user, events[1..])
    else Matching(channel, user, events[1..])
  }

  lemma {:induction false} MatchingAppend(channel: ChannelId, user: UserId, events: seq<Event>, e: Event)
    ensures Matching(channel, user, events + [e])
      == Matching(channel, user, events) + Matching(channel, user, [e])
    decreases |events|
  {
    if events != [] {
      assert (events + [e])[1..] == events[1..] + [e];
      MatchingAppend(channel, user, events[1..], e);
    }
  }

  /** The collected list is the prompt followed by every message from the
      target user in the target channel, accepted or not, among the events
      seen before the lock opened; those are a prefix of the trace. */
  lemma {:induction false} RunCollects(channel: ChannelId, user: UserId, opts: Options, st: PromptState,
                                      events: seq<Event>, past: seq<Event>)
    requires |past| == st.seen
    requires |st.collected| >= 1
    requires st.collected[1..] == Matching(channel, user, past)
    ensures var r := Run(channel, user, opts, st, events);
      && |r.collected| >= 1
      && st.seen <= r.seen <= st.seen + |events|
      && r.collected[0] == st.collected[0]
      && r.collected[1..] == Matching(channel, user, past + events[..r.seen - st.seen])
      && (r.released.None? ==> r.seen == st.seen + |events|)
    decreases |events|
  {
    if st.released.Some? || events == [] {
      assert past + events[..0] == past;
    } else {
      var q := Step(channel, user, opts, st, events[0]);
      MatchingAppend(channel, user, past, events[0]);
      assert q.collected[1..] == st.collected[1..] + Matching(channel, user, [events[0]]);
      RunCollects(channel, user, opts, q, events[1..], past + [events[0]]);
      var r := Run(channel, user, opts, q, events[1..]);
      assert past + [events[0]] + events[1..][..r.seen - q.seen] == past + events[..r.seen - st.seen];
    }
  }

  lemma PromptCollects(channel: ChannelId, user: UserId, content: string, opts: Options,
                       sent: Message, now: int, events: seq<Event>)
    ensures var c := PromptSpec(channel, user, content, opts, sent, now, events);
      && c.state.seen <= |events|
      && c.state.collected == [sent] + Matching(channel, user, events[..c.state.seen])
      && (c.state.released.None? ==> c.state.seen == |events|)
  {
    RunCollects(channel, user, opts, Initial(sent, now), events, []);
    var c := PromptSpec(channel, user, content, opts, sent, now, events);
    assert [] + events[..c.state.seen] == events[..c.state.seen];
    assert c.state.collected == [c.state.collected[0]] + c.state.collected[1..];
  }

  /** Without a block, the first message from the target user in the
      target channel is the response and ends the prompt. */
  lemma {:induction false} RunWithoutBlock(channel: ChannelId, user: UserId, opts: Options, st: PromptState, events: seq<Event>)
    requires opts.validator.None?
    requires st.released.None? && st.response.None?
    ensures var r := Run(channel, user, opts, st, events);
      var ms := Matching(channel, user, events);
      && (ms == [] ==> r.response.None? && r.collected == st.collected)
      && (ms != [] ==> r.response.None? || (r.response == Some(ms[0]) && r.collected == st.collected + [ms[0]]))
      // no response although a message came: the lock opened before it, by
      // the cancel reaction or the timeout
      && (ms != [] && r.response.None? ==>
            r.released.Some? && r.released != Some(Answered) && r.collected == st.collected)
    decreases |events|
  {
    if events != [] {
      var q := Step(channel, user, opts, st, events[0]);
      if q.released.None? {
        RunWithoutBlock(channel, user, opts, q, events[1..]);
      }
    }
  }

  /** Which producers can release the lock: no timeout means no expiry ever
      fires, and no cancel reaction means the prompt cannot be canceled. */
  lemma {:induction false} RunReleasedBy(channel: ChannelId, user: UserId, opts: Options, st: PromptState, events: seq<Event>)
    requires opts.timeout.None? ==> st.released != Some(TimedOut)
    requires opts.reaction.None? ==> st.released != Some(Canceled)
    ensures var r := Run(channel, user, opts, st, events);
      && (opts.timeout.None? ==> r.released != Some(TimedOut))
      && (opts.reaction.None? ==> r.released != Some(Canceled))
    decreases |events|
  {
    if st.released.None? && events != [] {
      RunReleasedBy(channel, user, opts, Step(channel, user, opts, st, events[0]), events[1..]);
    }
  }

  /** The result is the accepted message, or nil when the prompt timed out
      or was canceled. */
  lemma PromptResult(channel: ChannelId, user: UserId, content: string, opts: Options,
                     sent: Message, now: int, events: seq<Event>)
    ensures var c := PromptSpec(channel, user, content, opts, sent, now, events);
      && (c.state.released == Some(TimedOut) || c.state.released == Some(Canceled) ==> c.state.response.None?)
      && (c.state.response.Some? ==>
            Judge(opts, c.state.response.value) == Accept && FromTarget(channel, user, c.state.response.value))
      && (opts.timeout.None? ==> c.state.released != Some(TimedOut))
      && (opts.reaction.None? ==> c.state.released != Some(Canceled))
  {
    RunReleasedBy(channel, user, opts, Initial(sent, now), events);
    RunResponse(channel, user, opts, Initial(sent, now), events);
  }

  lemma {:induction false} RunResponse(channel: ChannelId, user: UserId, opts: Options, st: PromptState, events: seq<Event>)
    requires st.response.Some? ==> Judge(opts, st.response.value) == Accept && FromTarget(channel, user, st.response.value)
    ensures var r := Run(channel, user, opts, st, events);
      r.response.Some? ==> Judge(opts, r.response.value) == Accept && FromTarget(channel, user, r.response.value)
    decreases |events|
  {
    if st.released.None? && events != [] {
      RunResponse(channel, user, opts, Step(channel, user, opts, st, events[0]), events[1..]);
    }
  }

  /** A rejected answer followed, after a delay shorter than the timeout, by
      an accepted one: the answer wins although the time since the call
      started exceeds the timeout, because the rejection reset it. */
  lemma RejectThenAccept(m1: Message, m2: Message)
    requires m1.channel == 42 && m1.author == 7 && m2.channel == 42 && m2.author == 7
    requires m1.content == "a" && m2.content == "12"
    ensures var opts := Options(None, Some(30), None, false, Some((m: Message) => if m.content == "12" then Accept else Reject));
      var c := PromptSpec(42, 7, "pick a number", opts, Message(1, 42, 0, "pick a number"), 0,
                          [Posted(m1, 5), TimerExpired(30), Posted(m2, 34)]);
      c.state.response == Some(m2) && c.state.collected == [Message(1, 42, 0, "pick a number"), m1, m2]
  {
    var opts := Options(None, Some(30), None, false, Some((m: Message) => if m.content == "12" then Accept else Reject));
    var events := [Posted(m1, 5), TimerExpired(30), Posted(m2, 34)];
    var s0 := Initial(Message(1, 42, 0, "pick a number"), 0);
    var s1 := Step(42, 7, opts, s0, events[0]);
    assert s1.lastReset == 5;
    var s2 := Step(42, 7, opts, s1, events[1]);
    var s3 := Step(42, 7, opts, s2, events[2]);
    assert Run(42, 7, opts, s3, events[3..]) == s3;
    assert Run(42, 7, opts, s2, events[2..]) == s3;
    assert Run(42, 7, opts, s1, events[1..]) == s3;
  }

  /** `Channel#prompt`: this channel is where the prompt runs. */
  method ChannelPrompt(self: ChannelId, user: UserId, content: string, opts: Options,
                       sent: Message, now: int, events: seq<Event>) returns (c: PromptCall)
    ensures c == PromptSpec(self, user, content, opts, sent, now, events)
  {
    c := Prompt(self, user, content, opts, sent, now, events);
  }

  /** `User#prompt`: this user is the one prompted. */
  method UserPrompt(self: UserId, channel: ChannelId, content: string, opts: Options,
                    sent: Message, now: int, events: seq<Event>) returns (c: PromptCall)
    ensures c == PromptSpec(channel, self, content, opts, sent, now, events)
  {
    c := Prompt(channel, self, content, opts, sent, now, events);
  }

  /** `Message#prompt`: the author of this message, in its channel. */
  method MessagePrompt(self: Message, content: string, opts: Options,
                       sent: Message, now: int, events: seq<Event>) returns (c: PromptCall)
    ensures c == PromptSpec(self.channel, self.author, content, opts, sent, now, events)
  {
    c := Prompt(self.channel, self.author, content, opts, sent, now, events);
  }
}
