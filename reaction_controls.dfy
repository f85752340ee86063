/** `Message#reaction_controls` (lib/reaction_controls.rb): a pager driven by
    five reaction buttons on a message sent by the bot. The wait for the next
    press is abstract: the controller consumes the successive results of
    `add_await!`, each either a reaction (already narrowed by the await to the
    five button emoji in the message's channel) or nil for a timeout. */
module ReactionControls {

  type UserId = int
  type MessageId = int

  datatype Button = First | Back | Stop | Forward | Last

  /** REACTION_CONTROL_BUTTONS, in the order in which they are added. */
  const Buttons: seq<Button> := [First, Back, Stop, Forward, Last]

  function Emoji(b: Button): string
  {
    match b
    case First => "\U{23EE}"
    case Back => "\U{25C0}"
    case Stop => "\U{23F9}"
    case Forward => "\U{25B6}"
    case Last => "\U{23ED}"
  }

  /** One result of `add_await!`. */
  datatype Await = TimedOut | Reacted(message: MessageId, user: UserId, button: Button)

  /** What the controller does to the message, in order. */
  datatype Effect =
    | AddReaction(emoji: string)
    | RemoveReaction(user: UserId, emoji: string)
    | DeleteMessage

  datatype Fault = NoPermission | InvalidStartIndex

  /** The fixed parameters of one call: the message, the user the controls
      belong to, and the inclusive index range `lo..hi`. */
  datatype Session = Session(message: MessageId, owner: UserId, lo: int, hi: int)

  /** The mutable part: the index, every index yielded to the block, the
      effects on the message, and whether the loop has ended. */
  datatype Pager = Pager(index: int, yielded: seq<int>, effects: seq<Effect>, done: bool)

  datatype Outcome = Failed(fault: Fault) | Finished(pager: Pager)

  function InRange(s: Session, i: int): bool
  {
    s.lo <= i <= s.hi
  }

  /** The effects of adding the five buttons, in order. */
  function ButtonReactions(): seq<Effect>
  {
    seq(|Buttons|, k requires 0 <= k < |Buttons| => AddReaction(Emoji(Buttons[k])))
  }

  /** A press that is an owner's reaction on the controlled message. */
  predicate IsOwnPress(s: Session, e: Await)
  {
    e.Reacted? && e.message == s.message && e.user == s.owner
  }

  /** The new index for a press of a moving button, or the old one when the
      press is refused. */
  function Target(s: Session, index: int, b: Button): int
    requires b != Stop
  {
    match b
    case First => s.lo
    case Back => if InRange(s, index - 1) then index - 1 else index
    case Forward => if InRange(s, index + 1) then index + 1 else index
    case Last => s.hi
  }

  /** One turn of the outer loop: the case analysis on the await result. */
  function Step(s: Session, p: Pager, e: Await): (r: Pager)
    requires !p.done
    // a press is refused or accepted, but never leaves the range
    ensures InRange(s, p.index) ==> InRange(s, r.index)
    // the block is invoked with the new index, and only when it changed
    ensures r.yielded == p.yielded || (r.yielded == p.yielded + [r.index] && r.index != p.index)
    ensures r.index != p.index ==> r.yielded == p.yielded + [r.index]
    // reactions on other messages or by other users change nothing
    ensures e.Reacted? && !IsOwnPress(s, e) ==> r == p
    // stop or timeout ends the loop with one delete of the message
    ensures r.done <==> e.TimedOut? || (IsOwnPress(s, e) && e.button == Stop)
    ensures r.done ==> r.index == p.index && r.yielded == p.yielded && r.effects == p.effects + [DeleteMessage]
    // the transition table of the four moving buttons
    ensures IsOwnPress(s, e) && e.button == First ==> r.index == s.lo
    ensures IsOwnPress(s, e) && e.button == Last ==> r.index == s.hi
    ensures IsOwnPress(s, e) && e.button == Back ==>
      r.index == if InRange(s, p.index - 1) then p.index - 1 else p.index
    ensures IsOwnPress(s, e) && e.button == Forward ==>
      r.index == if InRange(s, p.index + 1) then p.index + 1 else p.index
    // any other press of the owner removes the owner's reaction for that button
    ensures IsOwnPress(s, e) && e.button != Stop ==> r.effects == p.effects + [RemoveReaction(s.owner, Emoji(e.button))]
  {
    match e
    case TimedOut => p.(effects := p.effects + [DeleteMessage], done := true)
    case Reacted(m, u, b) =>
      if m != s.message || u != s.owner then p
      else if b == Stop then p.(effects := p.effects + [DeleteMessage], done := true)
      else
        var i := Target(s, p.index, b);
        var yielded := if i != p.index then p.yielded + [i] else p.yielded;
        Pager(i, yielded, p.effects + [RemoveReaction(s.owner, Emoji(b))], false)
  }

  /** The loop over the await results, until it ends or the results run out
      (the call is then still waiting). */
  function Run(s: Session, p: Pager, events: seq<Await>): Pager
    decreases |events|
  {
    if p.done || events == [] then p else Run(s, Step(s, p, events[0]), events[1..])
  }

  function Start(start: int): Pager
  {
    Pager(start, [], ButtonReactions(), false)
  }

  /** The whole call: the two checks, in the source's order, then the loop. */
  function Controls(fromBot: bool, s: Session, start: int, events: seq<Await>): (o: Outcome)
    ensures o == Failed(NoPermission) <==> !fromBot
    ensures o == Failed(InvalidStartIndex) <==> fromBot && !InRange(s, start)
    ensures o.Finished? ==> |o.pager.effects| >= 5 && o.pager.effects[..5] == ButtonReactions()
  {
    if !fromBot then Failed(NoPermission)
    else if !InRange(s, start) then Failed(InvalidStartIndex)
    else
      RunKeepsPrefix(s, Start(start), events);
      Finished(Run(s, Start(start), events))
  }

  /** `reaction_controls`: reacts with the five buttons, then processes the
      await results one by one. */
  method RunControls(fromBot: bool, s: Session, start: int, events: seq<Await>) returns (o: Outcome)
    ensures o == Controls(fromBot, s, start, events)
  {
    if !fromBot {
      return Failed(NoPermission);
    }
    if !InRange(s, start) {
      return Failed(InvalidStartIndex);
    }
    var effects: seq<Effect> := [];
    for k := 0 to |Buttons|
      invariant effects == ButtonReactions()[..k]
    {
      effects := effects + [AddReaction(Emoji(Buttons[k]))];
    }
    assert ButtonReactions()[..|Buttons|] == ButtonReactions();
    assert events[0..] == events;
    var index, yielded, done, i := start, [], false, 0;
    while !done && i < |events|
      invariant 0 <= i <= |events|
      invariant Run(s, Pager(index, yielded, effects, done), events[i..]) == Run(s, Start(start), events)
      decreases |events| - i
    {
      var e := events[i];
      assert events[i..][1..] == events[i + 1..];
      i := i + 1;
      match e
      case TimedOut =>
        effects := effects + [DeleteMessage];
        done := true;
      case Reacted(m, u, b) =>
        if m == s.message && u == s.owner {
          match b
          case Stop =>
            effects := effects + [DeleteMessage];
            done := true;
          case First =>
            if s.lo != index {
              index := s.lo;
              yielded := yielded + [index];
            }
            effects := effects + [RemoveReaction(s.owner, Emoji(First))];
          case Back =>
            if InRange(s, index - 1) {
              index := index - 1;
              yielded := yielded + [index];
            }
            effects := effects + [RemoveReaction(s.owner, Emoji(Back))];
          case Forward =>
            if InRange(s, index + 1) {
              index := index + 1;
              yielded := yielded + [index];
            }
            effects := effects + [RemoveReaction(s.owner, Emoji(Forward))];
          case Last =>
            if s.hi != index {
              index := s.hi;
              yielded := yielded + [index];
            }
            effects := effects + [RemoveReaction(s.owner, Emoji(Last))];
        }
    }
    o := Finished(Pager(index, yielded, effects, done));
  }

  lemma {:induction false} RunKeepsPrefix(s: Session, p: Pager, events: seq<Await>)
    ensures |Run(s, p, events).yielded| >= |p.yielded| && |Run(s, p, events).effects| >= |p.effects|
    ensures Run(s, p, events).yielded[..|p.yielded|] == p.yielded
    ensures Run(s, p, events).effects[..|p.effects|] == p.effects
    decreases |events|
  {
    if !p.done && events != [] {
      var q := Step(s, p, events[0]);
      RunKeepsPrefix(s, q, events[1..]);
      assert q.yielded[..|p.yielded|] == p.yielded;
      assert q.effects[..|p.effects|] == p.effects;
    }
  }

  /** Over any sequence of presses the index, and every index yielded to the
      block, stays within the range. */
  lemma {:induction false} RunStaysInRange(s: Session, p: Pager, events: seq<Await>)
    requires InRange(s, p.index)
    requires forall k :: 0 <= k < |p.yielded| ==> InRange(s, p.yielded[k])
    ensures InRange(s, Run(s, p, events).index)
    ensures forall k :: 0 <= k < |Run(s, p, events).yielded| ==> InRange(s, Run(s, p, events).yielded[k])
    decreases |events|
  {
    if !p.done && events != [] {
      RunStaysInRange(s, Step(s, p, events[0]), events[1..]);
    }
  }

  /** The block sees each change of index exactly once and never a repeat of
      the index it saw last: the k-th yielded index differs from the one
      before it (the starting index for the first), and the final index is
      the last one yielded. */
  ghost predicate RendersChanges(before: int, ys: seq<int>, after: int)
  {
    && (forall k :: 0 < k < |ys| ==> ys[k] != ys[k - 1])
    && (|ys| > 0 ==> ys[0] != before && after == ys[|ys| - 1])
    && (|ys| == 0 ==> after == before)
  }

  lemma {:induction false} RunRendersChanges(s: Session, p: Pager, events: seq<Await>)
    ensures |Run(s, p, events).yielded| >= |p.yielded|
    ensures Run(s, p, events).yielded[..|p.yielded|] == p.yielded
    ensures RendersChanges(p.index, Run(s, p, events).yielded[|p.yielded|..], Run(s, p, events).index)
    decreases |events|
  {
    RunKeepsPrefix(s, p, events);
    if !p.done && events != [] {
      var q := Step(s, p, events[0]);
      RunRendersChanges(s, q, events[1..]);
      RunKeepsPrefix(s, q, events[1..]);
      var r := Run(s, q, events[1..]);
      assert r == Run(s, p, events);
      if q.yielded != p.yielded {
        var tail := r.yielded[|q.yielded|..];
        assert r.yielded[|p.yielded|..] == [q.index] + tail;
      } else {
        assert r.yielded[|p.yielded|..] == r.yielded[|q.yielded|..];
      }
    }
  }

  /** Whether an effect is one that a press of the owner leaves behind. */
  predicate IsPressRemoval(s: Session, f: Effect)
  {
    f.RemoveReaction? && f.user == s.owner && f.emoji != Emoji(Stop)
  }

  /** Everything after the initial state is per-press removals of the owner's
      reactions, then, if the loop ended, exactly one delete of the message. */
  lemma {:induction false} RunEffects(s: Session, p: Pager, events: seq<Await>)
    ensures |Run(s, p, events).effects| >= |p.effects|
    ensures Run(s, p, events).effects[..|p.effects|] == p.effects
    ensures !p.done ==>
      var r := Run(s, p, events);
      var added := r.effects[|p.effects|..];
      && (r.done ==> |added| > 0 && added[|added| - 1] == DeleteMessage)
      && (forall k :: 0 <= k < |added| && !(r.done && k == |added| - 1) ==> IsPressRemoval(s, added[k]))
    decreases |events|
  {
    RunKeepsPrefix(s, p, events);
    if !p.done && events != [] {
      var q := Step(s, p, events[0]);
      RunEffects(s, q, events[1..]);
      var r := Run(s, q, events[1..]);
      if q.done {
        assert r == q;
        assert r.effects[|p.effects|..] == [DeleteMessage];
      } else if q.effects == p.effects {
        assert r.effects[|p.effects|..] == r.effects[|q.effects|..];
      } else {
        assert r.effects[|p.effects|..] == [q.effects[|p.effects|]] + r.effects[|q.effects|..];
      }
    }
  }

  /** Once the loop has ended, later await results are never looked at. */
  lemma {:induction false} RunStopsAtEnd(s: Session, p: Pager, events: seq<Await>, later: seq<Await>)
    requires Run(s, p, events).done
    ensures Run(s, p, events + later) == Run(s, p, events)
    decreases |events|
  {
    if !p.done {
      assert events != [];
      assert (events + later)[1..] == events[1..] + later;
      RunStopsAtEnd(s, Step(s, p, events[0]), events[1..], later);
    }
  }

  /** The await results that concern the controls: timeouts, and reactions
      by the owner on the controlled message. */
  function Relevant(s: Session, events: seq<Await>): (r: seq<Await>)
    ensures |r| <= |events|
    ensures forall k :: 0 <= k < |r| ==> r[k].TimedOut? || IsOwnPress(s, r[k])
  {
    if events == [] then []
    else if events[0].Reacted? && !IsOwnPress(s, events[0]) then Relevant(s, events[1..])
    else [events[0]] + Relevant(s, events[1..])
  }

  /** Reactions on other messages or by other users are skipped: the run is
      the same as on the relevant results alone. */
  lemma {:induction false} RunIgnoresOthers(s: Session, p: Pager, events: seq<Await>)
    ensures Run(s, p, events) == Run(s, p, Relevant(s, events))
    decreases |events|
  {
    if events != [] {
      RunIgnoresOthers(s, p, events[1..]);
      if !p.done {
        if events[0].Reacted? && !IsOwnPress(s, events[0]) {
          assert Step(s, p, events[0]) == p;
        } else {
          var rel := Relevant(s, events);
          assert rel[0] == events[0] && rel[1..] == Relevant(s, events[1..]);
          RunIgnoresOthers(s, Step(s, p, events[0]), events[1..]);
        }
      } else {
        assert Run(s, p, Relevant(s, events)) == p;
      }
    }
  }

  /** The whole call never yields an index outside the range. */
  lemma ControlsStayInRange(fromBot: bool, s: Session, start: int, events: seq<Await>)
    requires Controls(fromBot, s, start, events).Finished?
    ensures var r := Controls(fromBot, s, start, events).pager;
      InRange(s, r.index) && forall k :: 0 <= k < |r.yielded| ==> InRange(s, r.yielded[k])
  {
    RunStaysInRange(s, Start(start), events);
  }

  /** Pages 0..3 from 0: forward, forward, first, stop renders 1, 2, 0 and
      ends with the message deleted. */
  lemma ForwardForwardFirstStop(m: MessageId, u: UserId)
    ensures var s := Session(m, u, 0, 3);
      var r := Controls(true, s, 0, [Reacted(m, u, Forward), Reacted(m, u, Forward), Reacted(m, u, First), Reacted(m, u, Stop)]);
      r.Finished? && r.pager.yielded == [1, 2, 0] && r.pager.done && r.pager.index == 0
      && r.pager.effects == ButtonReactions() + [RemoveReaction(u, Emoji(Forward)), RemoveReaction(u, Emoji(Forward)),
                                                RemoveReaction(u, Emoji(First)), DeleteMessage]
  {
    var s := Session(m, u, 0, 3);
    var p1 := Step(s, Start(0), Reacted(m, u, Forward));
    var p2 := Step(s, p1, Reacted(m, u, Forward));
    var p3 := Step(s, p2, Reacted(m, u, First));
    var p4 := Step(s, p3, Reacted(m, u, Stop));
    var es := [Reacted(m, u, Forward), Reacted(m, u, Forward), Reacted(m, u, First), Reacted(m, u, Stop)];
    assert Run(s, p4, es[4..]) == p4;
    assert Run(s, p3, es[3..]) == p4;
    assert Run(s, p2, es[2..]) == p4;
    assert Run(s, p1, es[1..]) == p4;
    assert Run(s, Start(0), es) == p4;
    assert p4.yielded == [1, 2, 0];
  }
}
