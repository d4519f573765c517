/** The notification hub: a bounded history for replay and one bounded channel per subscriber.

    Claims are about the time between two resets of the hub. A channel is kept in the hub's table
    together with what its subscriber has received so far, so that a subscriber's whole stream can be
    spoken about.
 */
module NotificationHub {
  import opened Text

  const CHANNEL_CAPACITY: nat := 128

  datatype Event = Event(seqNo: int, name: string, payload: string, time: int)

  /** A subscriber: the position in the stream of all events its replay starts from, the replay it
      was given, what it has received, what waits in its channel, and whether the channel is open. */
  datatype Sub = Sub(first: nat, replay: seq<Event>, received: seq<Event>, buffer: seq<Event>, open: bool)
  {
    function Stream(): seq<Event> {
      replay + received + buffer
    }
  }

  datatype State = State(nextSeq: nat, limit: nat, history: seq<Event>, subs: map<nat, Sub>, nextSub: nat)

  /** What happens to a subscriber when `e` is published: the event is queued, or a full channel is
      closed. */
  function Offered(sub: Sub, e: Event): Sub
  {
    if !sub.open then sub
    else if |sub.buffer| < CHANNEL_CAPACITY then sub.(buffer := sub.buffer + [e])
    else sub.(open := false)
  }

  function Published(s: State, name: string, payload: string, time: int): State
  {
    var e := Event(s.nextSeq + 1, name, payload, time);
    s.(nextSeq := s.nextSeq + 1,
       history := LastN(s.history + [e], s.limit),
       subs := map id | id in s.subs :: Offered(s.subs[id], e))
  }

  function After(events: seq<Event>, fromSeq: int): seq<Event>
  {
    if events == [] then []
    else After(events[..|events| - 1], fromSeq)
         + (if events[|events| - 1].seqNo > fromSeq then [events[|events| - 1]] else [])
  }

  /** Where the stream of a new subscriber starts: behind the events it says it has, but not before
      the oldest one retained, and not before now if it claims to be ahead. */
  function FirstFor(s: State, fromSeq: int): nat
  {
    if fromSeq >= s.nextSeq then s.nextSeq
    else if fromSeq >= s.nextSeq - |s.history| && fromSeq >= 0 then fromSeq
    else if s.nextSeq >= |s.history| then s.nextSeq - |s.history| else 0
  }

  function Subscribed(s: State, fromSeq: int): State
  {
    s.(subs := s.subs[s.nextSub := Sub(FirstFor(s, fromSeq), After(s.history, fromSeq), [], [], true)],
       nextSub := s.nextSub + 1)
  }

  function Cancelled(s: State, id: nat): State
  {
    if id in s.subs then s.(subs := s.subs[id := s.subs[id].(open := false)]) else s
  }

  function Taken(s: State, id: nat): State
  {
    if id in s.subs && s.subs[id].buffer != []
    then s.(subs := s.subs[id := s.subs[id].(received := s.subs[id].received + s.subs[id].buffer[..1],
                                               buffer := s.subs[id].buffer[1..])])
    else s
  }

  // ---------------------------------------------------------------- runs

  datatype Step =
    | Publish(name: string, payload: string, time: int)
    | Subscribe(fromSeq: int)
    | Cancel(id: nat)
    | Receive(id: nat)

  function Next(s: State, step: Step): State
  {
    match step
    case Publish(name, payload, time) => Published(s, name, payload, time)
    case Subscribe(fromSeq) => Subscribed(s, fromSeq)
    case Cancel(id) => Cancelled(s, id)
    case Receive(id) => Taken(s, id)
  }

  function Initial(limit: int): State
  {
    State(0, if limit < 1 then 1 else limit, [], map[], 0)
  }

  function Run(limit: int, steps: seq<Step>): State
  {
    if steps == [] then Initial(limit) else Next(Run(limit, steps[..|steps| - 1]), steps[|steps| - 1])
  }

  /** All events published during a run, in order. */
  function AllEvents(limit: int, steps: seq<Step>): seq<Event>
  {
    if steps == [] then []
    else
      var before := steps[..|steps| - 1];
      match steps[|steps| - 1]
      case Publish(name, payload, time) =>
        AllEvents(limit, before) + [Event(Run(limit, before).nextSeq + 1, name, payload, time)]
      case _ => AllEvents(limit, before)
  }

  // ---------------------------------------------------------------- the invariant

  /** The stream of a subscriber is a stretch of all events, reaching up to now while it is open. */
  ghost predicate Gapless(sub: Sub, all: seq<Event>)
  {
    var n := |sub.Stream()|;
    && sub.first + n <= |all|
    && sub.Stream() == all[sub.first..sub.first + n]
    && (sub.open ==> sub.first + n == |all|)
  }

  ghost predicate Inv(s: State, all: seq<Event>)
  {
    && s.limit >= 1
    && s.nextSeq == |all|
    && (forall k :: 0 <= k < |all| ==> all[k].seqNo == k + 1)
    && s.history == LastN(all, s.limit)
    && (forall id :: id in s.subs ==> Gapless(s.subs[id], all))
    && (forall id :: id in s.subs ==> id < s.nextSub)
  }

  lemma OfferedStaysGapless(sub: Sub, all: seq<Event>, e: Event)
    requires Gapless(sub, all)
    ensures Gapless(Offered(sub, e), all + [e])
  {
    var sub' := Offered(sub, e);
    var n := |sub.Stream()|;
    assert (all + [e])[sub.first..sub.first + n] == all[sub.first..sub.first + n];
    if sub.open && |sub.buffer| < CHANNEL_CAPACITY {
      assert sub'.Stream() == sub.Stream() + [e];
    }
  }

  lemma HistorySlides(all: seq<Event>, limit: nat, e: Event)
    requires limit >= 1
    ensures LastN(LastN(all, limit) + [e], limit) == LastN(all + [e], limit)
  {
  }

  /** Among events numbered from `base + 1`, those after `fromSeq` are a suffix. */
  lemma {:induction false} AfterIsSuffix(events: seq<Event>, base: nat, fromSeq: int)
    requires forall k :: 0 <= k < |events| ==> events[k].seqNo == base + k + 1
    ensures After(events, fromSeq) == if fromSeq >= base + |events| then []
                                      else if fromSeq <= base then events
                                      else events[fromSeq - base..]
  {
    if events != [] {
      var n := |events| - 1;
      var front := events[..n];
      AfterIsSuffix(front, base, fromSeq);
      assert events == front + [events[n]];
      if base < fromSeq < base + n {
        assert events[fromSeq - base..] == front[fromSeq - base..] + [events[n]];
      } else if base < fromSeq == base + n {
        assert events[n..] == [events[n]];
      }
    }
  }

  lemma ReplayIsSuffix(s: State, all: seq<Event>, fromSeq: int)
    requires Inv(s, all)
    ensures FirstFor(s, fromSeq) <= |all| && After(s.history, fromSeq) == all[FirstFor(s, fromSeq)..]
  {
    var base := |all| - |s.history|;
    assert s.history == all[base..];
    AfterIsSuffix(s.history, base, fromSeq);
  }

  lemma PublishKeepsInv(s: State, all: seq<Event>, name: string, payload: string, time: int)
    requires Inv(s, all)
    ensures Inv(Published(s, name, payload, time), all + [Event(s.nextSeq + 1, name, payload, time)])
  {
    var e := Event(s.nextSeq + 1, name, payload, time);
    HistorySlides(all, s.limit, e);
    forall id | id in s.subs
      ensures Gapless(Offered(s.subs[id], e), all + [e])
    {
      OfferedStaysGapless(s.subs[id], all, e);
    }
  }

  lemma SubscribeKeepsInv(s: State, all: seq<Event>, fromSeq: int)
    requires Inv(s, all)
    ensures Inv(Subscribed(s, fromSeq), all)
  {
    ReplayIsSuffix(s, all, fromSeq);
    var sub := Sub(FirstFor(s, fromSeq), After(s.history, fromSeq), [], [], true);
    assert sub.Stream() == sub.replay;
  }

  lemma TakingKeepsStream(sub: Sub)
    requires sub.buffer != []
    ensures sub.(received := sub.received + sub.buffer[..1], buffer := sub.buffer[1..]).Stream() == sub.Stream()
  {
    assert sub.buffer == sub.buffer[..1] + sub.buffer[1..];
  }

  lemma ReceiveKeepsInv(s: State, all: seq<Event>, id: nat)
    requires Inv(s, all)
    ensures Inv(Taken(s, id), all)
  {
    if id in s.subs && s.subs[id].buffer != [] {
      TakingKeepsStream(s.subs[id]);
    }
  }

  lemma CancelKeepsInv(s: State, all: seq<Event>, id: nat)
    requires Inv(s, all)
    ensures Inv(Cancelled(s, id), all)
  {
    if id in s.subs {
      assert s.subs[id].(open := false).Stream() == s.subs[id].Stream();
    }
  }

  /** After every run the history is exactly the last events up to the limit, numbered without gaps,
      and every subscriber's stream is a gap-free stretch of all events that reaches up to now while
      its channel is open. */
  lemma {:induction false} EveryRun(limit: int, steps: seq<Step>)
    ensures Inv(Run(limit, steps), AllEvents(limit, steps))
  {
    if steps != [] {
      var before := steps[..|steps| - 1];
      EveryRun(limit, before);
      var s, all := Run(limit, before), AllEvents(limit, before);
      match steps[|steps| - 1]
      case Publish(name, payload, time) => PublishKeepsInv(s, all, name, payload, time);
      case Subscribe(fromSeq) => SubscribeKeepsInv(s, all, fromSeq);
      case Cancel(id) => CancelKeepsInv(s, all, id);
      case Receive(id) => ReceiveKeepsInv(s, all, id);
    }
  }

  /** The sequence numbers in a subscriber's stream are consecutive. */
  lemma StreamIsConsecutive(limit: int, steps: seq<Step>, id: nat, k: nat)
    requires id in Run(limit, steps).subs && k < |Run(limit, steps).subs[id].Stream()|
    ensures Run(limit, steps).subs[id].Stream()[k].seqNo == Run(limit, steps).subs[id].first + k + 1
  {
    EveryRun(limit, steps);
    var sub, all := Run(limit, steps).subs[id], AllEvents(limit, steps);
    assert Gapless(sub, all);
    assert sub.Stream()[k] == all[sub.first..sub.first + |sub.Stream()|][k];
  }

  lemma SubscriberStays(s: State, step: Step, id: nat)
    requires id in s.subs && id < s.nextSub
    ensures id in Next(s, step).subs && id < Next(s, step).nextSub
    ensures Next(s, step).subs[id].first == s.subs[id].first
  {
  }

  lemma RunOneMore(limit: int, start: seq<Step>, before: seq<Step>, last: Step)
    ensures Run(limit, start + (before + [last])) == Next(Run(limit, start + before), last)
  {
    var all := start + (before + [last]);
    assert all[..|all| - 1] == start + before && all[|all| - 1] == last;
  }

  /** A subscriber keeps the place where its stream starts, whatever happens later. */
  lemma {:induction false} StartStays(limit: int, steps: seq<Step>, fromSeq: int, later: seq<Step>)
    ensures var s := Run(limit, steps);
            var t := Run(limit, steps + [Subscribe(fromSeq)] + later);
            s.nextSub in t.subs && s.nextSub < t.nextSub && t.subs[s.nextSub].first == FirstFor(s, fromSeq)
  {
    var start := steps + [Subscribe(fromSeq)];
    if later == [] {
      assert start + later == start && start[..|start| - 1] == steps;
    } else {
      var before, last := later[..|later| - 1], later[|later| - 1];
      StartStays(limit, steps, fromSeq, before);
      assert before + [last] == later;
      RunOneMore(limit, start, before, last);
      SubscriberStays(Run(limit, start + before), last, Run(limit, steps).nextSub);
    }
  }

  /** What a subscriber that asked for the events after `fromSeq` has been given at any later time: if
      that is anything at all, it starts with event `fromSeq + 1` if and only if the hub had got that
      far and still retained the next event when it subscribed. */
  lemma StartsRightAfterIff(limit: int, steps: seq<Step>, fromSeq: int, later: seq<Step>)
    ensures var s := Run(limit, steps);
            var t := Run(limit, steps + [Subscribe(fromSeq)] + later);
            && s.nextSub in t.subs
            && var stream := t.subs[s.nextSub].Stream();
               stream != [] ==>
                 (stream[0].seqNo == fromSeq + 1 <==>
                  0 <= fromSeq <= s.nextSeq && s.nextSeq - |s.history| <= fromSeq)
  {
    EveryRun(limit, steps);
    StartStays(limit, steps, fromSeq, later);
    var s, all := Run(limit, steps), steps + [Subscribe(fromSeq)] + later;
    if Run(limit, all).subs[s.nextSub].Stream() != [] {
      StreamIsConsecutive(limit, all, s.nextSub, 0);
    }
  }

  /** `step` does not close the channel of `id`: it neither cancels it nor publishes an event while 128 are
      waiting in it. */
  ghost predicate StaysOpen(limit: int, before: seq<Step>, step: Step, id: nat)
  {
    && step != Cancel(id)
    && (step.Publish? ==> id in Run(limit, before).subs && |Run(limit, before).subs[id].buffer| < 128)
  }

  /** No step after `start` closes the channel of `id`. */
  ghost predicate NeverClosed(limit: int, start: seq<Step>, later: seq<Step>, id: nat)
  {
    forall k :: 0 <= k < |later| ==> StaysOpen(limit, start + later[..k], later[k], id)
  }

  lemma NeverClosedExtends(limit: int, start: seq<Step>, before: seq<Step>, last: Step, id: nat)
    ensures NeverClosed(limit, start, before + [last], id) <==>
            NeverClosed(limit, start, before, id) && StaysOpen(limit, start + before, last, id)
  {
    var later := before + [last];
    assert later[..|before|] == before && later[|before|] == last;
    assert forall k :: 0 <= k < |before| ==> later[..k] == before[..k] && later[k] == before[k];
    if NeverClosed(limit, start, later, id) {
      forall k | 0 <= k < |before|
        ensures StaysOpen(limit, start + before[..k], before[k], id)
      {
        assert StaysOpen(limit, start + later[..k], later[k], id);
      }
    }
  }

  /** A subscriber's channel is open, so that its stream reaches up to now, if and only if it was never
      cancelled and never full when an event was published; no more than 128 events ever wait in it. */
  lemma {:induction false} OpenIff(limit: int, steps: seq<Step>, fromSeq: int, later: seq<Step>)
    ensures var id, start := Run(limit, steps).nextSub, steps + [Subscribe(fromSeq)];
            var t := Run(limit, start + later);
            && id in t.subs && |t.subs[id].buffer| <= 128
            && (t.subs[id].open <==> NeverClosed(limit, start, later, id))
  {
    var id, start := Run(limit, steps).nextSub, steps + [Subscribe(fromSeq)];
    if later == [] {
      assert start + later == start && start[..|start| - 1] == steps;
    } else {
      var before, last := later[..|later| - 1], later[|later| - 1];
      OpenIff(limit, steps, fromSeq, before);
      StartStays(limit, steps, fromSeq, before);
      assert before + [last] == later;
      RunOneMore(limit, start, before, last);
      NeverClosedExtends(limit, start, before, last, id);
      StepOnChannel(Run(limit, start + before), last, id);
    }
  }

  lemma StepOnChannel(s: State, step: Step, id: nat)
    requires id in s.subs && id < s.nextSub && |s.subs[id].buffer| <= 128
    ensures id in Next(s, step).subs && |Next(s, step).subs[id].buffer| <= 128
    ensures Next(s, step).subs[id].open <==>
            s.subs[id].open && step != Cancel(id) && (step.Publish? ==> |s.subs[id].buffer| < 128)
  {
  }

  /** The history holds the last events published, as many as were asked for but at least one. */
  lemma {:induction false} HistoryIs(limit: int, steps: seq<Step>)
    ensures var all, kept := AllEvents(limit, steps), if limit > 1 then limit else 1;
            Run(limit, steps).history == if |all| <= kept then all else all[|all| - kept..]
  {
    EveryRun(limit, steps);
    LimitStays(limit, steps);
  }

  lemma {:induction false} LimitStays(limit: int, steps: seq<Step>)
    ensures Run(limit, steps).limit == if limit > 1 then limit else 1
  {
    if steps != [] {
      LimitStays(limit, steps[..|steps| - 1]);
    }
  }

  /** Receiving hands over the first event that waits, if one does; nothing is lost, and nobody else notices. */
  lemma ReceiveHandsOver(s: State, id: nat)
    requires id in s.subs
    ensures var t, sub := Next(s, Receive(id)), s.subs[id];
            && t == s.(subs := t.subs) && t.subs.Keys == s.subs.Keys
            && (forall other :: other in s.subs && other != id ==> t.subs[other] == s.subs[other])
            && t.subs[id].Stream() == sub.Stream() && t.subs[id].replay == sub.replay
            && |t.subs[id].received| == |sub.received| + (if sub.buffer == [] then 0 else 1)
  {
    if s.subs[id].buffer != [] {
      TakingKeepsStream(s.subs[id]);
    }
  }

  // ---------------------------------------------------------------- the hub

  class Hub {
    var nextSeq: nat
    const limit: nat
    var history: seq<Event>
    var subs: map<nat, Sub>
    var nextSub: nat

    function Current(): State
      reads this
    {
      State(nextSeq, limit, history, subs, nextSub)
    }

    constructor (limit: int)
      ensures Current() == Initial(limit)
    {
      this.limit := if limit < 1 then 1 else limit;
      nextSeq, history, subs, nextSub := 0, [], map[], 0;
    }

    method Publish(name: string, payload: string, time: int) returns (e: Event)
      modifies this
      ensures Current() == Published(old(Current()), name, payload, time)
      ensures e == Event(nextSeq, name, payload, time)
    {
      nextSeq := nextSeq + 1;
      e := Event(nextSeq, name, payload, time);
      history := history + [e];
      if |history| > limit {
        history := history[|history| - limit..];
      }
      OfferToAll(e);
    }

    /** Queues `e` for every open subscriber, and closes those whose channel is full. */
    method OfferToAll(e: Event)
      modifies this`subs
      ensures subs == map id | id in old(subs) :: Offered(old(subs)[id], e)
    {
      var todo := subs.Keys;
      while todo != {}
        invariant todo <= subs.Keys && subs.Keys == old(subs).Keys
        invariant forall id :: id in subs ==>
                  subs[id] == if id in todo then old(subs)[id] else Offered(old(subs)[id], e)
        decreases todo
      {
        var id :| id in todo;
        todo := todo - {id};
        var sub := subs[id];
        if sub.open {
          if |sub.buffer| < CHANNEL_CAPACITY {
            subs := subs[id := sub.(buffer := sub.buffer + [e])];
          } else {
            subs := subs[id := sub.(open := false)];
          }
        }
      }
    }

    method Subscribe(fromSeq: int) returns (replay: seq<Event>, id: nat)
      modifies this
      ensures Current() == Subscribed(old(Current()), fromSeq)
      ensures replay == After(old(history), fromSeq) && id == old(nextSub)
    {
      replay := [];
      for i := 0 to |history|
        invariant replay == After(history[..i], fromSeq)
      {
        assert history[..i + 1][..i] == history[..i];
        if history[i].seqNo > fromSeq {
          replay := replay + [history[i]];
        }
      }
      assert history[..|history|] == history;
      id := nextSub;
      subs := subs[id := Sub(FirstFor(Current(), fromSeq), replay, [], [], true)];
      nextSub := nextSub + 1;
    }

    method Cancel(id: nat)
      modifies this`subs
      ensures Current() == Cancelled(old(Current()), id)
    {
      if id in subs {
        subs := subs[id := subs[id].(open := false)];
      }
    }

    method Receive(id: nat) returns (e: Option<Event>)
      modifies this`subs
      ensures Current() == Taken(old(Current()), id)
      ensures e == if id in old(subs) && old(subs)[id].buffer != [] then Some(old(subs)[id].buffer[0]) else None
    {
      if id !in subs || subs[id].buffer == [] {
        return None;
      }
      var sub := subs[id];
      subs := subs[id := sub.(received := sub.received + sub.buffer[..1], buffer := sub.buffer[1..])];
      return Some(sub.buffer[0]);
    }
  }
}
