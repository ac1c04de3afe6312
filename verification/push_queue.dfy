/** The queue between the background SSE task and the consumer's async iterator. */
module PushQueues {

  /** A thrown value, as far as the queue looks at it: JavaScript truthiness. */
  datatype Thrown = Null | Falsy | Truthy(id: int)

  /** What a `next()` promise has come to. */
  datatype Outcome<+T> = Pending | Delivered(item: T) | Ended | Rejected(error: Thrown)

  datatype Event<+T> = Push(item: T) | Finish | Fail(error: Thrown) | Next

  // ------------------------------------------------------------- what a run of calls should come to

  predicate Done<T>(history: seq<Event<T>>) {
    history != [] && (Done(history[..|history| - 1]) || history[|history| - 1].Finish? || history[|history| - 1].Fail?)
  }

  function LastError<T>(history: seq<Event<T>>): Thrown {
    if history == [] then Null
    else if history[|history| - 1].Fail? then history[|history| - 1].error
    else LastError(history[..|history| - 1])
  }

  /** The items pushed before the queue was done. */
  function Accepted<T>(history: seq<Event<T>>): seq<T> {
    if history == [] then []
    else
      var before, last := history[..|history| - 1], history[|history| - 1];
      Accepted(before) + if last.Push? && !Done(before) then [last.item] else []
  }

  /** For each call of `next`, what it comes to should it get no item: only a call made after a failure hears of it. */
  function Endings<T>(history: seq<Event<T>>): seq<Outcome<T>> {
    if history == [] then []
    else
      var before, last := history[..|history| - 1], history[|history| - 1];
      Endings(before) + if last.Next? then [Ending(before)] else []
  }

  function Ending<T>(before: seq<Event<T>>): Outcome<T> {
    if Done(before) && LastError(before).Truthy? then Rejected(LastError(before)) else Ended
  }

  /** The k-th call gets the k-th accepted item; the calls beyond those wait until the queue is done. */
  function OutcomeOf<T>(history: seq<Event<T>>, k: nat): Outcome<T>
    requires k < |Endings(history)|
  {
    if k < |Accepted(history)| then Delivered(Accepted(history)[k])
    else if !Done(history) then Pending
    else Endings(history)[k]
  }

  lemma Unfold<T>(history: seq<Event<T>>, e: Event<T>)
    ensures Done(history + [e]) == (Done(history) || e.Finish? || e.Fail?)
    ensures LastError(history + [e]) == if e.Fail? then e.error else LastError(history)
    ensures Accepted(history + [e]) == Accepted(history) + if e.Push? && !Done(history) then [e.item] else []
    ensures Endings(history + [e]) == Endings(history) + if e.Next? then [Ending(history)] else []
  {
    assert (history + [e])[..|history|] == history;
  }

  // ------------------------------------------------------------- the queue

  class PushQueue<T> {
    var items: seq<T>
    var waiting: seq<nat>                 // the calls whose promises wait, oldest first
    var done: bool
    var error: Thrown
    var promises: seq<Outcome<T>>         // the promise of each call of `next`
    ghost var history: seq<Event<T>>

    /** The queue holds exactly what the calls so far leave: every promise is what its call should have come to. */
    ghost predicate Valid()
      reads this
    {
      && done == Done(history) && error == LastError(history)
      && Settled()
      && items == Accepted(history)[if |promises| < |Accepted(history)| then |promises| else |Accepted(history)|..]
      && (done ==> waiting == [])
      && (!done ==> forall i :: 0 <= i < |waiting| ==> waiting[i] == |Accepted(history)| + i)
      && (!done ==> |waiting| == if |promises| < |Accepted(history)| then 0 else |promises| - |Accepted(history)|)
    }

    ghost predicate Settled()
      reads this
    {
      && |promises| == |Endings(history)|
      && forall k :: 0 <= k < |promises| ==> promises[k] == OutcomeOf(history, k)
    }

    constructor ()
      ensures Valid() && history == []
    {
      items, waiting, done, error, promises, history := [], [], false, Null, [], [];
    }

    /** Resolving a promise; none is ever resolved twice. */
    method Settle(k: nat, outcome: Outcome<T>)
      requires k < |promises| && promises[k].Pending? && !outcome.Pending?
      modifies this`promises
      ensures promises == old(promises)[k := outcome]
    {
      promises := promises[k := outcome];
    }

    method Push(item: T)
      requires Valid()
      modifies this
      ensures Valid() && history == old(history) + [Event.Push(item)]
    {
      Unfold(history, Event.Push(item));
      history := history + [Event.Push(item)];
      if done {
        return;
      }
      if |waiting| > 0 {
        Settle(waiting[0], Delivered(item));
        waiting := waiting[1..];
      } else {
        items := items + [item];
      }
    }

    method Finish()
      requires Valid()
      modifies this
      ensures Valid() && history == old(history) + [Event.Finish]
    {
      Unfold(history, Event.Finish);
      history := history + [Event.Finish];
      Close(old(history));
    }

    method Fail(error: Thrown)
      requires Valid()
      modifies this
      ensures Valid() && history == old(history) + [Event.Fail(error)]
    {
      Unfold(history, Event.Fail(error));
      history := history + [Event.Fail(error)];
      this.error := error;
      Close(old(history));
    }

    /** The rest of `finish`: every waiting call is told the end. */
    method Close(ghost before: seq<Event<T>>)
      requires Done(history) && Accepted(history) == Accepted(before) && Endings(history) == Endings(before)
      requires error == LastError(history) && done == Done(before)
      requires |promises| == |Endings(history)|
      requires forall k :: 0 <= k < |promises| ==> promises[k] == OutcomeOf(before, k)
      requires items
            == Accepted(history)[if |promises| < |Accepted(history)| then |promises| else |Accepted(history)|..]
      requires done ==> waiting == []
      requires !done ==> forall i :: 0 <= i < |waiting| ==> waiting[i] == |Accepted(history)| + i
      requires !done ==>
                 |waiting| == if |promises| < |Accepted(history)| then 0 else |promises| - |Accepted(history)|
      modifies this`done, this`waiting, this`promises
      ensures Valid()
    {
      ghost var was, open := promises, !done;
      done := true;
      for i := 0 to |waiting|
        modifies this`promises
        invariant |promises| == |was|
        invariant open ==> forall j :: 0 <= j < i ==> promises[waiting[j]] == Ended
        invariant forall k :: 0 <= k < |promises| && !(open && |Accepted(history)| <= k < |Accepted(history)| + i) ==>
                    promises[k] == was[k]
      {
        assert waiting[i] == |Accepted(history)| + i;
        Settle(waiting[i], Ended);
      }
      if open {
        forall k | 0 <= k < |promises| ensures promises[k] == OutcomeOf(history, k) {
          if k >= |Accepted(history)| {
            assert promises[waiting[k - |Accepted(history)|]] == Ended;
            OpenCallsEnd(before, k);
          }
        }
      }
      waiting := [];
    }

    /** The iterator's `next`: the promise is the last of `promises`. */
    method Next() returns (call: nat)
      requires Valid()
      modifies this
      ensures Valid() && history == old(history) + [Event.Next]
      ensures call == |old(promises)| && |promises| == call + 1
    {
      Unfold(history, Event.Next);
      history := history + [Event.Next];
      call := |promises|;
      if |items| > 0 {
        promises := promises + [Delivered(items[0])];
        items := items[1..];
      } else if done {
        promises := promises + [if error.Truthy? then Rejected(error) else Ended];
      } else {
        promises := promises + [Pending];
        waiting := waiting + [call];
      }
    }
  }

  // ------------------------------------------------------------- what every run keeps

  /** A call made while the queue was open hears only of the end. */
  lemma {:induction false} OpenCallsEnd<T>(history: seq<Event<T>>, k: nat)
    requires !Done(history) && k < |Endings(history)|
    ensures Endings(history)[k] == Ended
  {
    var before := history[..|history| - 1];
    if k < |Endings(before)| {
      OpenCallsEnd(before, k);
    }
  }

  /** A settled promise keeps its outcome whatever is called later, and only an open one can still change. */
  lemma SettlesOnce<T>(history: seq<Event<T>>, e: Event<T>, k: nat)
    requires k < |Endings(history)|
    ensures k < |Endings(history + [e])|
    ensures !OutcomeOf(history, k).Pending? ==> OutcomeOf(history + [e], k) == OutcomeOf(history, k)
    ensures OutcomeOf(history, k).Pending? <==> |Accepted(history)| <= k && !Done(history)
  {
    Unfold(history, e);
    if Done(history) && k >= |Accepted(history)| {
      EndingsSettle(history, k);
    }
  }

  lemma {:induction false} EndingsSettle<T>(history: seq<Event<T>>, k: nat)
    requires k < |Endings(history)|
    ensures Endings(history)[k].Ended? || Endings(history)[k].Rejected?
  {
    var before := history[..|history| - 1];
    if k < |Endings(before)| {
      EndingsSettle(before, k);
    }
  }

  /** The values delivered, in the order of the calls. */
  function Received<T>(promises: seq<Outcome<T>>): seq<T> {
    if promises == [] then []
    else
      var last := promises[|promises| - 1];
      Received(promises[..|promises| - 1]) + if last.Delivered? then [last.item] else []
  }

  lemma {:induction false} ReceivedInOrder<T>(promises: seq<Outcome<T>>, accepted: seq<T>)
    requires forall k :: 0 <= k < |promises| ==> (promises[k].Delivered? <==> k < |accepted|)
    requires forall k :: 0 <= k < |promises| && k < |accepted| ==> promises[k].item == accepted[k]
    ensures Received(promises) == accepted[..if |promises| < |accepted| then |promises| else |accepted|]
  {
    if promises != [] {
      var front := promises[..|promises| - 1];
      ReceivedInOrder(front, accepted);
      if |promises| <= |accepted| {
        assert accepted[..|promises|] == accepted[..|front|] + [accepted[|front|]];
      }
    }
  }

  /** Nothing is lost, doubled or reordered: what was delivered followed by what is buffered is what was accepted;
      items and consumers never wait at the same time; and an end is reported only once every item was delivered. */
  lemma Conservation<T>(q: PushQueue<T>)
    requires q.Valid()
    ensures Received(q.promises) + q.items == Accepted(q.history)
    ensures q.items == [] || q.waiting == []
    ensures forall k :: 0 <= k < |q.promises| && (q.promises[k].Ended? || q.promises[k].Rejected?) ==>
              q.done && q.items == [] && Received(q.promises[..k]) == Accepted(q.history)
  {
    var accepted := Accepted(q.history);
    forall k | 0 <= k < |q.promises|
      ensures q.promises[k].Delivered? <==> k < |accepted|
    {
      EndingsSettle(q.history, k);
    }
    ReceivedInOrder(q.promises, accepted);
    forall k | 0 <= k < |q.promises| && (q.promises[k].Ended? || q.promises[k].Rejected?)
      ensures q.done && q.items == [] && Received(q.promises[..k]) == accepted
    {
      assert q.promises[k] == OutcomeOf(q.history, k);
      ReceivedInOrder(q.promises[..k], accepted);
    }
  }

  /** A call is rejected exactly when it finds the queue done, drained and failed with a truthy value; a consumer
      already waiting when the failure comes is told a plain end. */
  lemma RejectedExactly<T>(history: seq<Event<T>>, later: seq<Event<T>>)
    ensures var call := |Endings(history)|;
            && call < |Endings(history + [Next] + later)|
            && (OutcomeOf(history + [Next] + later, call).Rejected? <==>
                  |Accepted(history)| <= call && Done(history) && LastError(history).Truthy?)
            && (OutcomeOf(history + [Next] + later, call).Rejected? ==>
                  OutcomeOf(history + [Next] + later, call).error == LastError(history))
  {
    var call := |Endings(history)|;
    var made := history + [Next];
    Unfold(history, Event<T>.Next);
    EndingsStay(made, later, call);
    AcceptedAfterDone(made, later);
    if !Done(history) {
      assert Endings(made)[call] == Ended;
    } else {
      assert Accepted(made + later) == Accepted(history);
    }
  }

  lemma {:induction false} EndingsStay<T>(history: seq<Event<T>>, later: seq<Event<T>>, k: nat)
    requires k < |Endings(history)|
    ensures k < |Endings(history + later)| && Endings(history + later)[k] == Endings(history)[k]
    decreases |later|
  {
    if later == [] {
      assert history + later == history;
    } else {
      var front := later[..|later| - 1];
      EndingsStay(history, front, k);
      assert history + later == (history + front) + [later[|later| - 1]];
      Unfold(history + front, later[|later| - 1]);
    }
  }

  /** Once done, always done, and pushes are dropped. */
  lemma {:induction false} AcceptedAfterDone<T>(history: seq<Event<T>>, later: seq<Event<T>>)
    ensures Done(history) ==> Done(history + later) && Accepted(history + later) == Accepted(history)
    decreases |later|
  {
    if later == [] {
      assert history + later == history;
    } else {
      var front := later[..|later| - 1];
      AcceptedAfterDone(history, front);
      assert history + later == (history + front) + [later[|later| - 1]];
      Unfold(history + front, later[|later| - 1]);
    }
  }
}
