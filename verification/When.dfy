/** jQuery.when: a master Deferred that waits for others, whose done and fail callbacks are what
    calls in here. */
module When {
  import opened Options
  import Callbacks
  import Deferred

  type Value = int

  /** An argument that is no promise, or what a promise has called back: one that is waited for
      may be settled already, with its callbacks still to come here. */
  datatype Sub = Plain | Waiting | Done(value: Value) | Failed(data: Value)

  datatype Master = Pending | Resolved(values: seq<Value>) | Rejected(data: Value)

  predicate IsOpen(sub: Sub) {
    sub.Waiting? || sub.Failed?
  }

  /** The subordinates that have not been resolved. */
  function OpenCount(subs: seq<Sub>): (n: nat)
    ensures n <= |subs|
  {
    if |subs| == 0 then 0
    else OpenCount(subs[..|subs| - 1]) + if IsOpen(subs[|subs| - 1]) then 1 else 0
  }

  lemma {:induction false} OpenCountSet(subs: seq<Sub>, i: nat, sub: Sub)
    requires i < |subs|
    ensures OpenCount(subs[i := sub])
         == OpenCount(subs) - (if IsOpen(subs[i]) then 1 else 0) + if IsOpen(sub) then 1 else 0
  {
    var last := |subs| - 1;
    if i < last {
      OpenCountSet(subs[..last], i, sub);
      assert subs[i := sub][..last] == subs[..last][i := sub];
    } else {
      assert subs[i := sub][..last] == subs[..last];
    }
  }

  lemma {:induction false} NoneOpen(subs: seq<Sub>)
    ensures OpenCount(subs) == 0 <==> forall i :: 0 <= i < |subs| ==> !IsOpen(subs[i])
  {
    if |subs| > 0 {
      NoneOpen(subs[..|subs| - 1]);
    }
  }

  function ResultOf(sub: Sub, arg: Value): Value {
    if sub.Done? then sub.value else arg
  }

  /** The values in the order of the arguments, as far as they are known. */
  function Results(subs: seq<Sub>, args: seq<Value>): (values: seq<Value>)
    requires |subs| == |args|
    ensures |values| == |args|
  {
    seq(|args|, i requires 0 <= i < |args| => ResultOf(subs[i], args[i]))
  }

  /** The failure of the first argument that has failed. */
  function FirstFailed(subs: seq<Sub>): Option<Value> {
    if |subs| == 0 then None
    else
      var front, last := FirstFailed(subs[..|subs| - 1]), subs[|subs| - 1];
      if front.None? && last.Failed? then Some(last.data) else front
  }

  predicate AnyFailed(subs: seq<Sub>) {
    exists i :: 0 <= i < |subs| && subs[i].Failed?
  }

  lemma {:induction false} FirstFailedIsOne(subs: seq<Sub>)
    ensures FirstFailed(subs).Some? <==> AnyFailed(subs)
    ensures FirstFailed(subs).Some? ==> Failed(FirstFailed(subs).value) in subs
  {
    if |subs| > 0 {
      FirstFailedIsOne(subs[..|subs| - 1]);
      if AnyFailed(subs[..|subs| - 1]) {
        var i :| 0 <= i < |subs| - 1 && subs[..|subs| - 1][i].Failed?;
        assert subs[i].Failed?;
      }
    }
  }

  /** What the master has to be. */
  ghost predicate MasterRight(master: Master, subs: seq<Sub>, args: seq<Value>)
    requires |subs| == |args|
  {
    && (master.Pending? <==> OpenCount(subs) > 0 && !AnyFailed(subs))
    && (master.Resolved? ==> OpenCount(subs) == 0 && master.values == Results(subs, args))
    && (master.Rejected? ==> Failed(master.data) in subs)
  }

  /** The master is resolved exactly when every subordinate is, with the values in argument
      order, and rejected exactly when one of them is. */
  lemma ResolvedWithAll(master: Master, subs: seq<Sub>, args: seq<Value>)
    requires |subs| == |args| && MasterRight(master, subs, args)
    ensures master.Resolved? <==> forall i :: 0 <= i < |subs| ==> !IsOpen(subs[i])
    ensures master.Resolved? ==> forall i :: 0 <= i < |subs| ==> master.values[i] == ResultOf(subs[i], args[i])
    ensures master.Rejected? <==> AnyFailed(subs)
  {
    NoneOpen(subs);
    if master.Rejected? {
      var i :| 0 <= i < |subs| && subs[i] == Failed(master.data);
      assert IsOpen(subs[i]);
    }
  }

  class Waiter {
    const args: seq<Value>
    var remaining: nat
    var resolveValues: seq<Value>
    var progressValues: seq<Value>
    var master: Master
    var notified: seq<seq<Value>>
    var subs: seq<Sub>

    ghost predicate Valid()
      reads this
    {
      && |subs| == |args| == |resolveValues| == |progressValues|
      && MasterRight(master, subs, args)
      && (|args| != 1 || subs[0].Plain? ==> remaining == OpenCount(subs) && resolveValues == Results(subs, args))
    }

    /** when, given how its arguments stand at the call. With one promise that promise is the
        master; otherwise the master is new. */
    constructor (args: seq<Value>, subs: seq<Sub>, blank: Value)
      requires |subs| == |args|
      ensures Valid() && this.args == args && this.subs == subs && notified == []
      ensures FirstFailed(subs).Some? ==> master == Rejected(FirstFailed(subs).value)
    {
      this.args := args;
      this.subs := subs;
      resolveValues := args;
      progressValues := seq(|args|, _ => blank);
      remaining := if |args| != 1 || !subs[0].Plain? then |args| else 0;
      master := Pending;
      notified := [];
      new;
      if remaining == 1 && |args| == 1 {
        OneSub(subs, args);
        master := match subs[0]
          case Done(value) => Resolved([value])
          case Failed(data) => Rejected(data)
          case _ => Pending;
      } else {
        Listen();
      }
    }

    /** The loop over the arguments: a promise that is settled already calls back at once. */
    method Listen()
      requires |subs| == |args| == |progressValues| && resolveValues == args && master.Pending?
      requires remaining == if |args| == 1 then 0 else |args|
      requires |args| == 1 ==> subs[0].Plain?
      modifies this`remaining, this`resolveValues, this`master
      ensures Valid()
      ensures FirstFailed(subs).Some? ==> master == Rejected(FirstFailed(subs).value)
    {
      hide *;
      if |args| == 1 {
        LonePlain(subs, args);
      } else {
        StandingFirst(subs, args);
        for i := 0 to |args|
          invariant Standing(subs, args, i, remaining, resolveValues, master)
        {
          ListenTo(i);
        }
        StandingLast(subs, args, remaining, resolveValues, master);
      }
      if remaining == 0 {
        ResolveWith();
      }
      NowValid();
    }

    lemma NowValid()
      requires |subs| == |args| == |resolveValues| == |progressValues| && MasterRight(master, subs, args)
      requires remaining == OpenCount(subs) && resolveValues == Results(subs, args)
      ensures Valid()
    {}

    /** One argument of the loop. */
    method ListenTo(i: nat)
      requires |subs| == |args| && i < |args| && Standing(subs, args, i, remaining, resolveValues, master)
      modifies this`remaining, this`resolveValues, this`master
      ensures Standing(subs, args, i + 1, remaining, resolveValues, master)
    {
      hide Standing;
      StandingNext(subs, args, i, remaining, resolveValues, master);
      match subs[i] {
        case Plain => remaining := remaining - 1;
        case Done(value) => Update(i, value);
        case Failed(data) => Reject(data);
        case Waiting =>
      }
    }

    /** The master is resolved with the values, unless it is settled. */
    method ResolveWith()
      modifies this`master
      ensures master == Settled(old(master), Resolved(resolveValues))
    {
      if master.Pending? {
        master := Resolved(resolveValues);
      }
    }

    method Reject(data: Value)
      modifies this`master
      ensures master == Settled(old(master), Rejected(data))
    {
      if master.Pending? {
        master := Rejected(data);
      }
    }

    /** updateFunc(i) of the resolve values. */
    method Update(i: nat, value: Value)
      requires i < |resolveValues| && remaining > 0
      modifies this`resolveValues, this`remaining, this`master
      ensures resolveValues == old(resolveValues)[i := value] && remaining == old(remaining) - 1
      ensures master == if remaining == 0 then Settled(old(master), Resolved(resolveValues)) else old(master)
    {
      resolveValues := resolveValues[i := value];
      remaining := remaining - 1;
      if remaining == 0 {
        ResolveWith();
      }
    }

    /** A subordinate is resolved: the last one resolves the master. */
    method SubResolved(i: nat, value: Value)
      requires Valid() && i < |subs| && subs[i].Waiting?
      modifies this
      ensures Valid() && subs == old(subs)[i := Done(value)]
      ensures if old(master).Pending? then !master.Rejected? else master == old(master)
      ensures progressValues == old(progressValues) && notified == old(notified)
    {
      OpenCountSet(subs, i, Done(value));
      NoneOpen(subs);
      FailedSet(subs, i, Done(value));
      subs := subs[i := Done(value)];
      if |args| == 1 {
        OneSub(subs, args);
        master := Settled(master, Resolved([value]));
      } else {
        Update(i, value);
        assert resolveValues == Results(subs, args);
      }
    }

    /** A subordinate is rejected: the first one rejects the master. */
    method SubRejected(i: nat, data: Value)
      requires Valid() && i < |subs| && subs[i].Waiting?
      modifies this
      ensures Valid() && subs == old(subs)[i := Failed(data)]
      ensures master == if old(master).Pending? then Rejected(data) else old(master)
      ensures remaining == old(remaining) && resolveValues == old(resolveValues) && notified == old(notified)
    {
      OpenCountSet(subs, i, Failed(data));
      NoneOpen(subs);
      FailedSet(subs, i, Failed(data));
      subs := subs[i := Failed(data)];
      Reject(data);
      assert Results(subs, args) == Results(old(subs), args);
    }

    /** updateFunc(i) of the progress values counts nothing down; it notifies the master, whose
        progress list is locked once it is settled. */
    method SubNotified(i: nat, value: Value)
      requires Valid() && i < |subs| && subs[i].Waiting?
      modifies this`progressValues, this`notified
      ensures Valid() && progressValues == old(progressValues)[i := value]
      ensures notified == old(notified) + if master.Pending? then [progressValues] else []
    {
      progressValues := progressValues[i := value];
      if master.Pending? {
        notified := notified + [progressValues];
      }
    }

    /** A subordinate calls back, which a settled one does no more. */
    method Hear(event: Event)
      requires Valid()
      modifies this
      ensures Valid() && subs == AfterEvent(old(subs), event)
      ensures master == Settled(old(master), if Rejects(old(subs), event) then Rejected(event.data) else master)
      ensures !Rejects(old(subs), event) && old(master).Pending? ==> !master.Rejected?
    {
      if event.i < |subs| && subs[event.i].Waiting? {
        match event {
          case Resolve(i, value) => SubResolved(i, value);
          case Fail(i, data) => SubRejected(i, data);
          case Notify(i, value) => SubNotified(i, value);
        }
      }
    }
  }

  // ----- a subordinate -----

  /** How a Deferred stands to when, whose callbacks are its additions of these numbers. */
  function SubOf(lists: seq<Callbacks.List>, done: nat, fail: nat): Sub
    requires |lists| == 3
  {
    var d, f := lists[Deferred.DONE], lists[Deferred.FAIL];
    if done in d.history && d.memory.Some? then Done(d.memory.value)
    else if fail in f.history && f.memory.Some? then Failed(f.memory.value)
    else Waiting
  }

  /** Whatever is done to it, a subordinate that has called back does so neither again nor
      otherwise, and its value stays. */
  lemma SubSettlesOnce(was: seq<Callbacks.List>, before: seq<Callbacks.Outcome>, lists: seq<Callbacks.List>,
                       settled: seq<Callbacks.Outcome>, done: nat, fail: nat)
    requires Deferred.Inv(was, before, -1, true) && Deferred.Inv(lists, settled, -1, true)
    requires Deferred.Kept(was, lists)
    ensures |was| == |lists| == 3
    ensures SubOf(was, done, fail).Waiting? || SubOf(lists, done, fail) == SubOf(was, done, fail)
  {
    Deferred.CalledOnce(lists, settled, -1, Deferred.DONE, done);
    Deferred.CalledOnce(lists, settled, -1, Deferred.FAIL, fail);
  }

  /** Outside all callbacks a settled subordinate has called back, unless one of its callbacks
      that were added before when's threw. */
  lemma SubAtRest(script: seq<Deferred.Reaction>, t: Deferred.State, done: nat, fail: nat)
    requires Deferred.Reached(script, t)
    ensures |t.lists| == 3
    ensures SubOf(t.lists, done, fail).Done? <==>
              && t.settled == [Callbacks.Resolved] && done < t.lists[Deferred.DONE].next
              && !Deferred.ThrewBefore(t.calls, Deferred.DONE, done)
    ensures SubOf(t.lists, done, fail).Failed? <==>
              && t.settled == [Callbacks.Rejected] && fail < t.lists[Deferred.FAIL].next
              && !Deferred.ThrewBefore(t.calls, Deferred.FAIL, fail)
  {
    Deferred.AtRest(script, t, Deferred.DONE);
    Deferred.AtRest(script, t, Deferred.FAIL);
  }

  // ----- a whole wait -----

  /** What subordinate i does. */
  datatype Event = Resolve(i: nat, value: Value) | Fail(i: nat, data: Value) | Notify(i: nat, value: Value)

  function AfterEvent(subs: seq<Sub>, event: Event): (after: seq<Sub>)
    ensures |after| == |subs|
  {
    if event.i < |subs| && subs[event.i].Waiting? then
      match event
      case Resolve(i, value) => subs[i := Done(value)]
      case Fail(i, data) => subs[i := Failed(data)]
      case Notify(_, _) => subs
    else subs
  }

  function AfterAll(subs: seq<Sub>, events: seq<Event>): (after: seq<Sub>)
    ensures |after| == |subs|
  {
    if |events| == 0 then subs else AfterEvent(AfterAll(subs, events[..|events| - 1]), events[|events| - 1])
  }

  predicate Rejects(subs: seq<Sub>, event: Event) {
    event.Fail? && event.i < |subs| && subs[event.i].Waiting?
  }

  /** The first rejection, of those there were at the call or else in time. */
  function FirstRejection(subs: seq<Sub>, events: seq<Event>): Option<Value> {
    if |events| == 0 then FirstFailed(subs)
    else
      var front, last := events[..|events| - 1], events[|events| - 1];
      var before := FirstRejection(subs, front);
      if before.None? && Rejects(AfterAll(subs, front), last) then Some(last.data) else before
  }

  /** jQuery.when from the call to the end of any sequence of what its subordinates call back,
      each of them at most once, as SubSettlesOnce has it. The master is resolved if and only
      if all of them have called back resolved, with their values in the order of the
      arguments, and rejected if and only if one has called back rejected, with what the first
      one said. */
  method Await(args: seq<Value>, subs: seq<Sub>, blank: Value, events: seq<Event>) returns (waiter: Waiter)
    requires |subs| == |args|
    ensures fresh(waiter) && waiter.Valid() && waiter.args == args && waiter.subs == AfterAll(subs, events)
    ensures waiter.master.Resolved? <==> forall i :: 0 <= i < |subs| ==> !IsOpen(waiter.subs[i])
    ensures waiter.master.Resolved? ==>
              forall i :: 0 <= i < |subs| ==> waiter.master.values[i] == ResultOf(waiter.subs[i], args[i])
    ensures waiter.master.Rejected? <==> FirstRejection(subs, events).Some?
    ensures waiter.master.Rejected? ==> waiter.master.data == FirstRejection(subs, events).value
  {
    waiter := new Waiter(args, subs, blank);
    FirstFailedIsOne(subs);
    ResolvedWithAll(waiter.master, waiter.subs, args);
    hide FirstFailed, MasterRight, IsOpen, AnyFailed;
    for k := 0 to |events|
      invariant waiter.Valid() && waiter.args == args && waiter.subs == AfterAll(subs, events[..k])
      invariant FirstRejection(subs, events[..k])
             == if waiter.master.Rejected? then Some(waiter.master.data) else None
    {
      ResolvedWithAll(waiter.master, waiter.subs, args);
      EventsNext(events, k);
      waiter.Hear(events[k]);
    }
    assert events[..|events|] == events;
    ResolvedWithAll(waiter.master, waiter.subs, args);
  }

  lemma EventsNext(events: seq<Event>, k: nat)
    requires k < |events|
    ensures events[..k + 1][..k] == events[..k] && events[..k + 1][k] == events[k]
  {}

  /** The first of the conclusions stays. */
  function Settled(master: Master, next: Master): Master {
    if master.Pending? then next else master
  }

  lemma FailedSet(subs: seq<Sub>, i: nat, sub: Sub)
    requires i < |subs| && subs[i].Waiting?
    ensures AnyFailed(subs[i := sub]) <==> AnyFailed(subs) || sub.Failed?
    ensures forall x: Sub :: x.Failed? && x in subs ==> x in subs[i := sub]
  {
    if AnyFailed(subs) {
      var k :| 0 <= k < |subs| && subs[k].Failed?;
      assert subs[i := sub][k].Failed?;
    }
    if sub.Failed? {
      assert subs[i := sub][i].Failed?;
    }
    forall x: Sub | x.Failed? && x in subs
      ensures x in subs[i := sub]
    {
      var k :| 0 <= k < |subs| && subs[k] == x;
      assert subs[i := sub][k] == x;
    }
  }

  lemma OneSub(subs: seq<Sub>, args: seq<Value>)
    requires |subs| == |args| == 1
    ensures OpenCount(subs) == if IsOpen(subs[0]) then 1 else 0
    ensures AnyFailed(subs) <==> subs[0].Failed?
    ensures Results(subs, args) == [ResultOf(subs[0], args[0])]
    ensures FirstFailed(subs) == if subs[0].Failed? then Some(subs[0].data) else None
  {
    assert subs[..0] == [];
  }

  /** Where things stand when the loop has come to argument i. */
  ghost predicate Standing(subs: seq<Sub>, args: seq<Value>, i: nat, remaining: int, values: seq<Value>, master: Master)
    requires |subs| == |args| && i <= |args|
  {
    && remaining == |args| - i + OpenCount(subs[..i])
    && values == Results(subs[..i], args[..i]) + args[i..]
    && master == match FirstFailed(subs[..i])
                 case Some(data) => Rejected(data)
                 case None => if remaining == 0 && i > 0 && subs[i - 1].Done? then Resolved(values) else Pending
  }

  lemma StandingFirst(subs: seq<Sub>, args: seq<Value>)
    requires |subs| == |args|
    ensures Standing(subs, args, 0, |args|, args, Pending)
  {
    assert subs[..0] == [] && args[..0] == [] && Results([], []) == [];
    assert args[0..] == args;
  }

  lemma StandingNext(subs: seq<Sub>, args: seq<Value>, i: nat, remaining: int, values: seq<Value>, master: Master)
    requires |subs| == |args| && i < |args| && Standing(subs, args, i, remaining, values, master)
    ensures remaining > 0 && |values| == |args|
    ensures match subs[i]
            case Plain => Standing(subs, args, i + 1, remaining - 1, values, master)
            case Waiting => Standing(subs, args, i + 1, remaining, values, master)
            case Failed(data) => Standing(subs, args, i + 1, remaining, values, Settled(master, Rejected(data)))
            case Done(value) =>
              var after := values[i := value];
              Standing(subs, args, i + 1, remaining - 1, after,
                       if remaining == 1 then Settled(master, Resolved(after)) else master)
  {
    var sub := subs[i];
    assert subs[..i + 1][..i] == subs[..i] && subs[..i + 1][i] == sub;
    FirstFailedIsOne(subs[..i]);
    NoneOpen(subs[..i]);
    ResultsNext(subs, args, i);
    assert OpenCount(subs[..i + 1]) == OpenCount(subs[..i]) + if IsOpen(sub) then 1 else 0;
    assert FirstFailed(subs[..i]).Some? ==> OpenCount(subs[..i]) > 0 by {
      if FirstFailed(subs[..i]).Some? {
        var k :| 0 <= k < i && subs[..i][k].Failed?;
        assert IsOpen(subs[..i][k]);
      }
    }
    hide Results, OpenCount, AnyFailed;
  }

  /** The values with argument i taken in. */
  lemma ResultsNext(subs: seq<Sub>, args: seq<Value>, i: nat)
    requires |subs| == |args| && i < |args|
    ensures var values := Results(subs[..i], args[..i]) + args[i..];
            Results(subs[..i + 1], args[..i + 1]) + args[i + 1..] == values[i := ResultOf(subs[i], args[i])]
    ensures (Results(subs[..i], args[..i]) + args[i..])[i] == args[i]
  {}

  lemma LonePlain(subs: seq<Sub>, args: seq<Value>)
    requires |subs| == |args| == 1 && subs[0].Plain?
    ensures OpenCount(subs) == 0 && Results(subs, args) == args && FirstFailed(subs).None?
    ensures MasterRight(Settled(Pending, Resolved(args)), subs, args)
  {
    OneSub(subs, args);
  }

  lemma StandingLast(subs: seq<Sub>, args: seq<Value>, remaining: int, values: seq<Value>, master: Master)
    requires |subs| == |args| && Standing(subs, args, |args|, remaining, values, master)
    ensures remaining == OpenCount(subs) && values == Results(subs, args)
    ensures var last := if remaining == 0 then Settled(master, Resolved(values)) else master;
            && MasterRight(last, subs, args)
            && (FirstFailed(subs).Some? ==> last == Rejected(FirstFailed(subs).value))
  {
    assert subs[..|subs|] == subs && args[..|args|] == args;
    FirstFailedIsOne(subs);
    NoneOpen(subs);
    assert values == Results(subs, args);
    if AnyFailed(subs) {
      var k :| 0 <= k < |subs| && subs[k].Failed?;
      assert IsOpen(subs[k]);
    }
    hide Results, OpenCount;
  }
}
