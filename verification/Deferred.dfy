/** Pages of callback lists, and jQuery.Deferred as a page of three. What a callback does when
    it is called comes from a script of arbitrary operations on any of the lists, guarded or not
    against what they throw, and it may throw itself, so that every re-entrant use is the use of
    some script. */
module Deferred {
  import opened Options
  import opened Callbacks

  datatype Op =
    | Add(list: nat, fns: seq<nat>)
    | Remove(list: nat, fns: seq<nat>)
    | FireWith(list: nat, data: Data)
    | Empty(list: nat)
    | DisableAll(list: nat)
    | LockUp(list: nat)

  /** An operation, and whether what it throws is caught. */
  datatype Act = Act(op: Op, guarded: bool)

  datatype Ending = Returns | ReturnsFalse | Throws

  /** One call of a page's function: what it does, and how it ends. */
  datatype Reaction = Reaction(acts: seq<Act>, ending: Ending)

  function OpsOf(acts: seq<Act>): (ops: seq<Op>)
    ensures |ops| == |acts| && forall i :: 0 <= i < |acts| ==> ops[i] == acts[i].op
  {
    seq(|acts|, i requires 0 <= i < |acts| => acts[i].op)
  }

  const DONE: nat := 0
  const FAIL: nat := 1
  const PROGRESS: nat := 2

  function Users(fns: seq<nat>): (actions: seq<Action>)
    ensures |actions| == |fns| && forall i :: 0 <= i < |fns| ==> actions[i] == User(fns[i])
  {
    seq(|fns|, i requires 0 <= i < |fns| => User(fns[i]))
  }

  /** In a Deferred only adding and firing are open to callers. */
  predicate Allowed(op: Op, lists: nat, deferred: bool) {
    op.list < lists && (deferred ==> op.Add? || op.FireWith?)
  }

  predicate AllAllowed(ops: seq<Op>, lists: nat, deferred: bool) {
    forall i :: 0 <= i < |ops| ==> Allowed(ops[i], lists, deferred)
  }

  predicate ScriptAllowed(script: seq<Reaction>, lists: nat, deferred: bool) {
    forall i :: 0 <= i < |script| ==> AllAllowed(OpsOf(script[i].acts), lists, deferred)
  }

  // ----- the two lists of a Deferred that fire once -----

  function OutcomeOf(me: nat): Outcome {
    if me == DONE then Resolved else Rejected
  }

  function OtherOf(me: nat): nat {
    if me == DONE then FAIL else DONE
  }

  /** The first three callbacks of either list are the Deferred's own. */
  predicate Placed(entry: Entry, me: nat) {
    match entry.token
    case 0 => entry.action == Settle(OutcomeOf(me))
    case 1 => entry.action == Disable(OtherOf(me))
    case 2 => entry.action == Lock(PROGRESS)
    case _ => entry.action.User?
  }

  ghost predicate Counted(history: seq<nat>) {
    forall j :: 0 <= j < |history| ==> history[j] == j
  }

  ghost predicate Consecutive(e: seq<Entry>, next: nat, me: nat)
    requires me <= 1
  {
    && |e| <= next
    && forall j :: 0 <= j < |e| ==> e[j].token == next - |e| + j && Placed(e[j], me)
  }

  const ONCE_MEMORY := Flags(true, true, false, false)

  /** A list of a Deferred: what it has run are its additions from the first on; nothing
      before it fires, all that came before its index while it fires, and all afterwards. */
  ghost predicate OnceList(l: List, me: nat, step: nat)
    requires me <= 1
  {
    && l.flags == ONCE_MEMORY && l.stack.None? && l.firingStart == 0 && l.next >= 3
    && Counted(l.history)
    && match l.entries
       case None => l.history == [] && !l.firing && !l.fired && l.threw.None?
       case Some(e) =>
         && Consecutive(e, l.next, me)
         && (l.fired <==> l.memory.Some?)
         && (!l.fired ==> !l.firing && |e| == l.next && l.history == [])
         && (l.fired ==> |l.history| == if l.firing then l.next - |e| + l.firingIndex + step else l.next)
         && (l.fired && !l.firing ==> e == [])
         && (l.firing ==> l.firingIndex + step <= |e|)
         && (l.threw.Some? ==> step == 1 && l.firing && |l.history| == l.threw.value + 1)
  }

  function StepOf(k: nat, at: int): nat {
    if k == at then 0 else 1
  }

  /** When a list has run its own three callbacks, the other one is disabled. */
  ghost predicate Crossed(mine: List, other: List, me: nat, at: int) {
    && !(mine.fired && other.fired)
    && (|mine.history| >= 2 <==> other.entries.None?)
    && (mine.fired && |mine.history| < 3 ==> at == me)
  }

  function Expected(done: List, fail: List): seq<Outcome> {
    if done.history != [] then [Resolved] else if fail.history != [] then [Rejected] else []
  }

  ghost predicate UsersOnly(l: List) {
    l.entries.Some? ==> forall i :: 0 <= i < |l.entries.value| ==> l.entries.value[i].action.User?
  }

  /** Nothing more can be fired on the list. */
  predicate Shut(l: List) {
    l.entries.None? || (l.fired && l.stack.None?)
  }

  /** What holds of a Deferred while the loop of list at is between two turns, or none is. */
  ghost predicate IsDeferred(lists: seq<List>, settled: seq<Outcome>, at: int) {
    && |lists| == 3
    && OnceList(lists[DONE], DONE, StepOf(DONE, at)) && OnceList(lists[FAIL], FAIL, StepOf(FAIL, at))
    && Crossed(lists[DONE], lists[FAIL], DONE, at) && Crossed(lists[FAIL], lists[DONE], FAIL, at)
    && UsersOnly(lists[PROGRESS])
    && (|lists[DONE].history| >= 3 || |lists[FAIL].history| >= 3 ==> Shut(lists[PROGRESS]))
    && settled == Expected(lists[DONE], lists[FAIL])
  }

  ghost predicate AllFine(lists: seq<List>, at: int) {
    forall k :: 0 <= k < |lists| ==> Fine(lists[k], StepOf(k, at))
  }

  ghost predicate Inv(lists: seq<List>, settled: seq<Outcome>, at: int, deferred: bool) {
    AllFine(lists, at) && (deferred ==> IsDeferred(lists, settled, at))
  }

  lemma AllFineSet(lists: seq<List>, at: int, k: nat, l: List, now: int)
    requires AllFine(lists, at) && k < |lists| && Fine(l, StepOf(k, now))
    requires (at == -1 || at == k) && (now == -1 || now == k)
    ensures AllFine(lists[k := l], now)
  {
    hide Fine;
  }

  // ----- adding -----

  lemma {:induction false} PushUsers(l: List, fns: seq<nat>, me: nat)
    requires me <= 1 && l.entries.Some? && !l.flags.unique && l.next >= 3 && Consecutive(l.entries.value, l.next, me)
    ensures var m := PushAll(l, Users(fns));
            && m == l.(entries := m.entries, next := m.next, due := m.due, skipped := m.skipped)
            && m.next == l.next + |fns| && |m.entries.value| == |l.entries.value| + |fns|
            && Consecutive(m.entries.value, m.next, me)
  {
    if |fns| > 0 {
      var front := fns[..|fns| - 1];
      PushUsers(l, front, me);
      assert Users(fns)[..|fns| - 1] == Users(front);
      var before := PushAll(l, Users(front));
      assert PushAll(l, Users(fns)) == Push(before, User(fns[|fns| - 1]));
    }
  }

  lemma OnceAdd(l: List, fns: seq<nat>, me: nat)
    requires me <= 1 && OnceList(l, me, 1) && l.entries.Some? && (l.firing || l.memory.None?)
    ensures var m := Relength(PushAll(l, Users(fns)));
            OnceList(m, me, 1) && m.history == l.history && m.fired == l.fired && m.entries.Some?
  {
    PushUsers(l, fns, me);
    hide Consecutive, Counted;
  }

  lemma OnceAddFire(l: List, fns: seq<nat>, me: nat)
    requires me <= 1 && OnceList(l, me, 1) && l.entries.Some? && !l.firing && l.memory.Some?
    ensures var m := Begin(PushAll(l, Users(fns)).(firingStart := |l.entries.value|), l.memory.value);
            OnceList(m, me, 0) && m.history == l.history && m.fired && m.entries.Some?
  {
    PushUsers(l, fns, me);
    hide Consecutive, Counted;
  }

  lemma OnceBegin(l: List, data: Data, me: nat)
    requires me <= 1 && OnceList(l, me, 1) && l.entries.Some? && !l.fired
    ensures var m := Begin(l, data);
            OnceList(m, me, 0) && m.history == l.history && m.fired && m.entries.Some?
  {
    hide Consecutive, Counted;
  }

  lemma OnceRun(l: List, me: nat)
    requires me <= 1 && OnceList(l, me, 0) && l.firing && More(l)
    requires l.firingLength == |l.entries.value| && l.firingIndex >= 0
    ensures OnceList(RunNow(l), me, 1)
    ensures l.entries.value[l.firingIndex].token == |l.history| && Placed(l.entries.value[l.firingIndex], me)
  {}

  lemma OnceAdvance(l: List, me: nat)
    requires me <= 1 && OnceList(l, me, 1) && l.firing && l.threw.None?
    ensures OnceList(Advance(l), me, 0)
  {}

  lemma OnceEnded(l: List, me: nat)
    requires me <= 1 && OnceList(l, me, 0) && l.firing && !More(l)
    requires l.entries.Some? ==> l.firingLength == |l.entries.value|
    ensures OnceList(Ended(l), me, 1) && Ended(l).history == l.history && Ended(l).fired == l.fired
    ensures Ended(l).entries.Some?
  {}

  // ----- transitions of a page -----

  /** add, up to the firing it may begin; the second result tells whether it did. */
  function Added(l: List, fns: seq<nat>): (List, bool) {
    if l.entries.None? then (l, false)
    else
      var m := PushAll(l, Users(fns));
      if l.firing then (Relength(m), false)
      else if l.memory.Some? then
        (Begin(Asked(m, l.memory.value).(firingStart := |l.entries.value|), l.memory.value), true)
      else (m, false)
  }

  function Asked(l: List, data: Data): List {
    l.(asked := l.asked + [data])
  }

  predicate CanFire(l: List) {
    l.entries.Some? && (!l.fired || l.stack.Some?)
  }

  /** fireWith, likewise. */
  function Fired(l: List, data: Data): (List, bool) {
    if CanFire(l) then
      if l.firing then (Asked(l, data).(stack := if l.stack.Some? then Some(l.stack.value + [data]) else None), false)
      else (Begin(Asked(l, data), data), true)
    else (l, false)
  }

  lemma AddedFine(l: List, fns: seq<nat>)
    requires Fine(l, 1)
    ensures Fine(Added(l, fns).0, if Added(l, fns).1 then 0 else 1)
  {
    if l.entries.Some? {
      var m := PushAll(l, Users(fns));
      PushAllFine(l, Users(fns));
      PushAllKeeps(l, Users(fns));
      if !l.firing && l.memory.Some? {
        BeginFine(Asked(m, l.memory.value).(firingStart := |l.entries.value|), l.memory.value);
      }
    }
  }

  lemma {:induction false} PushAllKeeps(l: List, actions: seq<Action>)
    requires l.entries.Some?
    ensures var m := PushAll(l, actions);
            m == l.(entries := m.entries, next := m.next, due := m.due, skipped := m.skipped)
  {
    if |actions| > 0 {
      PushAllKeeps(l, actions[..|actions| - 1]);
    }
  }

  lemma FiredFine(l: List, data: Data)
    requires Fine(l, 1)
    ensures Fine(Fired(l, data).0, if Fired(l, data).1 then 0 else 1)
  {
    if l.entries.Some? && !l.firing {
      BeginFine(Asked(l, data), data);
    }
  }

  lemma OnceAdded(l: List, fns: seq<nat>, me: nat)
    requires me <= 1 && OnceList(l, me, 1)
    ensures var (m, begun) := Added(l, fns);
            && OnceList(m, me, if begun then 0 else 1) && m.history == l.history && m.fired == l.fired
            && m.entries.Some? == l.entries.Some?
  {
    if l.entries.Some? {
      if l.firing || l.memory.None? {
        OnceAdd(l, fns, me);
        PushAllKeeps(l, Users(fns));
      } else {
        OnceAddFire(l, fns, me);
      }
    }
  }

  lemma OnceFired(l: List, data: Data, me: nat)
    requires me <= 1 && OnceList(l, me, 1)
    ensures var (m, begun) := Fired(l, data);
            && OnceList(m, me, if begun then 0 else 1) && m.history == l.history
            && m.entries.Some? == l.entries.Some?
            && (begun ==> !l.fired && l.entries.Some?) && m.fired == (l.fired || begun)
  {
    if l.entries.Some? && !l.fired {
      OnceBegin(l, data, me);
    }
  }

  lemma {:induction false} UsersPushed(l: List, actions: seq<Action>)
    requires l.entries.Some? && UsersOnly(l) && forall i :: 0 <= i < |actions| ==> actions[i].User?
    ensures UsersOnly(PushAll(l, actions))
  {
    if |actions| > 0 {
      UsersPushed(l, actions[..|actions| - 1]);
    }
  }

  lemma UsersAdded(l: List, fns: seq<nat>)
    requires UsersOnly(l)
    ensures UsersOnly(Added(l, fns).0) && (Shut(l) ==> Shut(Added(l, fns).0))
  {
    if l.entries.Some? {
      UsersPushed(l, Users(fns));
      PushAllKeeps(l, Users(fns));
    }
  }

  /** A list that adds: nothing the other one depends on changes, and if it begins to fire it
      has run its own three before. */
  lemma DeferredAdded(lists: seq<List>, settled: seq<Outcome>, k: nat, fns: seq<nat>)
    requires IsDeferred(lists, settled, -1) && k < 3
    ensures var (m, begun) := Added(lists[k], fns);
            IsDeferred(lists[k := m], settled, if begun then k else -1)
  {
    if k <= 1 {
      OnceAdded(lists[k], fns, k);
    } else {
      UsersAdded(lists[k], fns);
    }
    hide OnceList, Added, UsersOnly, Shut;
  }

  lemma DeferredFired(lists: seq<List>, settled: seq<Outcome>, k: nat, data: Data)
    requires IsDeferred(lists, settled, -1) && k < 3
    ensures var (m, begun) := Fired(lists[k], data);
            IsDeferred(lists[k := m], settled, if begun then k else -1)
  {
    if k <= 1 {
      OnceFired(lists[k], data, k);
      FiredIsEnabled(lists[1 - k], 1 - k);
    }
    assert UsersOnly(Fired(lists[k], data).0) <==> UsersOnly(lists[k]);
    hide OnceList, Fired, UsersOnly;
  }

  lemma FiredIsEnabled(l: List, me: nat)
    requires me <= 1 && OnceList(l, me, 1)
    ensures l.fired ==> l.entries.Some?
  {}

  /** What one of a Deferred's own callbacks does. */
  function Effect(lists: seq<List>, settled: seq<Outcome>, action: Action): (r: (seq<List>, seq<Outcome>))
    ensures |r.0| == |lists|
  {
    match action
    case Settle(outcome) => (lists, settled + [outcome])
    case Disable(k) => (if k < |lists| then lists[k := Disabled(lists[k])] else lists, settled)
    case Lock(k) => (if k < |lists| then lists[k := Locked(lists[k])] else lists, settled)
    case User(_) => (lists, settled)
  }

  /** A whole turn of the loop of list k that calls one of these. */
  function OwnCall(lists: seq<List>, settled: seq<Outcome>, k: nat): (r: (seq<List>, seq<Outcome>))
    requires k < |lists| && lists[k].entries.Some? && 0 <= lists[k].firingIndex < |lists[k].entries.value|
    ensures |r.0| == |lists|
  {
    var l := lists[k];
    var (after, now) := Effect(lists[k := RunNow(l)], settled, l.entries.value[l.firingIndex].action);
    (after[k := Advance(after[k])], now)
  }

  lemma EffectFine(lists: seq<List>, settled: seq<Outcome>, action: Action)
    requires AllFine(lists, -1)
    ensures AllFine(Effect(lists, settled, action).0, -1)
  {
    forall k | 0 <= k < |lists|
      ensures Fine(Disabled(lists[k]), 1) && Fine(Locked(lists[k]), 1)
    {
      ClearedFine(lists[k]);
    }
    hide Fine, Disabled, Locked;
  }

  lemma OwnTurn(lists: seq<List>, settled: seq<Outcome>, k: nat)
    requires k < |lists| && AllFine(lists, k) && lists[k].firing && More(lists[k])
    requires IsDeferred(lists, settled, k) && !lists[k].entries.value[lists[k].firingIndex].action.User?
    ensures 0 <= lists[k].firingIndex < |lists[k].entries.value|
    ensures var (after, now) := OwnCall(lists, settled, k); IsDeferred(after, now, k)
  {
    var l := lists[k];
    assert Fine(l, 0);
    if k <= 1 {
      LockedShut(lists[PROGRESS]);
      hide Fine, AllFine, OwnCall, OnceList, Crossed, Shut, Locked, UsersOnly;
      OwnTurnOnce(lists, settled, k);
    }
  }

  lemma OwnTurnOnce(lists: seq<List>, settled: seq<Outcome>, k: nat)
    requires k <= 1 && |lists| == 3 && lists[k].firing && More(lists[k])
    requires lists[k].firingIndex >= 0 && lists[k].firingLength == |lists[k].entries.value|
    requires IsDeferred(lists, settled, k) && !lists[k].entries.value[lists[k].firingIndex].action.User?
    requires Shut(Locked(lists[PROGRESS])) && UsersOnly(Locked(lists[PROGRESS]))
    ensures var (after, now) := OwnCall(lists, settled, k); IsDeferred(after, now, k)
  {
    var l := lists[k];
    OnceRun(l, k);
    TurnKeeps(l);
    OnceAdvance(RunNow(l), k);
    OnceDisabled(lists[OtherOf(k)], OtherOf(k));
    assert Placed(l.entries.value[l.firingIndex], k);
    hide OnceList, UsersOnly, Shut, Locked, Disabled, RunNow, Advance;
  }

  lemma TurnKeeps(l: List)
    requires l.entries.Some? && 0 <= l.firingIndex < |l.entries.value|
    ensures var m := Advance(RunNow(l));
            && m.history == l.history + [l.entries.value[l.firingIndex].token] && m.fired == l.fired
            && m.entries == l.entries
  {}

  /** A list that is locked cannot be fired any more; one that never was, not even added to. */
  lemma LockedShut(l: List)
    requires Fine(l, 1)
    ensures Shut(Locked(l)) && (UsersOnly(l) ==> UsersOnly(Locked(l)))
    ensures !l.fired ==> Locked(l).entries.None?
  {
    hide PartedAt, Ordered, Waiting;
  }

  lemma OnceDisabled(l: List, me: nat)
    requires me <= 1 && OnceList(l, me, 1)
    ensures !l.fired ==> OnceList(Disabled(l), me, 1) && l.history == []
    ensures Disabled(l).entries.None? && Disabled(l).history == l.history && Disabled(l).fired == l.fired
  {}

  lemma UserTurn(lists: seq<List>, settled: seq<Outcome>, k: nat)
    requires k < |lists| && AllFine(lists, k) && lists[k].firing && More(lists[k])
    requires IsDeferred(lists, settled, k) && lists[k].entries.value[lists[k].firingIndex].action.User?
    ensures IsDeferred(lists[k := RunNow(lists[k])], settled, -1)
  {
    hide PartedAt, Ordered;
    var l := lists[k];
    if k <= 1 {
      OnceRun(l, k);
    }
  }

  lemma NextTurn(lists: seq<List>, settled: seq<Outcome>, k: nat)
    requires k < |lists| && IsDeferred(lists, settled, -1) && lists[k].firing && lists[k].threw.None?
    ensures IsDeferred(lists[k := Advance(lists[k])], settled, k)
  {
    if k <= 1 {
      OnceAdvance(lists[k], k);
    }
    hide OnceList;
  }

  lemma LastTurn(lists: seq<List>, settled: seq<Outcome>, k: nat)
    requires k < |lists| && AllFine(lists, k) && IsDeferred(lists, settled, k) && lists[k].firing && !More(lists[k])
    ensures IsDeferred(lists[k := Ended(lists[k])], settled, -1)
  {
    hide PartedAt, Ordered;
    if k <= 1 {
      OnceEnded(lists[k], k);
    }
  }

  lemma AddInv(lists: seq<List>, settled: seq<Outcome>, k: nat, fns: seq<nat>, deferred: bool)
    requires Inv(lists, settled, -1, deferred) && k < |lists|
    ensures var (m, begun) := Added(lists[k], fns);
            Inv(lists[k := m], settled, if begun then k else -1, deferred)
  {
    AddedFine(lists[k], fns);
    if deferred {
      DeferredAdded(lists, settled, k, fns);
    }
    hide IsDeferred, Fine, Added, AllFine;
    var (m, begun) := Added(lists[k], fns);
    AllFineSet(lists, -1, k, m, if begun then k else -1);
  }

  lemma FireInv(lists: seq<List>, settled: seq<Outcome>, k: nat, data: Data, deferred: bool)
    requires Inv(lists, settled, -1, deferred) && k < |lists|
    ensures (lists[k].firing ==> lists[k].fired) && (lists[k].flags.once ==> lists[k].stack.None?)
    ensures var (m, begun) := Fired(lists[k], data);
            Inv(lists[k := m], settled, if begun then k else -1, deferred)
  {
    FiredFine(lists[k], data);
    if deferred {
      DeferredFired(lists, settled, k, data);
    }
    hide IsDeferred, Fine, Fired, AllFine;
    var (m, begun) := Fired(lists[k], data);
    AllFineSet(lists, -1, k, m, if begun then k else -1);
  }

  /** Any fine list may take the place of another while no Deferred watches. */
  lemma SetInv(lists: seq<List>, settled: seq<Outcome>, k: nat, l: List)
    requires Inv(lists, settled, -1, false) && k < |lists| && Fine(l, 1)
    ensures Inv(lists[k := l], settled, -1, false)
  {
    hide Fine;
  }

  lemma OwnInv(lists: seq<List>, settled: seq<Outcome>, k: nat, deferred: bool)
    requires k < |lists| && Inv(lists, settled, k, deferred) && lists[k].firing && More(lists[k])
    ensures 0 <= lists[k].firingIndex < |lists[k].entries.value|
    ensures var (after, now) := OwnCall(lists, settled, k);
            !lists[k].entries.value[lists[k].firingIndex].action.User? ==> Inv(after, now, k, deferred)
  {
    var l := lists[k];
    assert Fine(l, 0);
    var action := l.entries.value[l.firingIndex].action;
    if !action.User? {
      if deferred {
        OwnTurn(lists, settled, k);
      }
      RunNowFine(l);
      AllFineSet(lists, k, k, RunNow(l), -1);
      EffectFine(lists[k := RunNow(l)], settled, action);
      var after := Effect(lists[k := RunNow(l)], settled, action).0;
      assert Fine(after[k], 1);
      AdvanceFine(after[k]);
      AllFineSet(after, -1, k, Advance(after[k]), k);
    }
    hide IsDeferred, Fine, AllFine, Effect;
  }

  lemma UserInv(lists: seq<List>, settled: seq<Outcome>, k: nat, deferred: bool)
    requires k < |lists| && Inv(lists, settled, k, deferred) && lists[k].firing && More(lists[k])
    ensures 0 <= lists[k].firingIndex < |lists[k].entries.value|
    ensures lists[k].entries.value[lists[k].firingIndex].action.User? ==>
              Inv(lists[k := RunNow(lists[k])], settled, -1, deferred)
  {
    var l := lists[k];
    assert Fine(l, 0);
    if l.entries.value[l.firingIndex].action.User? {
      if deferred {
        UserTurn(lists, settled, k);
      }
      RunNowFine(l);
      AllFineSet(lists, k, k, RunNow(l), -1);
    }
    hide IsDeferred, Fine, AllFine;
  }

  lemma NextInv(lists: seq<List>, settled: seq<Outcome>, k: nat, deferred: bool)
    requires k < |lists| && Inv(lists, settled, -1, deferred) && lists[k].firing && lists[k].threw.None?
    ensures Inv(lists[k := Advance(lists[k])], settled, k, deferred)
  {
    if deferred {
      NextTurn(lists, settled, k);
    }
    AdvanceFine(lists[k]);
    AllFineSet(lists, -1, k, Advance(lists[k]), k);
    hide IsDeferred, Fine, AllFine;
  }

  /** A callback of list k throws: its token is the last one run. */
  lemma ThrownInv(lists: seq<List>, settled: seq<Outcome>, k: nat, token: nat, deferred: bool)
    requires k < |lists| && Inv(lists, settled, -1, deferred) && lists[k].firing
    requires |lists[k].history| > 0 && token == lists[k].history[|lists[k].history| - 1]
    ensures Inv(lists[k := Thrown(lists[k], token)], settled, -1, deferred)
  {
    if deferred {
      DeferredThrown(lists, settled, k, token);
    }
    ThrownFine(lists[k], token);
    AllFineSet(lists, -1, k, Thrown(lists[k], token), -1);
    hide AllFine, IsDeferred, Fine, Thrown;
  }

  lemma ThrownFine(l: List, token: nat)
    ensures Fine(Thrown(l, token), 1) <==> Fine(l, 1)
  {
    hide Ordered, PartedAt;
  }

  lemma DeferredThrown(lists: seq<List>, settled: seq<Outcome>, k: nat, token: nat)
    requires IsDeferred(lists, settled, -1) && k < |lists| && lists[k].firing
    requires |lists[k].history| > 0 && token == lists[k].history[|lists[k].history| - 1]
    ensures IsDeferred(lists[k := Thrown(lists[k], token)], settled, -1)
  {
    if k <= 1 {
      OnceThrown(lists[k], k, token);
    }
    assert UsersOnly(Thrown(lists[k], token)) <==> UsersOnly(lists[k]);
    hide OnceList, UsersOnly;
  }

  lemma OnceThrown(l: List, me: nat, token: nat)
    requires me <= 1 && OnceList(l, me, 1) && l.firing
    requires |l.history| > 0 && token == l.history[|l.history| - 1]
    ensures OnceList(Thrown(l, token), me, 1)
  {}

  lemma LastInv(lists: seq<List>, settled: seq<Outcome>, k: nat, deferred: bool)
    requires k < |lists| && Inv(lists, settled, k, deferred) && lists[k].firing && !More(lists[k])
    ensures Between(lists[k := Ended(lists[k])], settled, k, deferred) && Complete(lists[k])
  {
    if deferred {
      LastTurn(lists, settled, k);
    }
    CompleteAtEnd(lists[k]);
    EndedFine(lists[k], 0);
    AllFineSet(lists, k, k, Ended(lists[k]), k);
    hide IsDeferred, Fine, AllFine;
  }

  /** A callback that returned false cuts a firing short, of lists made to stop then. */
  lemma CutInv(lists: seq<List>, settled: seq<Outcome>, k: nat, deferred: bool)
    requires k < |lists| && Inv(lists, settled, -1, deferred) && lists[k].firing && lists[k].flags.stopOnFalse
    ensures Between(lists[k := Ended(lists[k].(memory := None))], settled, k, deferred)
  {
    hide PartedAt, Ordered;
    var l := lists[k].(memory := None);
    assert Fine(lists[k], 1);
    EndedFine(l, 1);
    AllFineSet(lists, -1, k, Ended(l), k);
    hide Fine, AllFine;
  }

  /** List k is not firing, but firings of it that were asked for may still have to follow. */
  ghost predicate Between(lists: seq<List>, settled: seq<Outcome>, k: nat, deferred: bool) {
    k < |lists| && !lists[k].firing && AllFine(lists, k) && (deferred ==> IsDeferred(lists, settled, -1))
  }

  /** None have. */
  lemma NoneFollows(lists: seq<List>, settled: seq<Outcome>, k: nat, deferred: bool)
    requires Between(lists, settled, k, deferred)
    requires lists[k].entries.Some? && lists[k].stack.Some? ==> lists[k].stack.value == []
    ensures Inv(lists, settled, -1, deferred)
    ensures lists[k].stack.Some? ==> lists[k].asked == lists[k].fires
  {
    assert Fine(lists[k], 0);
    AllFineSet(lists, k, k, lists[k], -1);
    assert lists[k := lists[k]] == lists;
    hide IsDeferred, AllFine;
  }

  /** The next of the firings that were asked for during the last. */
  lemma ShiftInv(lists: seq<List>, settled: seq<Outcome>, k: nat, deferred: bool)
    requires Between(lists, settled, k, deferred)
    requires lists[k].entries.Some? && lists[k].stack.Some? && |lists[k].stack.value| > 0
    ensures !lists[k].flags.once
    ensures var l := lists[k];
            var m := Begin(l.(stack := Some(l.stack.value[1..])), l.stack.value[0]);
            Inv(lists[k := m], settled, k, deferred)
  {
    hide PartedAt, Ordered;
    var l := lists[k];
    assert Fine(l, 0);
    var m := l.(stack := Some(l.stack.value[1..]));
    assert l.stack.value == [l.stack.value[0]] + m.stack.value;
    BeginFine(m, l.stack.value[0]);
    AllFineSet(lists, k, k, Begin(m, l.stack.value[0]), k);
    hide Fine, AllFine;
  }

  // ----- the page -----

  /** A list only adds to what it has been given and has run; and one that fires once gives all
      its callbacks the same data. */
  ghost predicate Grown(was: List, l: List) {
    && l.flags == was.flags && (was.fired ==> l.fired) && was.next <= l.next && was.history <= l.history
    && (was.flags.once && was.fired ==> l.memory == was.memory || l.memory.None?)
    && was.fires <= l.fires && was.asked <= l.asked && (was.fired && was.stack.None? ==> l.stack.None?)
  }

  /** What a firing is to run, what was taken from it and what it has passed only grow. */
  ghost predicate Tracked(was: List, l: List) {
    was.due <= l.due && was.missed <= l.missed && was.skipped <= l.skipped
  }

  /** A list that fires goes on firing, and others than its own loop run nothing of it; a list
      that did not fire may have been left firing by a callback that threw. */
  ghost predicate Carried(was: List, l: List) {
    && Grown(was, l)
    && if was.firing then l.firing && l.history == was.history && l.threw == was.threw && Tracked(was, l)
       else l.firing ==> l.threw.Some?
  }

  ghost predicate Kept(was: seq<List>, lists: seq<List>) {
    |was| == |lists| && forall k :: 0 <= k < |lists| ==> Carried(was[k], lists[k])
  }

  lemma TrackedTransitive(a: List, b: List, c: List)
    requires Tracked(a, b) && Tracked(b, c)
    ensures Tracked(a, c)
  {}

  lemma TrackedSame(l: List)
    ensures Tracked(l, l)
  {}

  lemma CarriedTransitive(a: List, b: List, c: List)
    requires Carried(a, b) && Carried(b, c)
    ensures Carried(a, c)
  {}

  lemma KeptTransitive(a: seq<List>, b: seq<List>, c: seq<List>)
    requires Kept(a, b) && Kept(b, c)
    ensures Kept(a, c)
  {
    forall k | 0 <= k < |a|
      ensures Carried(a[k], c[k])
    {
      CarriedTransitive(a[k], b[k], c[k]);
    }
    hide Carried;
  }

  lemma KeptSet(was: seq<List>, lists: seq<List>, k: nat, l: List)
    requires Kept(was, lists) && k < |lists| && Carried(lists[k], l)
    ensures Kept(was, lists[k := l])
  {
    CarriedTransitive(was[k], lists[k], l);
    hide Carried;
  }

  /** The lists as if list k were not firing: what its own loop must keep. */
  function Off(lists: seq<List>, k: nat): (off: seq<List>)
    requires k < |lists|
    ensures |off| == |lists|
  {
    lists[k := lists[k].(firing := false)]
  }

  lemma KeptOff(was: seq<List>, lists: seq<List>, k: nat)
    requires Kept(was, lists) && k < |lists|
    ensures Kept(Off(was, k), Off(lists, k))
  {
    hide Grown;
    GrownOff(was[k], lists[k]);
  }

  lemma GrownOff(was: List, l: List)
    requires Grown(was, l)
    ensures Grown(was.(firing := false), l.(firing := false))
  {}

  /** One step of the loop of list k. */
  lemma KeptStep(was: seq<List>, lists: seq<List>, k: nat, l: List)
    requires k < |was| == |lists| && Kept(Off(was, k), Off(lists, k)) && Grown(lists[k], l)
    ensures Kept(Off(was, k), Off(lists[k := l], k))
  {
    GrownOff(lists[k], l);
    KeptSet(Off(was, k), Off(lists, k), k, l.(firing := false));
    assert Off(lists[k := l], k) == Off(lists, k)[k := l.(firing := false)];
    hide Kept, Grown;
  }

  /** What the others did during a step of the loop of list k. */
  lemma KeptMeanwhile(was: seq<List>, before: seq<List>, lists: seq<List>, k: nat)
    requires k < |was| == |before| && Kept(Off(was, k), Off(before, k)) && Kept(before, lists)
    ensures |lists| == |was| && Kept(Off(was, k), Off(lists, k))
  {
    KeptOff(before, lists, k);
    KeptTransitive(Off(was, k), Off(before, k), Off(lists, k));
  }

  /** The loop of list k is over, or was left by a callback that threw. */
  lemma KeptOver(was: seq<List>, lists: seq<List>, k: nat, l: List)
    requires k < |was| == |lists| && Kept(Off(was, k), Off(lists, k)) && Grown(lists[k], l)
    requires l.firing ==> l.threw.Some?
    ensures Kept(Off(was, k), lists[k := l])
  {
    assert Carried(Off(lists, k)[k], l);
    KeptSet(Off(was, k), Off(lists, k), k, l);
    assert Off(lists, k)[k := l] == lists[k := l];
    hide Kept, Grown;
  }

  /** How the loop of fire ends: at the end of the list, by a callback's false, by a throw. */
  datatype LoopEnd = Over | Cut | Left

  /** A callback that was called, what it did, and whether it ended by throwing. */
  datatype Called = Called(list: nat, token: nat, reaction: Reaction, thrown: bool)

  /** All that a run of a page changes. */
  datatype State = State(lists: seq<List>, settled: seq<Outcome>, script: seq<Reaction>, calls: seq<Called>)

  // ----- what callbacks have done -----

  /** What the callback that is called next but i does. */
  function ReactionAt(script: seq<Reaction>, i: nat): Reaction {
    if i < |script| then script[i] else Reaction([], Returns)
  }

  function After(script: seq<Reaction>, n: nat): seq<Reaction> {
    if n <= |script| then script[n..] else []
  }

  /** The callbacks do what the script says, in the order in which they are called. */
  predicate Plays(script: seq<Reaction>, calls: seq<Called>, left: seq<Reaction>) {
    left == After(script, |calls|) && forall i :: 0 <= i < |calls| ==> calls[i].reaction == ReactionAt(script, i)
  }

  predicate AnyThrows(calls: seq<Called>) {
    exists i :: 0 <= i < |calls| && calls[i].reaction.ending.Throws?
  }

  /** Whether a callback of list k has returned false. */
  predicate FalseBy(calls: seq<Called>, k: nat) {
    exists i :: 0 <= i < |calls| && calls[i].reaction.ending.ReturnsFalse? && calls[i].list == k
  }

  predicate AnyLeft(calls: seq<Called>) {
    exists i :: 0 <= i < |calls| && calls[i].thrown
  }

  /** Whether a callback of list k has thrown. */
  predicate LeftBy(calls: seq<Called>, k: nat) {
    exists i :: 0 <= i < |calls| && calls[i].thrown && calls[i].list == k
  }

  /** A callback throws if it comes to throw, or by an operation that is not guarded. */
  predicate Fair(call: Called) {
    && (call.reaction.ending.Throws? ==> call.thrown)
    && (call.thrown ==> call.reaction.ending.Throws? || AnyUnguarded(call.reaction.acts))
  }

  predicate AnyUnguarded(acts: seq<Act>) {
    exists i :: 0 <= i < |acts| && !acts[i].guarded
  }

  /** A list that a callback left by throwing. */
  predicate Stuck(l: List) {
    l.firing && l.threw.Some?
  }

  predicate StaysStuck(was: List, l: List) {
    (Stuck(l) <==> Stuck(was)) && (Stuck(l) ==> l.threw == was.threw)
  }

  function Fresh(s: State, t: State): seq<Called> {
    if |s.calls| <= |t.calls| then t.calls[|s.calls|..] else []
  }

  /** What the calls between two states tell of the lists: stuck are exactly those that were
      and those of which a callback threw, each by that callback; and none throws without one
      that came to throw. */
  ghost predicate ToldBy(s: State, t: State, calls: seq<Called>) {
    && Plays(s.script, calls, t.script) && |s.lists| == |t.lists|
    && (forall i :: 0 <= i < |calls| ==> calls[i].list < |t.lists| && Fair(calls[i]))
    && (forall i :: 0 <= i < |calls| && calls[i].thrown && calls[i].list < |t.lists| ==>
          t.lists[calls[i].list].threw == Some(calls[i].token))
    && (forall k :: 0 <= k < |s.lists| ==> (Stuck(t.lists[k]) <==> Stuck(s.lists[k]) || LeftBy(calls, k)))
    && (forall k :: 0 <= k < |s.lists| && Stuck(s.lists[k]) ==> t.lists[k].threw == s.lists[k].threw)
    && (AnyLeft(calls) ==> AnyThrows(calls))
  }

  ghost predicate Told(s: State, t: State) {
    s.calls <= t.calls && ToldBy(s, t, Fresh(s, t))
  }

  lemma PlaysMore(a: seq<Reaction>, u: seq<Called>, b: seq<Reaction>, v: seq<Called>, c: seq<Reaction>)
    requires Plays(a, u, b) && Plays(b, v, c)
    ensures Plays(a, u + v, c)
  {
    assert After(After(a, |u|), |v|) == After(a, |u| + |v|);
    assert forall i: nat :: ReactionAt(After(a, |u|), i) == ReactionAt(a, |u| + i);
  }

  lemma AnyMore(u: seq<Called>, v: seq<Called>)
    ensures AnyThrows(u + v) <==> AnyThrows(u) || AnyThrows(v)
    ensures AnyLeft(u + v) <==> AnyLeft(u) || AnyLeft(v)
    ensures forall k :: LeftBy(u + v, k) <==> LeftBy(u, k) || LeftBy(v, k)
    ensures forall k :: FalseBy(u + v, k) <==> FalseBy(u, k) || FalseBy(v, k)
  {
    var w := u + v;
    assert forall i :: 0 <= i < |u| ==> w[i] == u[i];
    assert forall i :: 0 <= i < |v| ==> w[|u| + i] == v[i];
    forall k: nat
      ensures LeftBy(w, k) <==> LeftBy(u, k) || LeftBy(v, k)
      ensures FalseBy(w, k) <==> FalseBy(u, k) || FalseBy(v, k)
    {
      assert forall i :: 0 <= i < |w| ==> w[i] == if i < |u| then u[i] else v[i - |u|];
    }
  }

  lemma ToldByMore(s: State, t: State, r: State, u: seq<Called>, v: seq<Called>)
    requires ToldBy(s, t, u) && ToldBy(t, r, v)
    ensures ToldBy(s, r, u + v)
  {
    PlaysMore(s.script, u, t.script, v, r.script);
    AnyMore(u, v);
    forall i | 0 <= i < |u| && u[i].thrown
      ensures r.lists[u[i].list].threw == Some(u[i].token)
    {
      assert LeftBy(u, u[i].list);
    }
    hide Plays, AnyThrows, AnyLeft, LeftBy, Fair, Stuck;
  }

  lemma ToldTransitive(s: State, t: State, r: State)
    requires Told(s, t) && Told(t, r)
    ensures Told(s, r)
    ensures forall k :: FalseBy(Fresh(s, r), k) <==> FalseBy(Fresh(s, t), k) || FalseBy(Fresh(t, r), k)
    ensures AnyLeft(Fresh(s, r)) <==> AnyLeft(Fresh(s, t)) || AnyLeft(Fresh(t, r))
  {
    hide ToldBy, FalseBy, AnyLeft, Fresh;
    FreshMore(s, t, r);
    AnyMore(Fresh(s, t), Fresh(t, r));
    ToldByMore(s, t, r, Fresh(s, t), Fresh(t, r));
  }

  lemma FreshMore(s: State, t: State, r: State)
    requires s.calls <= t.calls <= r.calls
    ensures Fresh(s, r) == Fresh(s, t) + Fresh(t, r)
  {}

  /** Nothing was called, and no list came to be stuck. */
  lemma ToldSame(s: State, t: State)
    requires t.script == s.script && t.calls == s.calls && |t.lists| == |s.lists|
    requires forall k :: 0 <= k < |s.lists| ==> StaysStuck(s.lists[k], t.lists[k])
    ensures Told(s, t) && Fresh(s, t) == []
  {}

  lemma ToldSet(s: State, k: nat, l: List)
    requires k < |s.lists| && StaysStuck(s.lists[k], l)
    ensures Told(s, With(s, k, l)) && Fresh(s, With(s, k, l)) == []
  {
    ToldSame(s, With(s, k, l));
  }

  lemma ToldNothing(s: State)
    ensures Told(s, s) && Fresh(s, s) == []
  {}

  /** A list that was not stuck before and is now has been left by a callback. */
  lemma StuckByCall(s: State, t: State, k: nat)
    requires Told(s, t) && k < |s.lists| == |t.lists| && !Stuck(s.lists[k]) && Stuck(t.lists[k])
    ensures AnyLeft(Fresh(s, t))
  {}

  /** The state in which a callback of list k has just been called. */
  function Entered(s: State, k: nat): (t: State)
    requires k < |s.lists| && AtEntry(s.lists[k])
    ensures |t.lists| == |s.lists| && |t.script| <= |s.script| && |t.calls| == |s.calls| + 1
    ensures s.script != [] ==> |t.script| < |s.script|
    ensures t.lists == s.lists[k := RunNow(s.lists[k])]
  {
    var l := s.lists[k];
    State(s.lists[k := RunNow(l)], s.settled, After(s.script, 1),
          s.calls + [Called(k, l.entries.value[l.firingIndex].token, ReactionAt(s.script, 0), false)])
  }

  /** The state after that callback has thrown. */
  function LeftAt(t: State, k: nat, at: nat): (r: State)
    requires k < |t.lists| && at < |t.calls|
    ensures |r.lists| == |t.lists| && r.script == t.script && |r.calls| == |t.calls|
  {
    t.(lists := t.lists[k := Thrown(t.lists[k], t.calls[at].token)],
       calls := t.calls[at := t.calls[at].(thrown := true)])
  }

  /** A callback: what its operations did, and how it ended. */
  lemma ToldCall(s: State, k: nat, t: State, thrown: bool)
    requires k < |s.lists| == |t.lists| && AtEntry(s.lists[k]) && Told(Entered(s, k), t)
    requires s.lists[k].threw.None? && t.lists[k].threw.None? && t.lists[k].firing
    requires thrown ==> AnyLeft(Fresh(Entered(s, k), t)) && AnyUnguarded(ReactionAt(s.script, 0).acts)
    ensures |s.calls| < |t.calls|
    ensures var throws := thrown || ReactionAt(s.script, 0).ending.Throws?;
            var r := if throws then LeftAt(t, k, |s.calls|) else t;
            && Told(s, r)
            && (ReactionAt(s.script, 0).ending.ReturnsFalse? ==> FalseBy(Fresh(s, r), k))
  {
    var e := Entered(s, k);
    var call, rest := e.calls[|s.calls|], Fresh(e, t);
    assert t.calls[|s.calls|] == call;
    var throws := thrown || call.reaction.ending.Throws?;
    var r := if throws then LeftAt(t, k, |s.calls|) else t;
    var one := [call.(thrown := throws)];
    assert Fresh(s, r) == one + rest;
    PlaysMore(s.script, one, e.script, rest, t.script);
    AnyMore(one, rest);
    CallTells(s, k, t, rest, r, one[0]);
    OneCall(one[0]);
    hide ToldBy, FalseBy, AnyLeft;
  }

  lemma CallTells(s: State, k: nat, t: State, rest: seq<Called>, r: State, call: Called)
    requires k < |s.lists| == |t.lists| && AtEntry(s.lists[k]) && ToldBy(Entered(s, k), t, rest)
    requires s.lists[k].threw.None? && t.lists[k].threw.None? && t.lists[k].firing
    requires call.list == k && Fair(call) && Plays(s.script, [call] + rest, t.script)
    requires call.thrown ==> call.reaction.ending.Throws? || AnyLeft(rest)
    requires r.script == t.script
    requires r.lists == if call.thrown then t.lists[k := Thrown(t.lists[k], call.token)] else t.lists
    ensures ToldBy(s, r, [call] + rest)
  {
    var one, all := [call], [call] + rest;
    AnyMore(one, rest);
    OneCall(call);
    NoneLeft(Entered(s, k), t, rest, k);
    hide Plays, AnyThrows, AnyLeft, LeftBy, Fair, Entered, RunNow;
    forall i | 0 <= i < |all|
      ensures all[i].list < |r.lists| && Fair(all[i])
      ensures all[i].thrown ==> r.lists[all[i].list].threw == Some(all[i].token)
    {
      if i > 0 {
        assert all[i] == rest[i - 1];
      }
    }
    assert StaysStuck(s.lists[k], Entered(s, k).lists[k]) by { CallGrows(s.lists[k]); }
  }

  lemma OneCall(call: Called)
    ensures AnyLeft([call]) <==> call.thrown
    ensures AnyThrows([call]) <==> call.reaction.ending.Throws?
    ensures FalseBy([call], call.list) <==> call.reaction.ending.ReturnsFalse?
    ensures forall k :: LeftBy([call], k) <==> call.thrown && k == call.list
  {
    var one := [call];
    assert one[0] == call;
  }

  lemma NoneLeft(s: State, t: State, calls: seq<Called>, k: nat)
    requires ToldBy(s, t, calls) && k < |t.lists| && t.lists[k].threw.None?
    ensures !LeftBy(calls, k) && forall i :: 0 <= i < |calls| && calls[i].thrown ==> calls[i].list != k
  {}

  lemma StillCalled(s: State, t: State, i: nat)
    requires Told(s, t) && i < |s.calls|
    ensures i < |t.calls| && t.calls[i] == s.calls[i]
  {}

  /** The latest firing of a list, of which no callback returned false where that ends it. */
  ghost predicate Whole(l: List, k: nat, calls: seq<Called>) {
    (l.flags.stopOnFalse ==> !FalseBy(calls, k)) ==> Complete(l)
  }

  lemma WholeMore(l: List, k: nat, calls: seq<Called>, more: seq<Called>)
    requires FalseBy(calls, k) ==> FalseBy(more, k)
    ensures Whole(l, k, calls) ==> Whole(l, k, more)
  {
    hide Complete, FalseBy;
  }

  // ----- what a run comes to -----

  function With(s: State, k: nat, l: List): (t: State)
    requires k < |s.lists|
    ensures |t.lists| == |s.lists| && t.script == s.script && t.calls == s.calls && t.lists[k] == l
  {
    s.(lists := s.lists[k := l])
  }

  predicate AtEntry(l: List) {
    l.entries.Some? && 0 <= l.firingIndex < |l.entries.value|
  }

  function ToGo(l: List): nat {
    if l.firingIndex < l.firingLength then l.firingLength - l.firingIndex else 0
  }

  /** One state is reached from the other without new callbacks piling up. */
  predicate Onward(s: State, t: State, k: nat) {
    && k < |s.lists| == |t.lists| && |t.script| <= |s.script| && |s.calls| <= |t.calls|
    && (|t.script| < |s.script| || StackSize(t.lists[k]) <= StackSize(s.lists[k]))
  }

  /** The callback at the index of list k: whether it throws, and whether it returns false. */
  function CallOf(s: State, k: nat): (r: (State, bool, bool))
    requires k < |s.lists| && AtEntry(s.lists[k])
    ensures |r.0.lists| == |s.lists| && |r.0.script| <= |s.script| && |s.calls| < |r.0.calls|
    ensures |r.0.script| < |s.script| || (!r.1 && r.0.lists == s.lists[k := RunNow(s.lists[k])])
    decreases |s.script|, 0, 0
  {
    var reaction := ReactionAt(s.script, 0);
    var (t, thrown) := if s.script == [] then (Entered(s, k), false) else PerformOf(Entered(s, k), reaction.acts);
    if thrown || reaction.ending.Throws? then (LeftAt(t, k, |s.calls|), true, false)
    else (t, false, reaction.ending.ReturnsFalse?)
  }

  function LoopOf(s: State, k: nat): (r: (State, LoopEnd))
    requires k < |s.lists|
    ensures Onward(s, r.0, k)
    decreases |s.script|, 1, ToGo(s.lists[k])
  {
    var l := s.lists[k];
    if !More(l) || !AtEntry(l) then (s, Over)
    else if l.entries.value[l.firingIndex].action.User? then
      var (t, thrown, isFalse) := CallOf(s, k);
      if thrown then (t, Left)
      else if isFalse && t.lists[k].flags.stopOnFalse then (t, Cut)
      else LoopOf(With(t, k, Advance(t.lists[k])), k)
    else
      OwnCallSteps(s.lists, s.settled, k);
      var (lists, settled) := OwnCall(s.lists, s.settled, k);
      LoopOf(s.(lists := lists, settled := settled), k)
  }

  lemma OwnCallSteps(lists: seq<List>, settled: seq<Outcome>, k: nat)
    requires k < |lists| && AtEntry(lists[k])
    ensures var after := OwnCall(lists, settled, k).0;
            && StackSize(after[k]) <= StackSize(lists[k])
            && after[k].firingIndex == lists[k].firingIndex + 1 && after[k].firingLength == lists[k].firingLength
  {}

  function LoopEndOf(s: State, k: nat): (r: (State, bool))
    requires k < |s.lists|
    ensures Onward(s, r.0, k)
    decreases |s.script|, 2, 0
  {
    var (t, end) := LoopOf(s, k);
    match end
    case Left => (t, true)
    case Cut => (With(t, k, Ended(t.lists[k].(memory := None))), false)
    case Over => (With(t, k, Ended(t.lists[k])), false)
  }

  /** The firing that was asked for first during the last. */
  function NextFiring(l: List): List
    requires l.entries.Some? && l.stack.Some? && |l.stack.value| > 0
  {
    Begin(l.(stack := Some(l.stack.value[1..])), l.stack.value[0])
  }

  function RunOf(s: State, k: nat): (r: (State, bool))
    requires k < |s.lists|
    ensures |r.0.lists| == |s.lists| && |r.0.script| <= |s.script| && |s.calls| <= |r.0.calls|
    decreases |s.script|, 3, StackSize(s.lists[k])
  {
    var (t, thrown) := LoopEndOf(s, k);
    var l := t.lists[k];
    if !thrown && l.entries.Some? && l.stack.Some? && |l.stack.value| > 0 then RunOf(With(t, k, NextFiring(l)), k)
    else (t, thrown)
  }

  /** A list that was changed, and fires if that began a firing. */
  function BegunOf(s: State, k: nat, change: (List, bool)): (r: (State, bool))
    requires k < |s.lists|
    ensures |r.0.lists| == |s.lists| && |r.0.script| <= |s.script| && |s.calls| <= |r.0.calls|
    decreases |s.script|, 4, 0
  {
    var t := With(s, k, change.0);
    if change.1 then RunOf(t, k) else (t, false)
  }

  function RemovedAll(l: List, fns: seq<nat>): List {
    if |fns| == 0 then l else Removed(RemovedAll(l, fns[..|fns| - 1]), User(fns[|fns| - 1]))
  }

  function PerformOneOf(s: State, op: Op): (r: (State, bool))
    requires op.list < |s.lists|
    ensures |r.0.lists| == |s.lists| && |r.0.script| <= |s.script| && |s.calls| <= |r.0.calls|
    decreases |s.script|, 5, 0
  {
    var k := op.list;
    match op
    case Add(_, fns) => BegunOf(s, k, Added(s.lists[k], fns))
    case FireWith(_, data) => BegunOf(s, k, Fired(s.lists[k], data))
    case Remove(_, fns) => (With(s, k, RemovedAll(s.lists[k], fns)), false)
    case _ => (With(s, k, ClosedBy(op, s.lists[k])), false)
  }

  /** Operations up to the first that throws unguarded; those on lists that are not there do
      nothing. */
  function PerformOf(s: State, acts: seq<Act>): (r: (State, bool))
    ensures |r.0.lists| == |s.lists| && |r.0.script| <= |s.script| && |s.calls| <= |r.0.calls|
    decreases |s.script|, 6, |acts|
  {
    if |acts| == 0 then (s, false)
    else
      var (t, thrown) := if acts[0].op.list < |s.lists| then PerformOneOf(s, acts[0].op) else (s, false);
      if thrown && !acts[0].guarded then (t, true) else PerformOf(t, acts[1..])
  }

  lemma CallStep(s: State, k: nat)
    requires k < |s.lists| && AtEntry(s.lists[k])
    ensures var reaction := ReactionAt(s.script, 0);
            var (t, thrown) := if s.script == [] then (Entered(s, k), false)
                               else PerformOf(Entered(s, k), reaction.acts);
            && |s.calls| < |t.calls| && |t.lists| == |s.lists|
            && CallOf(s, k) == if thrown || reaction.ending.Throws? then (LeftAt(t, k, |s.calls|), true, false)
                               else (t, false, reaction.ending.ReturnsFalse?)
  {
    hide PerformOf, Entered, LeftAt;
  }

  lemma PerformNothing(s: State)
    ensures PerformOf(s, []) == (s, false)
  {}

  lemma PerformNext(s: State, acts: seq<Act>, i: nat)
    requires i < |acts| && acts[i].op.list < |s.lists|
    ensures var (t, thrown) := PerformOneOf(s, acts[i].op);
            PerformOf(s, acts[i..]) == if thrown && !acts[i].guarded then (t, true) else PerformOf(t, acts[i + 1..])
  {
    assert acts[i..][0] == acts[i] && acts[i..][1..] == acts[i + 1..];
    hide PerformOneOf;
  }

  lemma LoopStep(s: State, k: nat)
    requires k < |s.lists| && More(s.lists[k]) && AtEntry(s.lists[k])
    ensures LoopOf(s, k)
         == if s.lists[k].entries.value[s.lists[k].firingIndex].action.User? then
              var (t, thrown, isFalse) := CallOf(s, k);
              if thrown then (t, Left)
              else if isFalse && t.lists[k].flags.stopOnFalse then (t, Cut)
              else LoopOf(t.(lists := t.lists[k := Advance(t.lists[k])]), k)
            else
              var (lists, settled) := OwnCall(s.lists, s.settled, k);
              LoopOf(s.(lists := lists, settled := settled), k)
  {
    hide CallOf, OwnCall;
  }

  lemma LoopStops(s: State, k: nat)
    requires k < |s.lists| && !More(s.lists[k])
    ensures LoopOf(s, k) == (s, Over)
  {}

  lemma RunStep(s: State, k: nat)
    requires k < |s.lists|
    ensures var (t, thrown) := LoopEndOf(s, k);
            var l := t.lists[k];
            RunOf(s, k) == if !thrown && l.entries.Some? && l.stack.Some? && |l.stack.value| > 0 then
                             RunOf(t.(lists := t.lists[k := NextFiring(l)]), k)
                           else
                             (t, thrown)
  {
    hide LoopEndOf;
  }

  class Page {
    const deferred: bool
    var lists: seq<List>
    var settled: seq<Outcome>
    var script: seq<Reaction>
    var calls: seq<Called>

    ghost predicate At(at: int)
      reads this
    {
      Inv(lists, settled, at, deferred) && ScriptAllowed(script, |lists|, deferred)
    }

    ghost function Now(): (s: State)
      reads this
      ensures s.lists == lists && s.settled == settled && s.script == script && s.calls == calls
    {
      State(lists, settled, script, calls)
    }

    constructor (lists: seq<List>, deferred: bool, script: seq<Reaction>)
      ensures this.lists == lists && this.deferred == deferred && this.script == script && settled == []
      ensures calls == []
    {
      this.lists, this.deferred, this.script, settled, calls := lists, deferred, script, [], [];
    }

    /** What a callback does next. */
    method React() returns (reaction: Reaction)
      requires ScriptAllowed(script, |lists|, deferred)
      modifies this`script
      ensures ScriptAllowed(script, |lists|, deferred) && AllAllowed(OpsOf(reaction.acts), |lists|, deferred)
      ensures reaction == ReactionAt(old(script), 0) && script == After(old(script), 1)
    {
      if |script| == 0 {
        return Reaction([], Returns);
      }
      reaction, script := script[0], script[1..];
    }

    /** The callback at the index of list k, up to its end: what it does, and whether an
        operation of it threw unguarded. */
    method Enter(k: nat) returns (reaction: Reaction, thrown: bool)
      requires k < |lists| && At(k) && lists[k].firing && More(lists[k]) && lists[k].threw.None?
      requires AtEntry(lists[k]) && lists[k].entries.value[lists[k].firingIndex].action.User?
      modifies this
      ensures |lists| == |old(lists)| && Kept(old(Off(lists, k)), Off(lists, k)) && old(settled) <= settled && At(-1)
      ensures lists[k].firing && lists[k].threw.None? && Tracked(old(lists[k]), lists[k])
      ensures lists[k].history == RunNow(old(lists[k])).history
      ensures reaction == ReactionAt(old(script), 0) && Told(Entered(old(Now()), k), Now())
      ensures (Now(), thrown) == if old(script) == [] then (Entered(old(Now()), k), false)
                                 else PerformOf(Entered(old(Now()), k), reaction.acts)
      ensures thrown ==> AnyLeft(Fresh(Entered(old(Now()), k), Now())) && AnyUnguarded(reaction.acts)
      ensures |script| < |old(script)| || (reaction == Reaction([], Returns) && script == old(script) == [])
      decreases |script|, 0, 0
    {
      hide Inv, ScriptAllowed, Kept, AllAllowed, Told, PerformOf, Off, RunNow, Grown, AnyLeft, Fresh;
      ghost var was := lists;
      var l := lists[k];
      ghost var e := Entered(Now(), k);
      UserInv(lists, settled, k, deferred);
      CallGrows(l);
      KeptSame(lists);
      KeptOff(lists, lists, k);
      KeptStep(was, lists, k, RunNow(l));
      lists := lists[k := RunNow(l)];
      ghost var called := lists;
      reaction := React();
      calls := calls + [Called(k, l.entries.value[l.firingIndex].token, reaction, false)];
      assert Now() == e;
      ToldNothing(e);
      PerformNothing(e);
      thrown := false;
      if reaction.acts != [] {
        thrown := Perform(reaction.acts);
        KeptGrown(called, lists, k);
        KeptMeanwhile(was, called, lists, k);
      }
    }

    /** The whole call: whether it throws, itself or by an operation of its own, which leaves the
        list firing, and whether it returns false. */
    method Call(k: nat) returns (thrown: bool, isFalse: bool)
      requires k < |lists| && At(k) && lists[k].firing && More(lists[k]) && lists[k].threw.None?
      requires AtEntry(lists[k]) && lists[k].entries.value[lists[k].firingIndex].action.User?
      modifies this
      ensures (Now(), thrown, isFalse) == CallOf(old(Now()), k)
      ensures Told(old(Now()), Now()) && (isFalse ==> FalseBy(Fresh(old(Now()), Now()), k))
      ensures |lists| == |old(lists)| && Kept(old(Off(lists, k)), Off(lists, k)) && old(settled) <= settled && At(-1)
      ensures lists[k].firing && if thrown then lists[k].threw.Some? else lists[k].threw.None?
      ensures Tracked(old(lists[k]), lists[k])
      ensures |script| <= |old(script)|
      ensures |script| < |old(script)| || (!thrown && lists == old(lists[k := RunNow(lists[k])]))
      decreases |script|, 0, 1
    {
      hide Inv, ScriptAllowed, Kept, AllAllowed, Told, PerformOf, CallOf, FalseBy, Off, RunNow, Thrown, Grown, AnyLeft,
           Fresh, AnyUnguarded;
      ghost var s, e := Now(), Entered(Now(), k);
      ghost var was := lists;
      var l := lists[k];
      var at, token := |calls|, l.entries.value[l.firingIndex].token;
      CallStep(s, k);
      CallGrows(l);
      var reaction;
      reaction, thrown := Enter(k);
      ToldCall(s, k, Now(), thrown);
      StillCalled(e, Now(), at);
      isFalse := reaction.ending.ReturnsFalse? && !thrown;
      thrown := thrown || reaction.ending.Throws?;
      if thrown {
        ThrownGrows(lists[k], token);
        ThrownInv(lists, settled, k, token, deferred);
        KeptStep(was, lists, k, Thrown(lists[k], token));
        lists := lists[k := Thrown(lists[k], token)];
        calls := calls[at := calls[at].(thrown := true)];
      }
    }

    /** One turn of the loop: it goes on, or is cut or left. */
    method Turn(k: nat) returns (end: LoopEnd)
      requires k < |lists| && At(k) && lists[k].firing && lists[k].threw.None? && More(lists[k])
      modifies this
      ensures |lists| == |old(lists)| && Kept(old(Off(lists, k)), Off(lists, k)) && old(settled) <= settled
      ensures At(if end.Over? then k else -1) && lists[k].firing && Tracked(old(lists[k]), lists[k])
      ensures if end.Over? then LoopOf(Now(), k) == LoopOf(old(Now()), k) else (Now(), end) == LoopOf(old(Now()), k)
      ensures Told(old(Now()), Now())
      ensures end.Cut? ==> lists[k].flags.stopOnFalse && FalseBy(Fresh(old(Now()), Now()), k)
      ensures end.Left? <==> lists[k].threw.Some?
      ensures |script| <= |old(script)|
      ensures |script| < |old(script)|
              || (StackSize(lists[k]) <= old(StackSize(lists[k]))
                  && (end.Over? ==> lists[k].firingLength == old(lists[k].firingLength)
                                    && lists[k].firingIndex == old(lists[k].firingIndex) + 1))
      decreases |script|, 0, 2
    {
      hide Inv, ScriptAllowed, Kept, OwnCall, AllAllowed, Told, LoopOf, CallOf, Fresh, FalseBy, Off, Grown, StaysStuck;
      hide Tracked;
      ghost var before, was := Now(), lists;
      var l := lists[k];
      OwnInv(lists, settled, k, deferred);
      LoopStep(before, k);
      KeptSame(lists);
      KeptOff(lists, lists, k);
      if !l.entries.value[l.firingIndex].action.User? {
        OwnCallKeeps(was, lists, settled, k);
        OwnCallTold(before, k);
        lists, settled := OwnCall(lists, settled, k).0, OwnCall(lists, settled, k).1;
        return Over;
      }
      var thrown, isFalse := Call(k);
      if thrown {
        return Left;
      }
      if isFalse && lists[k].flags.stopOnFalse {
        return Cut;
      }
      NextInv(lists, settled, k, deferred);
      AdvanceGrows(lists[k]);
      TrackedTransitive(l, lists[k], Advance(lists[k]));
      KeptStep(was, lists, k, Advance(lists[k]));
      ToldSet(Now(), k, Advance(lists[k]));
      ToldTransitive(before, Now(), With(Now(), k, Advance(lists[k])));
      lists := lists[k := Advance(lists[k])];
      return Over;
    }

    /** The loop of fire. Over, it has run exactly what it was to run and was not taken away. */
    method Loop(k: nat) returns (end: LoopEnd)
      requires k < |lists| && At(k) && lists[k].firing && lists[k].threw.None?
      modifies this
      ensures |lists| == |old(lists)| && Kept(old(Off(lists, k)), Off(lists, k)) && old(settled) <= settled
      ensures At(if end.Over? then k else -1) && lists[k].firing && Tracked(old(lists[k]), lists[k])
      ensures (Now(), end) == LoopOf(old(Now()), k)
      ensures Told(old(Now()), Now())
      ensures end.Cut? ==> lists[k].flags.stopOnFalse && FalseBy(Fresh(old(Now()), Now()), k)
      ensures end.Left? <==> lists[k].threw.Some?
      ensures end.Over? ==> !More(lists[k]) && Complete(lists[k])
      ensures |script| <= |old(script)|
      ensures |script| < |old(script)| || StackSize(lists[k]) <= old(StackSize(lists[k]))
      decreases |script|, 1, 0
    {
      hide Inv, ScriptAllowed, Kept, Complete, OwnCall, AllAllowed, Told, LoopOf, CallOf, Fresh, FalseBy;
      hide Off, Grown, StaysStuck, Tracked;
      ghost var was, start := lists, Now();
      TrackedSame(lists[k]);
      KeptSame(lists);
      KeptOff(lists, lists, k);
      ToldNothing(start);
      while More(lists[k])
        invariant |lists| == |was| && At(k) && lists[k].firing && lists[k].threw.None? && old(settled) <= settled
        invariant Kept(Off(was, k), Off(lists, k)) && Tracked(was[k], lists[k])
        invariant LoopOf(start, k) == LoopOf(Now(), k) && Told(start, Now())
        invariant |script| <= |old(script)|
        invariant |script| < |old(script)| || StackSize(lists[k]) <= StackSize(was[k])
        decreases |script|, lists[k].firingLength - lists[k].firingIndex
      {
        ghost var before, list := Now(), lists[k];
        end := Turn(k);
        KeptTransitive(Off(was, k), Off(before.lists, k), Off(lists, k));
        TrackedTransitive(was[k], list, lists[k]);
        ToldTransitive(start, before, Now());
        if !end.Over? {
          return;
        }
      }
      LoopStops(Now(), k);
      LastInv(lists, settled, k, deferred);
      return Over;
    }

    /** fire from its loop on, and the firings that were asked for meanwhile. What a callback
        throws leaves the list firing, and no further firing follows. */
    method Run(k: nat) returns (thrown: bool)
      requires k < |lists| && At(k) && lists[k].firing && lists[k].threw.None?
      modifies this
      ensures Kept(old(Off(lists, k)), lists) && old(settled) <= settled && At(-1)
      ensures |lists| == |old(lists)| && thrown == lists[k].firing == Stuck(lists[k])
      ensures !thrown ==> Whole(lists[k], k, Fresh(old(Now()), Now()))
      ensures !thrown && lists[k].stack.Some? ==> lists[k].asked == lists[k].fires
      ensures (Now(), thrown) == RunOf(old(Now()), k)
      ensures Told(old(Now()), Now())
      ensures |script| <= |old(script)|
      decreases |script|, 2, StackSize(lists[k])
    {
      hide Inv, ScriptAllowed, Kept, Complete, More, Whole, Begin, Told, RunOf, LoopEndOf, Fresh, FalseBy;
      ghost var was, start := Off(lists, k), Now();
      RunStep(Now(), k);
      thrown := LoopAndEnd(k);
      if thrown {
        return;
      }
      var l := lists[k];
      if l.entries.Some? && l.stack.Some? && |l.stack.value| > 0 {
        ShiftInv(lists, settled, k, deferred);
        var m := NextFiring(l);
        BeginGrows(l.(stack := Some(l.stack.value[1..])), l.stack.value[0]);
        KeptSet(was, lists, k, m.(firing := false));
        ghost var between := lists[k := m.(firing := false)];
        ToldSet(Now(), k, m);
        ToldTransitive(start, Now(), With(Now(), k, m));
        lists := lists[k := m];
        assert between == Off(lists, k);
        ghost var again := Now();
        thrown := Run(k);
        KeptTransitive(was, between, lists);
        ToldTransitive(start, again, Now());
        WholeMore(lists[k], k, Fresh(again, Now()), Fresh(start, Now()));
      } else {
        NoneFollows(lists, settled, k, deferred);
      }
    }

    /** The loop of fire, and what becomes of the list after it. */
    method LoopAndEnd(k: nat) returns (thrown: bool)
      requires k < |lists| && At(k) && lists[k].firing && lists[k].threw.None?
      modifies this
      ensures Kept(old(Off(lists, k)), lists) && old(settled) <= settled
      ensures |lists| == |old(lists)| && thrown == lists[k].firing == Stuck(lists[k])
      ensures ScriptAllowed(script, |lists|, deferred)
      ensures if thrown then At(-1) else Between(lists, settled, k, deferred)
      ensures !thrown ==> Whole(lists[k], k, Fresh(old(Now()), Now()))
      ensures (Now(), thrown) == LoopEndOf(old(Now()), k)
      ensures Told(old(Now()), Now())
      ensures |script| <= |old(script)|
      ensures |script| < |old(script)| || StackSize(lists[k]) <= old(StackSize(lists[k]))
      decreases |script|, 1, 1
    {
      hide Inv, ScriptAllowed, Kept, Complete, More, Whole, Ended, Told, LoopOf, Fresh, FalseBy;
      ghost var was, start := lists, Now();
      var end := Loop(k);
      var l := lists[k];
      if end.Left? {
        GrownSame(l);
        KeptOver(was, lists, k, l);
        assert lists[k := l] == lists;
        return true;
      } else if end.Cut? {
        CutInv(lists, settled, k, deferred);
        l := l.(memory := None);
      } else {
        LastInv(lists, settled, k, deferred);
      }
      EndedGrows(lists[k], l);
      KeptOver(was, lists, k, Ended(l));
      WholeEnded(lists[k], l, k, end.Cut?, Fresh(start, Now()));
      ToldSet(Now(), k, Ended(l));
      ToldTransitive(start, Now(), With(Now(), k, Ended(l)));
      WholeMore(Ended(l), k, Fresh(start, Now()), Fresh(start, With(Now(), k, Ended(l))));
      lists := lists[k := Ended(l)];
      return false;
    }

    /** add: what comes to a firing list joins its batch; what comes to a list that remembers
        fires at once. */
    method Add(k: nat, fns: seq<nat>) returns (thrown: bool)
      requires k < |lists| && At(-1)
      modifies this
      ensures Kept(old(lists), lists) && old(settled) <= settled && At(-1)
      ensures |lists| == |old(lists)|
      ensures old(lists[k].entries.Some? && !lists[k].flags.unique) ==> lists[k].next >= old(lists[k].next) + |fns|
      ensures old(lists[k].entries.None?) ==> lists == old(lists) && settled == old(settled)
      ensures old(lists[k].entries.Some? && !lists[k].firing && lists[k].memory.Some?) ==>
                thrown == lists[k].firing && (!thrown ==> Whole(lists[k], k, Fresh(old(Now()), Now())))
      ensures thrown ==> !old(lists[k].firing) && Stuck(lists[k])
      ensures (Now(), thrown) == PerformOneOf(old(Now()), Op.Add(k, fns))
      ensures Told(old(Now()), Now())
      ensures |script| <= |old(script)|
      decreases |script|, 3, 0
    {
      hide Inv, ScriptAllowed, Kept, Added, Whole, Told, BegunOf, Fresh;
      AddInv(lists, settled, k, fns, deferred);
      AddedKeeps(lists, k, fns);
      var m, begun := AddTo(lists[k], fns);
      thrown := Begun(k, m, begun);
    }

    /** A list that was changed, and fires if that began a firing. */
    method Begun(k: nat, m: List, begun: bool) returns (thrown: bool)
      requires k < |lists| && Inv(lists[k := m], settled, if begun then k else -1, deferred)
      requires ScriptAllowed(script, |lists|, deferred) && m.firing == (lists[k].firing || begun)
      requires Kept(lists, lists[k := m.(firing := lists[k].firing)])
      requires begun ==> !lists[k].firing && m.threw.None?
      modifies this
      ensures Kept(old(lists), lists) && old(settled) <= settled && At(-1)
      ensures |lists| == |old(lists)| && (m.fired ==> lists[k].fired) && m.next <= lists[k].next
      ensures m.asked <= lists[k].asked
      ensures if begun then !thrown && lists[k].stack.Some? ==> lists[k].asked == lists[k].fires
              else lists == old(lists)[k := m] && settled == old(settled)
      ensures if begun then thrown == lists[k].firing && (!thrown ==> Whole(lists[k], k, Fresh(old(Now()), Now())))
              else !thrown
      ensures thrown ==> !old(lists[k].firing) && Stuck(lists[k])
      ensures (Now(), thrown) == BegunOf(old(Now()), k, (m, begun))
      ensures Told(old(Now()), Now())
      ensures |script| <= |old(script)|
      decreases |script|, 2, StackSize(m) + 1
    {
      hide Inv, ScriptAllowed, Kept, Told, RunOf, Whole, Fresh, FalseBy;
      ghost var was, start := lists, Now();
      ghost var between := lists[k := m.(firing := lists[k].firing)];
      KeptGrown(lists, between, k);
      ToldSet(Now(), k, m);
      lists := lists[k := m];
      ghost var begin := Now();
      if begun {
        assert Off(lists, k) == between;
        thrown := Run(k);
        KeptGrown(between, lists, k);
        KeptTransitive(was, between, lists);
        ToldTransitive(start, begin, Now());
        WholeMore(lists[k], k, Fresh(begin, Now()), Fresh(start, Now()));
      } else {
        assert m == m.(firing := was[k].firing);
        thrown := false;
      }
    }

    /** fireWith: at once, after the present firing, or never again for a list that fires once. */
    method FireWith(k: nat, data: Data) returns (thrown: bool)
      requires k < |lists| && At(-1)
      modifies this
      ensures Kept(old(lists), lists) && old(settled) <= settled && At(-1)
      ensures |lists| == |old(lists)| && (old(lists[k].entries.Some?) ==> lists[k].fired)
      ensures if old(lists[k].entries.Some? && (!lists[k].fired || lists[k].stack.Some?)) then
                && old(lists[k].asked) + [data] <= lists[k].asked
                && (!thrown && !old(lists[k].firing) && lists[k].stack.Some? ==> lists[k].asked == lists[k].fires)
              else
                lists == old(lists) && settled == old(settled)
      ensures if old(CanFire(lists[k]) && !lists[k].firing) then
                thrown == lists[k].firing && (!thrown ==> Whole(lists[k], k, Fresh(old(Now()), Now())))
              else
                !thrown
      ensures thrown ==> !old(lists[k].firing) && Stuck(lists[k])
      ensures (Now(), thrown) == PerformOneOf(old(Now()), Op.FireWith(k, data))
      ensures Told(old(Now()), Now())
      ensures deferred && k <= 1 ==> settled != []
      ensures |script| <= |old(script)|
      decreases |script|, 3, 0
    {
      hide Inv, ScriptAllowed, Kept, Fired, Whole, Told, BegunOf, Fresh;
      FireInv(lists, settled, k, data, deferred);
      FiredKeeps(lists, k, data);
      ghost var was, before := lists, settled;
      var (m, begun) := Fired(lists[k], data);
      thrown := Begun(k, m, begun);
      if deferred && k <= 1 {
        AskedSettles(was, before, lists, settled, k);
      }
    }

    /** remove: the functions' entries go, the others keep their order, and no other list changes. */
    method Remove(k: nat, fns: seq<nat>)
      requires k < |lists| && At(-1) && !deferred
      modifies this`lists
      ensures Kept(old(lists), lists) && At(-1)
      ensures lists == old(lists)[k := RemovedAll(old(lists[k]), fns)]
      ensures Told(old(Now()), Now())
      ensures lists[k].entries == match old(lists[k].entries)
                                  case None => None
                                  case Some(e) => Some(WithoutAll(e, fns))
    {
      hide Inv, ScriptAllowed, Kept, Fine, Without, Told, Removed;
      ghost var was, start := lists, Now();
      KeptSame(lists);
      for i := 0 to |fns|
        invariant |lists| == |was| && At(-1) && Kept(was, lists)
        invariant lists == was[k := RemovedAll(was[k], fns[..i])] && StaysStuck(was[k], lists[k])
        invariant lists[k].entries.Some? == was[k].entries.Some?
        invariant was[k].entries.Some? ==> lists[k].entries.value == WithoutAll(was[k].entries.value, fns[..i])
      {
        IsFine(lists, settled, k, deferred);
        var m := RemoveOne(lists[k], User(fns[i]));
        SetInv(lists, settled, k, m);
        KeptSet(was, lists, k, m);
        lists := lists[k := m];
        assert fns[..i + 1][..i] == fns[..i];
      }
      assert fns[..|fns|] == fns;
      ToldSet(start, k, lists[k]);
    }

    /** empty, disable and lock, each on its list alone. */
    method Close(op: Op)
      requires op.list < |lists| && At(-1) && !deferred && (op.Empty? || op.DisableAll? || op.LockUp?)
      modifies this`lists
      ensures Kept(old(lists), lists) && At(-1)
      ensures lists == old(lists)[op.list := ClosedBy(op, old(lists[op.list]))] && |lists| == |old(lists)|
      ensures var (was, l) := (old(lists[op.list]), lists[op.list]);
              match op
              case Empty(_) => l.entries == Some([]) && l.memory == was.memory && l.stack == was.stack
              case DisableAll(_) => l.entries.None? && l.memory.None? && l.stack.None?
              case _ => l.stack.None? && l.memory == was.memory
                        && l.entries == if was.memory.None? then None else was.entries
      ensures Told(old(Now()), Now())
    {
      hide Inv, ScriptAllowed, Kept, ClosedBy, Fine, Told;
      var l := lists[op.list];
      IsFine(lists, settled, op.list, deferred);
      ClosedKeeps(op, l);
      ClosedIs(op, l);
      ClosedFine(op, l);
      SetInv(lists, settled, op.list, ClosedBy(op, l));
      KeptSame(lists);
      KeptSet(lists, lists, op.list, ClosedBy(op, l));
      ToldSet(Now(), op.list, ClosedBy(op, l));
      lists := lists[op.list := ClosedBy(op, l)];
    }

    method PerformOne(op: Op) returns (thrown: bool)
      requires At(-1) && Allowed(op, |lists|, deferred)
      modifies this
      ensures Kept(old(lists), lists) && old(settled) <= settled && At(-1)
      ensures deferred ==> Heeded(op, old(lists), lists, settled)
      ensures thrown ==> !old(lists[op.list].firing) && Stuck(lists[op.list])
      ensures (Now(), thrown) == PerformOneOf(old(Now()), op)
      ensures Told(old(Now()), Now())
      ensures |script| <= |old(script)|
      decreases |script|, 4, 0
    {
      hide Inv, ScriptAllowed, Kept, Told, BegunOf, RemovedAll, Whole, Fresh;
      ghost var was, before := lists, settled;
      thrown := false;
      match op {
        case Add(k, fns) => thrown := Add(k, fns);
        case FireWith(k, data) => thrown := FireWith(k, data);
        case Remove(k, fns) => Remove(k, fns);
        case _ => Close(op);
      }
      if deferred {
        AddHeeded(op, was, before, lists, settled);
      }
    }

    /** Operations one after the other, from anywhere: outside all callbacks, or in one; up to
        the first that throws unguarded. In a Deferred the settled side has taken in what was
        added, and if one side was fired the Deferred is settled. */
    method Perform(acts: seq<Act>) returns (thrown: bool)
      requires At(-1) && AllAllowed(OpsOf(acts), |lists|, deferred)
      modifies this
      ensures Kept(old(lists), lists) && old(settled) <= settled && At(-1)
      ensures deferred && !thrown ==> AllHeeded(OpsOf(acts), old(lists), lists, settled)
      ensures thrown ==> AnyLeft(Fresh(old(Now()), Now())) && AnyUnguarded(acts)
      ensures (Now(), thrown) == PerformOf(old(Now()), acts)
      ensures Told(old(Now()), Now())
      ensures |script| <= |old(script)|
      decreases |script|, 5, 0
    {
      hide Inv, ScriptAllowed, Kept, Heeded, AllHeeded, Told, PerformOneOf, PerformOf, Fresh, AnyLeft;
      ghost var was, start, ops := lists, Now(), OpsOf(acts);
      ToldNothing(start);
      assert acts[0..] == acts;
      KeptSame(lists);
      if deferred {
        InvMeans(lists, settled);
      }
      NothingToHeed(lists, settled);
      assert ops[..0] == [];
      for i := 0 to |acts|
        invariant |lists| == |was| && At(-1) && Kept(was, lists) && old(settled) <= settled
        invariant deferred ==> AllHeeded(ops[..i], was, lists, settled)
        invariant PerformOf(start, acts) == PerformOf(Now(), acts[i..]) && Told(start, Now())
        invariant |script| <= |old(script)|
      {
        ghost var before, outcome, between := lists, settled, Now();
        assert Allowed(ops[i], |lists|, deferred);
        PerformNext(Now(), acts, i);
        thrown := PerformOne(acts[i].op);
        if deferred {
          HeededNext(ops, i, was, before, outcome, lists, settled);
        }
        KeptTransitive(was, before, lists);
        KeptLength(before, lists);
        ToldTransitive(start, between, Now());
        if thrown && !acts[i].guarded {
          StuckByCall(between, Now(), acts[i].op.list);
          return true;
        }
      }
      assert ops[..|ops|] == ops && acts[|acts|..] == [];
      PerformNothing(Now());
      return false;
    }
  }

  function ClosedBy(op: Op, l: List): List {
    match op
    case Empty(_) => Emptied(l)
    case DisableAll(_) => Disabled(l)
    case _ => Locked(l)
  }

  lemma ClosedIs(op: Op, l: List)
    ensures var m := ClosedBy(op, l);
            match op
            case Empty(_) => m.entries == Some([]) && m.memory == l.memory && m.stack == l.stack
            case DisableAll(_) => m.entries.None? && m.memory.None? && m.stack.None?
            case _ => m.stack.None? && m.memory == l.memory
                      && m.entries == if l.memory.None? then None else l.entries
  {
    hide Waiting;
  }

  lemma ClosedKeeps(op: Op, l: List)
    ensures Carried(l, ClosedBy(op, l)) && StaysStuck(l, ClosedBy(op, l))
  {
    hide Waiting;
  }

  lemma ClosedFine(op: Op, l: List)
    requires Fine(l, 1)
    ensures Fine(ClosedBy(op, l), 1)
  {
    ClearedFine(l);
    hide Fine, Emptied, Disabled, Locked;
  }

  function WithoutAll(e: seq<Entry>, fns: seq<nat>): seq<Entry> {
    if |fns| == 0 then e else Without(WithoutAll(e, fns[..|fns| - 1]), User(fns[|fns| - 1]))
  }

  /** How many functions the operations add to the list. */
  function AddCount(ops: seq<Op>, me: nat): nat {
    if |ops| == 0 then 0
    else
      var op := ops[|ops| - 1];
      AddCount(ops[..|ops| - 1], me) + if op.Add? && op.list == me then |op.fns| else 0
  }

  predicate Asks(op: Op) {
    op.FireWith? && op.list <= 1
  }

  /** What one operation on a Deferred has brought about when it is over. */
  ghost predicate Heeded(op: Op, was: seq<List>, lists: seq<List>, settled: seq<Outcome>) {
    && |was| == |lists| == 3
    && (Asks(op) ==> settled != [])
    && forall me :: 0 <= me <= 1 && (settled == [] || settled == [OutcomeOf(me)]) ==>
         lists[me].next >= was[me].next + AddCount([op], me)
  }

  ghost predicate AllHeeded(ops: seq<Op>, was: seq<List>, lists: seq<List>, settled: seq<Outcome>) {
    && |was| == |lists| == 3
    && ((exists i :: 0 <= i < |ops| && Asks(ops[i])) ==> settled != [])
    && forall me :: 0 <= me <= 1 && (settled == [] || settled == [OutcomeOf(me)]) ==>
         lists[me].next >= was[me].next + AddCount(ops, me)
  }

  lemma OneCount(op: Op, me: nat)
    ensures AddCount([op], me) == if op.Add? && op.list == me then |op.fns| else 0
  {
    assert [op][..0] == [];
  }

  lemma AddHeeded(op: Op, was: seq<List>, before: seq<Outcome>, lists: seq<List>, settled: seq<Outcome>)
    requires Inv(was, before, -1, true) && Inv(lists, settled, -1, true) && Kept(was, lists) && before <= settled
    requires op.list < |was| && (Asks(op) ==> settled != [])
    requires op.Add? && was[op.list].entries.Some? && !was[op.list].flags.unique ==>
               lists[op.list].next >= was[op.list].next + |op.fns|
    ensures Heeded(op, was, lists, settled)
  {
    forall me | 0 <= me <= 1 && (settled == [] || settled == [OutcomeOf(me)])
      ensures |was| == |lists| == 3 && lists[me].next >= was[me].next + AddCount([op], me)
    {
      OneCount(op, me);
      TakesAdditions(was, before, me);
      KeptGrown(was, lists, me);
    }
    InvMeans(was, before);
    KeptLength(was, lists);
    hide Inv, Kept, AddCount;
  }

  lemma NothingToHeed(lists: seq<List>, settled: seq<Outcome>)
    ensures |lists| == 3 ==> AllHeeded([], lists, lists, settled)
  {}

  lemma HeededNext(ops: seq<Op>, i: nat, was: seq<List>, before: seq<List>, outcome: seq<Outcome>,
                   lists: seq<List>, settled: seq<Outcome>)
    requires i < |ops| && AllHeeded(ops[..i], was, before, outcome) && outcome <= settled
    requires Heeded(ops[i], before, lists, settled)
    ensures AllHeeded(ops[..i + 1], was, lists, settled)
  {
    var front, more := ops[..i], ops[..i + 1];
    assert more[..i] == front && more[i] == ops[i];
    forall me | 0 <= me <= 1
      ensures AddCount(more, me) == AddCount(front, me) + AddCount([ops[i]], me)
    {
      OneCount(ops[i], me);
    }
    if exists k :: 0 <= k < |more| && Asks(more[k]) {
      var k :| 0 <= k < |more| && Asks(more[k]);
      if k < i {
        assert Asks(front[k]);
      }
    }
    hide AddCount, Asks;
  }

  /** The loop of add. */
  method AddTo(l: List, fns: seq<nat>) returns (m: List, begun: bool)
    ensures (m, begun) == Added(l, fns)
  {
    if l.entries.None? {
      return l, false;
    }
    m := l;
    var start := |l.entries.value|;
    for i := 0 to |fns|
      invariant m.entries.Some? && m == PushAll(l, Users(fns[..i]))
    {
      UsersNext(fns, i);
      m := Push(m, User(fns[i]));
    }
    assert fns[..|fns|] == fns;
    PushAllKeeps(l, Users(fns));
    if m.firing {
      return Relength(m), false;
    } else if m.memory.Some? {
      return Begin(Asked(m, m.memory.value).(firingStart := start), m.memory.value), true;
    }
    return m, false;
  }

  lemma UsersNext(fns: seq<nat>, i: nat)
    requires i < |fns|
    ensures Users(fns[..i + 1])[..i] == Users(fns[..i]) && Users(fns[..i + 1])[i] == User(fns[i])
  {}

  lemma KeptSame(lists: seq<List>)
    ensures Kept(lists, lists)
  {}

  lemma KeptLength(was: seq<List>, lists: seq<List>)
    requires Kept(was, lists)
    ensures |was| == |lists|
  {}

  lemma KeptGrown(was: seq<List>, lists: seq<List>, k: nat)
    requires Kept(was, lists) && k < |was|
    ensures |lists| == |was| && Grown(was[k], lists[k])
    ensures was[k].firing ==> lists[k].firing && lists[k].history == was[k].history && lists[k].threw == was[k].threw
    ensures was[k].firing ==> Tracked(was[k], lists[k])
  {}

  lemma GrownSame(l: List)
    ensures Grown(l, l)
  {}

  lemma IsFine(lists: seq<List>, settled: seq<Outcome>, k: nat, deferred: bool)
    requires Inv(lists, settled, -1, deferred) && k < |lists|
    ensures Fine(lists[k], 1)
  {}

  lemma EffectKeeps(lists: seq<List>, settled: seq<Outcome>, action: Action, k: nat)
    requires k < |lists|
    ensures var (after, now) := Effect(lists, settled, action);
            && Kept(lists, after) && settled <= now && |after| == |lists|
            && StackSize(after[k]) <= StackSize(lists[k])
            && after[k].firingIndex == lists[k].firingIndex && after[k].firingLength == lists[k].firingLength
            && after[k].firing == lists[k].firing && after[k].threw == lists[k].threw
  {
    KeptSame(lists);
    match action
    case Disable(j) => if j < |lists| { KeptSet(lists, lists, j, Disabled(lists[j])); }
    case Lock(j) => if j < |lists| { KeptSet(lists, lists, j, Locked(lists[j])); }
    case _ =>
  }

  lemma OwnCallTold(s: State, k: nat)
    requires k < |s.lists| && AtEntry(s.lists[k])
    ensures var (lists, settled) := OwnCall(s.lists, s.settled, k);
            Told(s, s.(lists := lists, settled := settled))
  {
    var (lists, settled) := OwnCall(s.lists, s.settled, k);
    assert forall j :: 0 <= j < |lists| ==> StaysStuck(s.lists[j], lists[j]);
    ToldSame(s, s.(lists := lists, settled := settled));
    hide StaysStuck, OwnCall, Told;
  }

  lemma OwnCallKeeps(was: seq<List>, lists: seq<List>, settled: seq<Outcome>, k: nat)
    requires k < |was| == |lists| && Kept(Off(was, k), Off(lists, k)) && lists[k].firing
    requires lists[k].entries.Some? && 0 <= lists[k].firingIndex < |lists[k].entries.value|
    ensures var (after, now) := OwnCall(lists, settled, k);
            && Kept(Off(was, k), Off(after, k)) && settled <= now
            && StackSize(after[k]) <= StackSize(lists[k])
            && after[k].firing && after[k].threw == lists[k].threw && Tracked(lists[k], after[k])
            && after[k].firingIndex == lists[k].firingIndex + 1 && after[k].firingLength == lists[k].firingLength
  {
    var l := lists[k];
    var action := l.entries.value[l.firingIndex].action;
    var called := lists[k := RunNow(l)];
    KeptStep(was, lists, k, RunNow(l));
    EffectKeeps(called, settled, action, k);
    var after := Effect(called, settled, action).0;
    KeptMeanwhile(was, called, after, k);
    KeptGrown(called, after, k);
    KeptStep(was, after, k, Advance(after[k]));
    hide Kept, Effect;
  }

  lemma AddedKeeps(lists: seq<List>, k: nat, fns: seq<nat>)
    requires k < |lists|
    ensures var (m, begun) := Added(lists[k], fns);
            && m.firing == (lists[k].firing || begun) && (begun ==> !lists[k].firing)
            && Kept(lists, lists[k := m.(firing := lists[k].firing)])
            && (lists[k].entries.Some? && !lists[k].flags.unique ==> m.next == lists[k].next + |fns|)
            && (begun <==> lists[k].entries.Some? && !lists[k].firing && lists[k].memory.Some?)
            && (begun ==> m.threw.None?) && (lists[k].entries.None? ==> m == lists[k])
  {
    var l, m := lists[k], Added(lists[k], fns).0;
    if l.entries.Some? {
      PushAllKeeps(l, Users(fns));
      PushAllCounts(l, Users(fns));
    }
    KeptSame(lists);
    KeptSet(lists, lists, k, m.(firing := l.firing));
    hide Kept;
  }

  lemma {:induction false} PushAllCounts(l: List, actions: seq<Action>)
    requires l.entries.Some?
    ensures PushAll(l, actions).next >= l.next && Tracked(l, PushAll(l, actions))
    ensures !l.flags.unique ==> PushAll(l, actions).next == l.next + |actions|
  {
    if |actions| > 0 {
      PushAllCounts(l, actions[..|actions| - 1]);
      PushAllKeeps(l, actions[..|actions| - 1]);
    }
  }

  lemma FiredKeeps(lists: seq<List>, k: nat, data: Data)
    requires k < |lists| && (lists[k].firing ==> lists[k].fired) && (lists[k].flags.once ==> lists[k].stack.None?)
    ensures var (m, begun) := Fired(lists[k], data);
            && m.firing == (lists[k].firing || begun) && (begun ==> !lists[k].firing)
            && Kept(lists, lists[k := m.(firing := lists[k].firing)])
            && (lists[k].entries.Some? ==> m.fired)
            && (begun <==> CanFire(lists[k]) && !lists[k].firing)
            && (begun ==> m.threw.None?)
            && if CanFire(lists[k]) then m.asked == lists[k].asked + [data] else m == lists[k]
  {
    KeptSame(lists);
    KeptSet(lists, lists, k, Fired(lists[k], data).0.(firing := lists[k].firing));
    hide Kept;
  }

  lemma CallGrows(l: List)
    requires AtEntry(l)
    ensures var m := RunNow(l);
            && Grown(l, m) && Tracked(l, m) && m.firing == l.firing && m.threw == l.threw && Stuck(m) == Stuck(l)
            && |m.history| > 0 && m.history[|m.history| - 1] == l.entries.value[l.firingIndex].token
  {}

  lemma AdvanceGrows(l: List)
    ensures Grown(l, Advance(l)) && Tracked(l, Advance(l)) && StaysStuck(l, Advance(l))
  {}

  lemma ThrownGrows(l: List, token: nat)
    ensures var m := Thrown(l, token);
            Grown(l, m) && Tracked(l, m) && m.firing == l.firing && m.threw.Some? && Stuck(m) == l.firing
  {}

  lemma EndedGrows(looped: List, l: List)
    requires l == looped || l == looped.(memory := None)
    ensures !Ended(l).firing && Grown(looped, Ended(l)) && StackSize(Ended(l)) <= StackSize(looped)
  {}

  lemma BeginGrows(l: List, data: Data)
    requires l.entries.Some? && !l.flags.once
    ensures var m := Begin(l, data);
            && m.firing && m.threw.None? && m.stack == l.stack
            && Grown(l, m.(firing := false)) && Grown(l.(stack := m.stack), m)
  {}

  lemma WholeEnded(looped: List, l: List, k: nat, cut: bool, calls: seq<Called>)
    requires if cut then l == looped.(memory := None) && l.flags.stopOnFalse && FalseBy(calls, k)
             else l == looped && Complete(l)
    ensures Whole(Ended(l), k, calls)
  {
    var m := Ended(l);
    assert m.ran == l.ran && m.due == l.due && m.skipped == l.skipped && m.flags == l.flags;
    assert m.missed == l.missed && (EntriesOf(m) == EntriesOf(l) || EntriesOf(m) == []);
    hide Ended, Rising, EntriesOf;
  }

  /** In a Deferred, asking one of the two lists to fire settles it, if it was not settled. */
  lemma FiredSettles(lists: seq<List>, settled: seq<Outcome>, me: nat)
    requires IsDeferred(lists, settled, -1) && me <= 1 && (lists[me].fired || lists[me].entries.None?)
    ensures settled != []
  {}

  lemma AskedSettles(was: seq<List>, before: seq<Outcome>, lists: seq<List>, settled: seq<Outcome>, me: nat)
    requires Inv(was, before, -1, true) && Inv(lists, settled, -1, true) && before <= settled && me <= 1
    requires was[me].entries.Some? ==> lists[me].fired
    ensures settled != []
  {
    if was[me].entries.None? {
      FiredSettles(was, before, me);
    } else {
      FiredSettles(lists, settled, me);
    }
  }

  /** Until the other side is settled a list takes additions. */
  lemma TakesAdditions(lists: seq<List>, settled: seq<Outcome>, me: nat)
    requires Inv(lists, settled, -1, true) && me <= 1 && (settled == [] || settled == [OutcomeOf(me)])
    ensures |lists| == 3 && lists[me].entries.Some? && !lists[me].flags.unique
  {}

  // ----- Deferred -----

  /** The callbacks a Deferred adds to one of its lists when it is made. */
  function OwnActions(me: nat): seq<Action> {
    [Settle(OutcomeOf(me)), Disable(OtherOf(me)), Lock(PROGRESS)]
  }

  /** The list of one of its sides. */
  function NewSide(me: nat): List {
    PushAll(NewList(ONCE_MEMORY), OwnActions(me))
  }

  const MEMORY := Flags(false, true, false, false)

  function NewDeferred(): seq<List> {
    [NewSide(DONE), NewSide(FAIL), NewList(MEMORY)]
  }

  lemma PushThree(l: List, a: Action, b: Action, c: Action)
    requires l.entries == Some([]) && l.next == 0 && !l.flags.unique && !l.firing
    ensures PushAll(l, [a, b, c]) == l.(entries := Some([Entry(0, a), Entry(1, b), Entry(2, c)]), next := 3)
  {
    var m := Push(Push(Push(l, a), b), c);
    assert m.entries.value == [Entry(0, a), Entry(1, b), Entry(2, c)];
    assert [a, b, c][..2] == [a, b] && [a, b][..1] == [a] && [a][..0] == [];
    assert PushAll(l, []) == l;
    assert PushAll(l, [a]) == Push(l, a);
    assert PushAll(l, [a, b]) == Push(Push(l, a), b);
    assert PushAll(l, [a, b, c]) == m;
  }

  /** Either list of a new Deferred. */
  lemma NewOnce(me: nat)
    requires me <= 1
    ensures var l := NewSide(me);
            && OnceList(l, me, 1) && Fine(l, 1) && !l.fired && !l.firing && l.history == [] && l.next == 3
            && l.entries.Some?
  {
    PushThree(NewList(ONCE_MEMORY), Settle(OutcomeOf(me)), Disable(OtherOf(me)), Lock(PROGRESS));
    hide PushAll, PartedAt;
  }

  lemma NewFine(flags: Flags)
    ensures Fine(NewList(flags), 1) && UsersOnly(NewList(flags)) && !NewList(flags).firing
  {}

  lemma NewDeferredInv()
    ensures Inv(NewDeferred(), [], -1, true) && |NewDeferred()| == 3
    ensures NewDeferred()[DONE].next == NewDeferred()[FAIL].next == 3
    ensures forall k :: 0 <= k < 3 ==> !NewDeferred()[k].firing
  {
    hide NewSide, NewList, OnceList, Fine, UsersOnly, Shut;
    NewOnce(DONE);
    NewOnce(FAIL);
    NewFine(MEMORY);
  }

  /** At every moment of every use, inside callbacks too: the state has changed at most once,
      callbacks of one side have run only, and those in the order they were added, each once. */
  lemma SettledOnce(lists: seq<List>, settled: seq<Outcome>, at: int)
    requires IsDeferred(lists, settled, at)
    ensures |settled| <= 1
    ensures lists[DONE].history == [] || lists[FAIL].history == []
    ensures Counted(lists[DONE].history) && Counted(lists[FAIL].history)
    ensures settled == [Resolved] <==> lists[DONE].history != []
    ensures settled == [Rejected] <==> lists[FAIL].history != []
  {}

  /** Once a Deferred is settled and its own callbacks have run, notifying it comes to nothing. */
  lemma SettledShuts(lists: seq<List>, settled: seq<Outcome>)
    requires IsDeferred(lists, settled, -1) && settled != []
    ensures lists[PROGRESS].entries.None? || (lists[PROGRESS].fired && lists[PROGRESS].stack.None?)
  {}

  /** deferred.notify when it is settled: no list changes, and no callback runs. */
  method NotifyLate(page: Page, data: Data)
    requires page.deferred && page.At(-1) && page.settled != []
    modifies page
    ensures page.lists == old(page.lists) && page.settled == old(page.settled) && page.At(-1)
  {
    hide Inv, ScriptAllowed, Kept, Told, Whole, PerformOneOf;
    InvMeans(page.lists, page.settled);
    SettledShuts(page.lists, page.settled);
    var thrown := page.FireWith(PROGRESS, data);
  }

  /** A list that was fired and then locked or disabled is never fired again, whatever is done. */
  lemma ShutForGood(was: seq<List>, lists: seq<List>, k: nat)
    requires Kept(was, lists) && k < |was| && was[k].fired && was[k].stack.None?
    ensures |lists| == |was| && Shut(lists[k])
  {}

  /** Of a list that is disabled, as by a lock before it was ever fired, nothing runs by any
      operation on it; and exactly by being emptied it becomes open again. */
  lemma DisabledUntilEmptied(s: State, op: Op)
    requires op.list < |s.lists| && s.lists[op.list].entries.None?
    ensures var (t, thrown) := PerformOneOf(s, op);
            && !thrown && t.settled == s.settled && t.script == s.script && t.calls == s.calls
            && t.lists == s.lists[op.list := t.lists[op.list]] && t.lists[op.list].history == s.lists[op.list].history
            && (t.lists[op.list].entries.Some? <==> op.Empty?)
  {
    if op.Remove? {
      RemovedNothing(s.lists[op.list], op.fns);
    }
    hide Waiting, RunOf;
  }

  lemma {:induction false} RemovedNothing(l: List, fns: seq<nat>)
    requires l.entries.None?
    ensures RemovedAll(l, fns) == l
  {
    if |fns| > 0 {
      RemovedNothing(l, fns[..|fns| - 1]);
    }
  }

  /** A callback on one side is called at most once, and then none of the other side ever is. */
  lemma CalledOnce(lists: seq<List>, settled: seq<Outcome>, at: int, me: nat, token: nat)
    requires IsDeferred(lists, settled, at) && me <= 1
    ensures var h := lists[me].history;
            && (forall i, j :: 0 <= i < |h| && 0 <= j < |h| && h[i] == token == h[j] ==> i == j)
            && (token in h ==> lists[OtherOf(me)].history == [])
  {
    SettledOnce(lists, settled, at);
  }

  /** Outside all callbacks a list is firing only where a callback of it has thrown. */
  ghost predicate Resting(lists: seq<List>) {
    forall k :: 0 <= k < |lists| && lists[k].firing ==> lists[k].threw.Some?
  }

  /** Nothing ever runs again of a list that a callback left by throwing, whatever is done. */
  lemma StuckForGood(was: seq<List>, lists: seq<List>, k: nat)
    requires Kept(was, lists) && k < |was| && was[k].firing && was[k].threw.Some?
    ensures |lists| == |was| && lists[k].firing && lists[k].history == was[k].history && lists[k].threw == was[k].threw
  {}

  lemma StaysResting(was: seq<List>, lists: seq<List>)
    requires Kept(was, lists) && Resting(was)
    ensures Resting(lists)
  {}

  /** What outside all callbacks holds of the side that a Deferred was settled to: every
      addition to it, before, during or after the settlement, has run once, in order, unless the
      list is stuck; then just those up to the one that threw have. */
  ghost predicate RunOnce(l: List, other: List) {
    && Counted(l.history) && other.history == [] && other.entries.None?
    && match l.threw
       case None => |l.history| == l.next && !l.firing
       case Some(token) => |l.history| == token + 1 <= l.next && l.firing
  }

  lemma SidesAtRest(lists: seq<List>, settled: seq<Outcome>)
    requires IsDeferred(lists, settled, -1) && Resting(lists)
    ensures settled == [Resolved] <==> lists[DONE].fired
    ensures settled == [Rejected] <==> lists[FAIL].fired
    ensures forall me :: 0 <= me <= 1 && settled == [OutcomeOf(me)] ==> RunOnce(lists[me], lists[OtherOf(me)])
    ensures settled == [] ==>
              forall me :: me == DONE || me == FAIL ==>
                && lists[me].history == [] && lists[me].entries.Some? && !lists[me].firing
                && |lists[me].entries.value| == lists[me].next
  {}

  function Start(script: seq<Reaction>): State {
    State(NewDeferred(), [], script, [])
  }

  /** A Deferred, outside all callbacks, after some use in which its callbacks did what the
      script says. */
  ghost predicate Reached(script: seq<Reaction>, t: State) {
    IsDeferred(t.lists, t.settled, -1) && Resting(t.lists) && Told(Start(script), t)
  }

  /** Whether a callback of list k has thrown that stands before this place of all additions. */
  predicate ThrewBefore(calls: seq<Called>, k: nat, place: nat) {
    exists i :: 0 <= i < |calls| && calls[i].thrown && calls[i].list == k && calls[i].token < place
  }

  predicate Calm(script: seq<Reaction>) {
    forall i :: 0 <= i < |script| ==> !script[i].ending.Throws?
  }

  /** The calls of a use of a Deferred tell of all its lists. */
  lemma NewQuiet()
    ensures |NewDeferred()| == 3 && forall k :: 0 <= k < 3 ==> !Stuck(NewDeferred()[k])
  {
    NewDeferredInv();
    hide NewDeferred, Inv;
  }

  lemma Telling(script: seq<Reaction>, t: State)
    requires Reached(script, t)
    ensures Plays(script, t.calls, t.script) && |t.lists| == 3
    ensures forall i :: 0 <= i < |t.calls| ==> t.calls[i].list < 3 && Fair(t.calls[i])
    ensures forall i :: 0 <= i < |t.calls| && t.calls[i].thrown && t.calls[i].list < 3 ==>
              t.lists[t.calls[i].list].threw == Some(t.calls[i].token)
    ensures forall k :: 0 <= k < 3 ==> (t.lists[k].firing <==> LeftBy(t.calls, k))
    ensures AnyLeft(t.calls) <==> AnyThrows(t.calls)
    ensures Calm(script) ==> !AnyThrows(t.calls)
  {
    NewQuiet();
    hide NewDeferred, IsDeferred;
    assert Fresh(Start(script), t) == t.calls;
    assert AnyThrows(t.calls) ==> AnyLeft(t.calls) by {
      if AnyThrows(t.calls) {
        var i :| 0 <= i < |t.calls| && t.calls[i].reaction.ending.Throws?;
        assert Fair(t.calls[i]);
      }
    }
    hide LeftBy, Told, Fresh;
  }

  /** Outside all callbacks: an addition to the settled side has run, once and in its turn, if
      and only if no callback threw that was added to it before; so all have if and only if none
      threw with another behind it. Of the other side nothing has run, and while pending nothing
      at all. */
  lemma AtRest(script: seq<Reaction>, t: State, me: nat)
    requires Reached(script, t) && me <= 1
    ensures |t.lists| == 3
    ensures t.settled != [OutcomeOf(me)] ==> t.lists[me].history == []
    ensures var l := t.lists[me];
            t.settled == [OutcomeOf(me)] ==>
              && Counted(l.history) && l.next > 0
              && (|l.history| == l.next <==> !ThrewBefore(t.calls, me, l.next - 1))
              && forall token: nat :: token in l.history <==> token < l.next && !ThrewBefore(t.calls, me, token)
  {
    SidesAtRest(t.lists, t.settled);
    SettledOnce(t.lists, t.settled, -1);
    Telling(script, t);
    SomeAdded(t.lists, t.settled, me);
    hide Reached, IsDeferred, Resting, Plays, AnyLeft, AnyThrows, Fair;
    var l := t.lists[me];
    if t.settled == [OutcomeOf(me)] {
      CountedIn(l.history);
      if l.threw.Some? {
        ThrewAt(t.calls, me, l.threw.value);
      } else {
        assert forall place :: !ThrewBefore(t.calls, me, place);
      }
      hide Counted, ThrewBefore, LeftBy;
    }
  }

  lemma CountedIn(history: seq<nat>)
    requires Counted(history)
    ensures forall token: nat :: token in history <==> token < |history|
  {
    forall token: nat | token < |history|
      ensures token in history
    {
      assert history[token] == token;
    }
  }

  lemma SomeAdded(lists: seq<List>, settled: seq<Outcome>, me: nat)
    requires IsDeferred(lists, settled, -1) && me <= 1
    ensures lists[me].next > 0
  {}

  lemma ThrewAt(calls: seq<Called>, k: nat, token: nat)
    requires LeftBy(calls, k)
    requires forall i :: 0 <= i < |calls| && calls[i].thrown && calls[i].list == k ==> calls[i].token == token
    ensures forall place :: ThrewBefore(calls, k, place) <==> token < place
  {
    var i :| 0 <= i < |calls| && calls[i].thrown && calls[i].list == k;
    forall place: nat | token < place
      ensures ThrewBefore(calls, k, place)
    {
      assert calls[i].token < place;
    }
  }

  /** So if nothing throws all have run; and if a callback that was called came to throw, some
      list is left firing. */
  lemma AllRun(script: seq<Reaction>, t: State)
    requires Reached(script, t)
    ensures Plays(script, t.calls, t.script)
    ensures |t.lists| == 3 && (AnyThrows(t.calls) <==> exists k :: 0 <= k < 3 && t.lists[k].firing)
    ensures !AnyThrows(t.calls) ==>
              forall me :: 0 <= me <= 1 && t.settled == [OutcomeOf(me)] ==> |t.lists[me].history| == t.lists[me].next
    ensures Calm(script) ==> !AnyThrows(t.calls)
  {
    Telling(script, t);
    SidesAtRest(t.lists, t.settled);
    hide Reached, IsDeferred, Resting, Plays, AnyThrows, Fair;
    if AnyLeft(t.calls) {
      var i :| 0 <= i < |t.calls| && t.calls[i].thrown;
      assert LeftBy(t.calls, t.calls[i].list);
    }
  }

  /** deferred.resolve and deferred.reject from outside all callbacks: the first of them in the
      life of a Deferred settles it, no later one changes anything about that. */
  method Conclude(page: Page, me: nat, data: Data) returns (thrown: bool)
    requires page.deferred && page.At(-1) && Resting(page.lists) && me <= 1
    modifies page
    ensures page.At(-1) && Resting(page.lists)
    ensures page.settled == if old(page.settled) == [] then [OutcomeOf(me)] else old(page.settled)
  {
    hide ScriptAllowed, OnceList, Crossed, AllFine, Kept, Resting;
    ghost var was := page.lists;
    SidesAtRest(page.lists, page.settled);
    FirstAsked(page.lists, page.settled, me);
    thrown := page.FireWith(me, data);
    StaysResting(was, page.lists);
    SidesAtRest(page.lists, page.settled);
    SettledOnce(page.lists, page.settled, -1);
    FirstFires(page.lists, page.settled, me);
  }

  lemma FirstAsked(lists: seq<List>, settled: seq<Outcome>, me: nat)
    requires IsDeferred(lists, settled, -1) && me <= 1
    ensures settled == [] ==> lists[me].entries.Some?
  {}

  lemma FirstFires(lists: seq<List>, settled: seq<Outcome>, me: nat)
    requires IsDeferred(lists, settled, -1) && me <= 1
    ensures lists[me].fired ==> settled == [OutcomeOf(me)]
  {}

  /** Each operation an event of its own, guarded by the page's event loop. */
  function Events(ops: seq<Op>): (acts: seq<Act>)
    ensures |acts| == |ops| && forall i :: 0 <= i < |ops| ==> acts[i] == Act(ops[i], true)
  {
    seq(|ops|, i requires 0 <= i < |ops| => Act(ops[i], true))
  }

  /** What a use of a new Deferred comes to. */
  function UseOf(ops: seq<Op>, script: seq<Reaction>): State {
    PerformOf(Start(script), Events(ops)).0
  }

  /** A whole use of a Deferred: the operations that come to be performed from outside, and
      whatever the callbacks do, throwing included. If one side was fired the Deferred is
      settled, once, and nothing of the other side has run; of the settled side every callback
      ever added has run exactly once, in the order of adding, if none throws, and else, as
      AtRest has it, exactly those up to the one that threw. */
  method Use(ops: seq<Op>, script: seq<Reaction>) returns (page: Page)
    requires AllAllowed(ops, 3, true) && ScriptAllowed(script, 3, true)
    ensures fresh(page) && page.deferred && page.At(-1) && page.Now() == UseOf(ops, script)
    ensures Reached(script, page.Now()) && |page.lists| == 3 && |page.settled| <= 1
    ensures (exists i :: 0 <= i < |ops| && Asks(ops[i])) ==> page.settled != []
    ensures Plays(script, page.calls, page.script)
    ensures AnyThrows(page.calls) <==> exists k :: 0 <= k < 3 && page.lists[k].firing
    ensures Calm(script) ==> !AnyThrows(page.calls)
    ensures forall me :: 0 <= me <= 1 && page.settled == [OutcomeOf(me)] ==>
              && RunOnce(page.lists[me], page.lists[OtherOf(me)]) && page.lists[me].next >= 3 + AddCount(ops, me)
              && (!AnyThrows(page.calls) ==> |page.lists[me].history| == page.lists[me].next)
  {
    NewDeferredInv();
    hide Inv, ScriptAllowed, NewDeferred, AllHeeded, AllAllowed, Kept, RunOnce, AddCount, Told, PerformOf, Reached,
         AnyThrows, Calm, IsDeferred, Resting, Plays;
    assert OpsOf(Events(ops)) == ops;
    page := new Page(NewDeferred(), true, script);
    var thrown := page.Perform(Events(ops));
    Concluded(ops, page.lists, page.settled);
    NowReached(script, page.Now());
    AllRun(script, page.Now());
  }

  lemma NowReached(script: seq<Reaction>, t: State)
    requires Inv(t.lists, t.settled, -1, true) && Resting(t.lists) && Told(Start(script), t)
    ensures Reached(script, t)
  {}

  lemma Concluded(ops: seq<Op>, lists: seq<List>, settled: seq<Outcome>)
    requires Inv(lists, settled, -1, true) && Kept(NewDeferred(), lists)
    requires AllHeeded(ops, NewDeferred(), lists, settled)
    ensures |lists| == 3 && Resting(lists) && |settled| <= 1
    ensures (exists i :: 0 <= i < |ops| && Asks(ops[i])) ==> settled != []
    ensures forall me :: 0 <= me <= 1 && settled == [OutcomeOf(me)] ==>
              RunOnce(lists[me], lists[OtherOf(me)]) && lists[me].next >= 3 + AddCount(ops, me)
  {
    hide *;
    InvMeans(lists, settled);
    NewRests();
    StaysResting(NewDeferred(), lists);
    SidesAtRest(lists, settled);
    HeededMeans(ops, lists, settled);
    SettledOnce(lists, settled, -1);
  }

  lemma InvMeans(lists: seq<List>, settled: seq<Outcome>)
    requires Inv(lists, settled, -1, true)
    ensures IsDeferred(lists, settled, -1) && |lists| == 3
  {}

  lemma NewRests()
    ensures Resting(NewDeferred())
  {
    NewDeferredInv();
  }

  lemma HeededMeans(ops: seq<Op>, lists: seq<List>, settled: seq<Outcome>)
    requires AllHeeded(ops, NewDeferred(), lists, settled)
    ensures |lists| == 3 && ((exists i :: 0 <= i < |ops| && Asks(ops[i])) ==> settled != [])
    ensures forall me :: 0 <= me <= 1 && settled == [OutcomeOf(me)] ==> lists[me].next >= 3 + AddCount(ops, me)
  {
    NewDeferredInv();
    hide NewDeferred, AddCount, Asks, OutcomeOf, Inv, Kept;
  }

  // ----- firings that nothing disturbs -----

  function TokensOn(e: seq<Entry>, from: nat): (tokens: seq<nat>)
    requires from <= |e|
    ensures |tokens| == |e| - from && forall i :: 0 <= i < |tokens| ==> tokens[i] == e[from + i].token
  {
    seq<nat>(|e| - from, i requires 0 <= i < |e| - from => e[from + i].token)
  }

  predicate AllUsers(e: seq<Entry>) {
    forall i :: 0 <= i < |e| ==> e[i].action.User?
  }

  /** What has changed of a state is list k, and callbacks were called that did nothing. */
  predicate OnlyList(s: State, t: State, k: nat, l: List) {
    && k < |s.lists| && t.lists == s.lists[k := l] && t.settled == s.settled && t.script == s.script == []
    && s.calls <= t.calls
  }

  /** The list when its loop has come to the end. */
  function RunThrough(l: List): (m: List)
    requires l.entries.Some? && 0 <= l.firingIndex <= |l.entries.value|
    ensures m.entries == l.entries && m.firingIndex == |l.entries.value| && m.firing == l.firing && m.threw == l.threw
  {
    var tokens := TokensOn(l.entries.value, l.firingIndex);
    l.(firingIndex := |l.entries.value|, ran := l.ran + tokens, history := l.history + tokens)
  }

  lemma RunThroughNext(l: List)
    requires l.entries.Some? && 0 <= l.firingIndex < |l.entries.value|
    ensures RunThrough(Advance(RunNow(l))) == RunThrough(l)
  {
    var e, i := l.entries.value, l.firingIndex;
    assert TokensOn(e, i) == [e[i].token] + TokensOn(e, i + 1);
    Joined(l.ran, e[i].token, TokensOn(e, i + 1));
    Joined(l.history, e[i].token, TokensOn(e, i + 1));
    hide TokensOn;
  }

  lemma Joined(a: seq<nat>, b: nat, c: seq<nat>)
    ensures a + [b] + c == a + ([b] + c)
  {}

  lemma RunThroughEnd(l: List)
    requires l.entries.Some? && l.firingIndex == |l.entries.value|
    ensures RunThrough(l) == l
  {
    assert TokensOn(l.entries.value, l.firingIndex) == [];
  }

  lemma {:induction false} UndisturbedLoop(s: State, k: nat)
    requires k < |s.lists| && s.script == [] && s.lists[k].entries.Some? && AllUsers(s.lists[k].entries.value)
    requires 0 <= s.lists[k].firingIndex <= s.lists[k].firingLength == |s.lists[k].entries.value|
    ensures LoopOf(s, k).1 == Over && OnlyList(s, LoopOf(s, k).0, k, RunThrough(s.lists[k]))
    decreases ToGo(s.lists[k])
  {
    var l := s.lists[k];
    hide LoopOf, CallOf, RunThrough, PerformOf;
    if l.firingIndex == l.firingLength {
      LoopStops(s, k);
      RunThroughEnd(l);
      assert s.lists[k := l] == s.lists;
    } else {
      LoopStep(s, k);
      CallStep(s, k);
      var t := Entered(s, k);
      var next := With(t, k, Advance(t.lists[k]));
      assert next.lists == s.lists[k := Advance(RunNow(l))];
      RunThroughNext(l);
      UndisturbedLoop(next, k);
      assert s.lists[k := Advance(RunNow(l))][k := RunThrough(l)] == s.lists[k := RunThrough(l)];
    }
  }

  /** What becomes of a list that has just begun to fire, when nothing disturbs it. */
  function FiredOut(l: List): List
    requires l.entries.Some? && 0 <= l.firingIndex <= |l.entries.value|
  {
    var m := RunThrough(l).(firing := false);
    if l.stack.Some? then m
    else if l.memory.Some? then m.(entries := Some([]))
    else m.(entries := None)
  }

  lemma EndedIs(l: List)
    requires l.entries.Some? && l.firing && l.firingIndex == |l.entries.value|
    requires l.stack.None? && l.memory.None? ==> Waiting(l.(firing := false)) == {}
    ensures Ended(l) == if l.stack.Some? then l.(firing := false)
                        else if l.memory.Some? then l.(firing := false, entries := Some([]))
                        else l.(firing := false, entries := None)
  {}

  lemma UndisturbedRun(s: State, k: nat)
    requires k < |s.lists| && s.script == [] && s.lists[k].entries.Some? && AllUsers(s.lists[k].entries.value)
    requires 0 <= s.lists[k].firingIndex <= s.lists[k].firingLength == |s.lists[k].entries.value|
    requires s.lists[k].firing && StackSize(s.lists[k]) == 0
    ensures var (t, thrown) := RunOf(s, k); !thrown && OnlyList(s, t, k, FiredOut(s.lists[k]))
  {
    var l := s.lists[k];
    UndisturbedLoop(s, k);
    EndedIs(RunThrough(l));
    var u := LoopOf(s, k).0;
    assert LoopEndOf(s, k) == (With(u, k, Ended(u.lists[k])), false);
    RunStep(s, k);
    assert u.lists[k := FiredOut(l)] == s.lists[k := FiredOut(l)];
    hide LoopOf, RunThrough, LoopEndOf, RunOf, Ended;
  }

  /** An idle list that can fire is fired with this: every callback of it has run once more, in
      order; it has its entries still if it can be fired again, none if it only remembers, and is
      disabled otherwise. */
  lemma FiresAll(s: State, k: nat, data: Data)
    requires k < |s.lists| && Fine(s.lists[k], 1) && !s.lists[k].firing && CanFire(s.lists[k]) && s.script == []
    requires AllUsers(s.lists[k].entries.value)
    ensures var l := s.lists[k];
            var (t, thrown) := PerformOneOf(s, Op.FireWith(k, data));
            && !thrown && k < |t.lists| && OnlyList(s, t, k, t.lists[k])
            && var m := t.lists[k];
            && m.history == l.history + TokensOn(l.entries.value, 0) && m.fires == l.fires + [data]
            && m.fired && !m.firing && m.next == l.next
            && m.memory == (if l.flags.memory then Some(data) else None)
            && m.entries == if l.stack.Some? then l.entries else if l.flags.memory then Some([]) else None
  {
    var l := s.lists[k];
    var (b, begun) := Fired(l, data);
    assert begun && b == Begin(Asked(l, data), data);
    assert b.firingIndex == 0 && b.firing && StackSize(b) == 0 && b.entries == l.entries
           && b.firingLength == |l.entries.value|;
    UndisturbedRun(With(s, k, b), k);
    assert PerformOneOf(s, Op.FireWith(k, data)) == RunOf(With(s, k, b), k);
    hide RunOf, Fine, TokensOn, TokensOf;
    assert s.lists[k := b][k := FiredOut(b)] == s.lists[k := FiredOut(b)];
  }

  /** To an idle list that remembers, additions are run at once, they alone and in order, with what
      it remembers. */
  lemma AddFires(s: State, k: nat, fns: seq<nat>)
    requires k < |s.lists| && Fine(s.lists[k], 1) && !s.lists[k].firing && s.lists[k].memory.Some? && s.script == []
    requires !s.lists[k].flags.unique && AllUsers(EntriesOf(s.lists[k]))
    ensures var l := s.lists[k];
            var (t, thrown) := PerformOneOf(s, Op.Add(k, fns));
            && !thrown && k < |t.lists| && OnlyList(s, t, k, t.lists[k])
            && var m := t.lists[k];
            && m.history == l.history + Numbers(l.next, |fns|) && m.next == l.next + |fns|
            && m.fires == l.fires + [l.memory.value] && m.memory == l.memory && !m.firing
  {
    var l := s.lists[k];
    var (b, begun) := Added(l, fns);
    AddedBegins(l, fns);
    UndisturbedRun(With(s, k, b), k);
    assert PerformOneOf(s, Op.Add(k, fns)) == RunOf(With(s, k, b), k);
    hide RunOf, Fine, TokensOn, Added, Numbers;
    assert s.lists[k := b][k := FiredOut(b)] == s.lists[k := FiredOut(b)];
  }

  function Numbers(from: nat, n: nat): (numbers: seq<nat>)
    ensures |numbers| == n && forall i :: 0 <= i < n ==> numbers[i] == from + i
  {
    seq<nat>(n, i requires 0 <= i < n => from + i)
  }

  lemma AddedBegins(l: List, fns: seq<nat>)
    requires Fine(l, 1) && !l.firing && l.memory.Some? && !l.flags.unique && AllUsers(EntriesOf(l))
    ensures var (b, begun) := Added(l, fns);
            && begun && b.entries.Some? && AllUsers(b.entries.value) && b.firing && StackSize(b) == 0
            && b.firingIndex == |EntriesOf(l)| <= |b.entries.value| == b.firingLength
            && TokensOn(b.entries.value, b.firingIndex) == Numbers(l.next, |fns|)
            && b.history == l.history && b.next == l.next + |fns| && b.fires == l.fires + [l.memory.value]
            && b.memory == l.memory
  {
    PushAllKeeps(l, Users(fns));
    PushedTail(l, fns);
    hide PushAll, TokensOf, Ordered, PartedAt, TokensOn, Numbers, AllUsers;
  }

  lemma PushedTail(l: List, fns: seq<nat>)
    requires l.entries.Some? && !l.flags.unique && AllUsers(l.entries.value)
    ensures var (e, f) := (l.entries.value, PushAll(l, Users(fns)).entries.value);
            && |f| >= |e| && AllUsers(f) && TokensOn(f, |e|) == Numbers(l.next, |fns|)
            && PushAll(l, Users(fns)).next == l.next + |fns|
  {
    PushAllAdds(l, fns);
    hide PushAll, Users;
    TokensOfNew(l.entries.value, l.next, fns);
  }

  function NewEntries(first: nat, fns: seq<nat>): (e: seq<Entry>)
    ensures |e| == |fns| && forall i :: 0 <= i < |fns| ==> e[i] == Entry(first + i, User(fns[i]))
  {
    seq(|fns|, i requires 0 <= i < |fns| => Entry(first + i, User(fns[i])))
  }

  lemma TokensOfNew(e: seq<Entry>, first: nat, fns: seq<nat>)
    requires AllUsers(e)
    ensures var f := e + NewEntries(first, fns);
            AllUsers(f) && TokensOn(f, |e|) == Numbers(first, |fns|)
  {}

  lemma {:induction false} PushAllAdds(l: List, fns: seq<nat>)
    requires l.entries.Some? && !l.flags.unique
    ensures var m := PushAll(l, Users(fns));
            m.entries.value == l.entries.value + NewEntries(l.next, fns) && m.next == l.next + |fns|
  {
    if |fns| == 0 {
      assert l.entries.value + NewEntries(l.next, fns) == l.entries.value;
    } else {
      var front, last := fns[..|fns| - 1], fns[|fns| - 1];
      PushAllAdds(l, front);
      assert Users(fns)[..|fns| - 1] == Users(front);
      PushAllKeeps(l, Users(front));
      var before := PushAll(l, Users(front));
      assert PushAll(l, Users(fns)) == Push(before, User(last));
      hide PushAll;
      assert NewEntries(l.next, fns) == NewEntries(l.next, front) + [Entry(l.next + |front|, User(last))];
      JoinedEntries(l.entries.value, NewEntries(l.next, front), [Entry(l.next + |front|, User(last))]);
    }
  }

  lemma JoinedEntries(a: seq<Entry>, b: seq<Entry>, c: seq<Entry>)
    ensures a + b + c == a + (b + c)
  {}

  // ----- what is added during a firing -----

  /** An addition during a firing is decided when it is made: when the firing is over it has
      run exactly if its place was beyond the index and nothing took it away before its turn. */
  lemma AdditionDecided(l: List, action: Action, end: List)
    requires l.entries.Some? && Fine(l, 1) && l.firing && !(l.flags.unique && Has(l.entries.value, action))
    requires Tracked(Push(l, action), end) && Complete(end)
    ensures l.next in end.ran <==> |l.entries.value| > l.firingIndex && l.next !in end.missed
  {
    assert Relength(l) == l;
    PushFine(l, action);
    PlacedFine(Relength(Push(l, action)));
    hide Fine, Rising;
  }

  /** No addition is both due and passed. */
  lemma PlacedFine(l: List)
    requires Fine(l, 1) && l.firing
    ensures l.due !! l.skipped
  {
    hide Rising, Ordered, InTail;
  }

  /** Functions as they come to a list that is empty: to a unique one each only once. */
  function Taken(fns: seq<nat>, unique: bool): (taken: seq<nat>)
    ensures !unique ==> taken == fns
  {
    if !unique || |fns| == 0 then fns
    else
      var front, fn := Taken(fns[..|fns| - 1], unique), fns[|fns| - 1];
      if fn in front then front else front + [fn]
  }

  /** The additions to a list that was emptied at this index: the firing will come to those
      beyond it and to none of the others. */
  ghost predicate AddedBeyond(m: List, first: nat, fns: seq<nat>, index: int) {
    && m.entries.Some? && |m.entries.value| == |fns| && m.next == first + |fns|
    && (forall i :: 0 <= i < |fns| ==> m.entries.value[i] == Entry(first + i, User(fns[i])))
    && (forall i :: 0 <= i < |fns| ==> (m.entries.value[i].token in m.due <==> i > index))
    && (forall t :: t in m.due ==> t < m.next)
    && (forall t :: t in m.missed ==> t < first)
  }

  lemma NextBeyond(m: List, first: nat, front: seq<nat>, fn: nat, index: int)
    requires AddedBeyond(m, first, front, index) && m.firing && m.firingIndex == index
    requires !(m.flags.unique && fn in front)
    ensures m.entries.Some? && AddedBeyond(Push(m, User(fn)), first, front + [fn], index)
  {
    assert Has(m.entries.value, User(fn)) ==> fn in front;
  }

  lemma AgainBeyond(m: List, first: nat, front: seq<nat>, fn: nat, index: int)
    requires AddedBeyond(m, first, front, index) && m.flags.unique && fn in front
    ensures m.entries.Some? && Push(m, User(fn)) == m
  {
    var i :| 0 <= i < |front| && front[i] == fn;
    assert m.entries.value[i].action == User(fn);
  }

  lemma EmptyBeyond(l: List)
    requires Fine(l, 1) && l.firing
    ensures AddedBeyond(Emptied(l), l.next, [], l.firingIndex)
  {
    hide *;
    ClearedFine(l);
    EmptiedIs(l);
    NothingLeft(Emptied(l));
    NoneBeyond(Emptied(l), l.firingIndex);
  }

  lemma NoneBeyond(m: List, index: int)
    requires m.entries == Some([]) && forall t :: t in m.due || t in m.missed ==> t < m.next
    ensures AddedBeyond(m, m.next, [], index)
  {}

  lemma NothingLeft(m: List)
    requires Fine(m, 1) && m.firing && m.entries == Some([])
    ensures forall t :: t in m.due || t in m.missed ==> t < m.next
  {
    hide Rising, Ordered;
  }

  lemma PushAllNext(l: List, fns: seq<nat>)
    requires l.entries.Some? && |fns| > 0
    ensures PushAll(l, Users(fns)) == Push(PushAll(l, Users(fns[..|fns| - 1])), User(fns[|fns| - 1]))
  {
    assert Users(fns)[..|fns| - 1] == Users(fns[..|fns| - 1]);
    hide Push;
  }

  lemma PushAllNothing(l: List)
    requires l.entries.Some?
    ensures PushAll(l, Users([])) == l
  {}

  lemma PushAllFires(l: List, fns: seq<nat>)
    requires l.entries.Some?
    ensures var m := PushAll(l, Users(fns));
            m.firing == l.firing && m.firingIndex == l.firingIndex && m.flags == l.flags
  {
    PushAllKeeps(l, Users(fns));
    hide PushAll, Users;
  }

  lemma EmptiedIs(l: List)
    ensures var m := Emptied(l);
            && m.entries == Some([]) && m.firing == l.firing && m.firingIndex == l.firingIndex
            && m.flags == l.flags && m.next == l.next
  {
    hide Waiting;
  }

  lemma TakenNone(unique: bool)
    ensures Taken([], unique) == []
  {}

  lemma TakenNext(fns: seq<nat>, unique: bool)
    requires |fns| > 0
    ensures var front, fn := Taken(fns[..|fns| - 1], unique), fns[|fns| - 1];
            Taken(fns, unique) == if unique && fn in front then front else front + [fn]
  {
    assert fns == fns[..|fns| - 1] + [fns[|fns| - 1]];
  }

  lemma {:induction false} AddedAfterEmptying(l: List, fns: seq<nat>)
    requires Fine(l, 1) && l.firing
    ensures Emptied(l).entries.Some?
    ensures AddedBeyond(PushAll(Emptied(l), Users(fns)), l.next, Taken(fns, l.flags.unique), l.firingIndex)
  {
    hide *;
    EmptiedIs(l);
    if |fns| == 0 {
      EmptyBeyond(l);
      PushAllNothing(Emptied(l));
      TakenNone(l.flags.unique);
      assert fns == [];
    } else {
      var front, fn := fns[..|fns| - 1], fns[|fns| - 1];
      AddedAfterEmptying(l, front);
      PushAllFires(Emptied(l), front);
      PushAllNext(Emptied(l), fns);
      var m, taken := PushAll(Emptied(l), Users(front)), Taken(front, l.flags.unique);
      TakenNext(fns, l.flags.unique);
      if l.flags.unique && fn in taken {
        AgainBeyond(m, l.next, taken, fn, l.firingIndex);
      } else {
        NextBeyond(m, l.next, taken, fn, l.firingIndex);
      }
    }
  }

  /** The list of a callback that empties it and then adds these, as its loop goes on. */
  function EmptiedAndAdded(l: List, fns: seq<nat>): (m: List)
    requires l.firingIndex + 1 >= 0
    ensures m.firingIndex >= 0 && m.entries.Some? && (l.firing ==> m.firingLength == |m.entries.value|)
  {
    PushAllKeeps(Emptied(l), Users(fns));
    Advance(Relength(PushAll(Emptied(l), Users(fns))))
  }

  /** When the rest of that firing runs out, with nothing else editing the list, it has run
      exactly those additions whose place is beyond the index at which the list was emptied. */
  lemma EmptySkips(l: List, fns: seq<nat>)
    requires Fine(l, 1) && l.firing
    ensures var (m, end) := (EmptiedAndAdded(l, fns), RunOut(EmptiedAndAdded(l, fns)));
            var taken := Taken(fns, l.flags.unique);
            && |m.entries.value| == |taken|
            && (forall i :: 0 <= i < |taken| ==> m.entries.value[i] == Entry(l.next + i, User(taken[i])))
            && (forall i :: 0 <= i < |taken| ==> (m.entries.value[i].token in end.ran <==> i > l.firingIndex))
  {
    IndexBounds(l);
    hide *;
    AddedAfterEmptying(l, fns);
    EmptiedAddedFine(l, fns);
    RunOutComplete(EmptiedAndAdded(l, fns));
    EmptiedAddedIs(l, fns);
    RunsBeyond(PushAll(Emptied(l), Users(fns)), EmptiedAndAdded(l, fns), RunOut(EmptiedAndAdded(l, fns)), l.next,
               Taken(fns, l.flags.unique), l.firingIndex);
  }

  lemma IndexBounds(l: List)
    requires Fine(l, 1) && l.firing
    ensures l.firingIndex + 1 >= 0
  {}

  lemma EmptiedAddedIs(l: List, fns: seq<nat>)
    requires l.firingIndex + 1 >= 0
    ensures Emptied(l).entries.Some?
    ensures var (p, m) := (PushAll(Emptied(l), Users(fns)), EmptiedAndAdded(l, fns));
            m.entries == p.entries && m.due == p.due && m.missed == p.missed && m.next == p.next
  {
    PushAllKeeps(Emptied(l), Users(fns));
    hide PushAll, Users, Emptied;
  }

  /** What a complete firing has run of the additions beyond an index. */
  lemma RunsBeyond(p: List, m: List, end: List, first: nat, fns: seq<nat>, index: int)
    requires AddedBeyond(p, first, fns, index) && Complete(end)
    requires m.entries == p.entries && m.due == p.due && m.missed == p.missed
    requires end.due == m.due && end.missed == m.missed
    ensures |m.entries.value| == |fns|
    ensures forall i :: 0 <= i < |fns| ==> m.entries.value[i] == Entry(first + i, User(fns[i]))
    ensures forall i :: 0 <= i < |fns| ==> (m.entries.value[i].token in end.ran <==> i > index)
  {
    hide Rising;
  }

  lemma EmptiedAddedFine(l: List, fns: seq<nat>)
    requires Fine(l, 1) && l.firing
    ensures Fine(EmptiedAndAdded(l, fns), 0) && EmptiedAndAdded(l, fns).firing
  {
    ClearedFine(l);
    PushAllKeeps(Emptied(l), Users(fns));
    EmptyRelength(l);
    PushAllFine(Emptied(l), Users(fns));
    AdvanceFine(Relength(PushAll(Emptied(l), Users(fns))));
    hide Fine, PushAll, Waiting;
  }

  lemma EmptyRelength(l: List)
    ensures Relength(Emptied(l)) == Emptied(l)
  {}

  // ----- a callback that throws -----

  function UpTo(n: nat): (tokens: seq<nat>)
    ensures |tokens| == n && forall k :: 0 <= k < n ==> tokens[k] == k
  {
    seq(n, k requires 0 <= k < n => k)
  }

  /** The done callbacks of a Deferred to which two were added. */
  function FiveEntries(f: nat, g: nat): seq<Entry> {
    [Entry(0, Settle(Resolved)), Entry(1, Disable(FAIL)), Entry(2, Lock(PROGRESS)),
     Entry(3, User(f)), Entry(4, User(g))]
  }

  /** Their list when n of them have been called. */
  function ListAt(f: nat, g: nat, data: Data, n: nat): List {
    List(ONCE_MEMORY, Some(FiveEntries(f, g)), None, Some(data), true, true, n, 5, 0, 5, UpTo(n), UpTo(n),
         TokensOf(FiveEntries(f, g)), {}, {}, [data], [data], None)
  }

  lemma Resolving(f: nat, g: nat, data: Data)
    ensures var (one, begun) := Added(NewDeferred()[DONE], [f]);
            var (two, again) := Added(one, [g]);
            !begun && !again && Fired(two, data) == (ListAt(f, g, data, 0), true)
  {
    hide TokensOf;
    PushThree(NewList(ONCE_MEMORY), Settle(Resolved), Disable(FAIL), Lock(PROGRESS));
    var l := NewDeferred()[DONE];
    var e := FiveEntries(f, g);
    var own := [Entry(0, Settle(Resolved)), Entry(1, Disable(FAIL)), Entry(2, Lock(PROGRESS))];
    assert l == NewList(ONCE_MEMORY).(entries := Some(own), next := 3);
    PushOne(l, f);
    var m := Added(l, [f]).0;
    PushOne(m, g);
    assert own + [Entry(3, User(f))] + [Entry(4, User(g))] == e;
    assert e[0..] == e && UpTo(0) == [];
    var two := Added(m, [g]).0;
    assert two.asked == [] && two.fires == [] && [] + [data] == [data];
  }

  lemma PushOne(l: List, f: nat)
    requires l.entries.Some? && !l.flags.unique && !l.firing && l.memory.None?
    ensures Added(l, [f]).0 == l.(entries := Some(l.entries.value + [Entry(l.next, User(f))]), next := l.next + 1)
  {
    assert Users([f])[..0] == [] && Users([f])[0] == User(f);
    assert PushAll(l, []) == l;
  }

  lemma OneTurn(s: State, f: nat, g: nat, data: Data, n: nat)
    requires |s.lists| == 3 && s.lists[DONE] == ListAt(f, g, data, n) && n < 3
    ensures var (lists, settled) := OwnCall(s.lists, s.settled, DONE);
            && lists[DONE] == ListAt(f, g, data, n + 1)
            && settled == s.settled + (if n == 0 then [Resolved] else [])
            && LoopOf(s, DONE) == LoopOf(s.(lists := lists, settled := settled), DONE)
  {
    hide TokensOf, LoopOf;
    LoopStep(s, DONE);
    assert FiveEntries(f, g)[n].token == n;
    assert UpTo(n) + [n] == UpTo(n + 1);
  }

  /** The call of a callback that throws. */
  lemma ThrowingTurn(s: State, f: nat, g: nat, data: Data)
    requires |s.lists| == 3 && s.lists[DONE] == ListAt(f, g, data, 3)
    requires s.script == [Reaction([], Throws)] && s.calls == []
    ensures var l := RunNow(ListAt(f, g, data, 3));
            LoopOf(s, DONE) == (State(s.lists[DONE := Thrown(l, 3)], s.settled, [],
                                      [Called(DONE, 3, Reaction([], Throws), true)]), Left)
  {
    hide TokensOf, LoopOf, CallOf, PerformOf;
    LoopStep(s, DONE);
    CallStep(s, DONE);
    PerformNothing(Entered(s, DONE));
    var l := ListAt(f, g, data, 3);
    assert l.entries.value[3] == Entry(3, User(f));
    assert s.lists[DONE := RunNow(l)][DONE := Thrown(RunNow(l), 3)] == s.lists[DONE := Thrown(RunNow(l), 3)];
    var call := Called(DONE, 3, Reaction([], Throws), false);
    assert Entered(s, DONE) == State(s.lists[DONE := RunNow(l)], s.settled, [], [call]);
    assert [call][0 := call.(thrown := true)] == [call.(thrown := true)];
    assert LoopOf(s, DONE) == (LeftAt(Entered(s, DONE), DONE, 0), Left);
  }

  /** The loop that comes to call it. */
  lemma ThrowingLoop(s: State, f: nat, g: nat, data: Data)
    requires |s.lists| == 3 && s.lists[DONE] == ListAt(f, g, data, 0)
    requires s.script == [Reaction([], Throws)] && s.calls == [] && s.settled == []
    ensures var (t, end) := LoopOf(s, DONE);
            && end == Left && |t.lists| == 3 && t.lists[DONE] == Thrown(RunNow(ListAt(f, g, data, 3)), 3)
            && t.settled == [Resolved] && t.script == [] && t.calls == [Called(DONE, 3, Reaction([], Throws), true)]
  {
    hide TokensOf, LoopOf, OwnCall, RunNow, Thrown;
    OneTurn(s, f, g, data, 0);
    var (a, now) := OwnCall(s.lists, s.settled, DONE);
    var one := s.(lists := a, settled := now);
    OneTurn(one, f, g, data, 1);
    var (b, still) := OwnCall(one.lists, one.settled, DONE);
    var two := one.(lists := b, settled := still);
    OneTurn(two, f, g, data, 2);
    var (c, last) := OwnCall(two.lists, two.settled, DONE);
    ThrowingTurn(two.(lists := c, settled := last), f, g, data);
  }

  /** d.done(f), d.done(g), d.resolve(data), where f throws: resolved for good, g has not run,
      and by no later use of the Deferred will it, nor anything that is added. */
  lemma ThrowLosesRest(f: nat, g: nat, data: Data)
    ensures var t := UseOf([Add(DONE, [f]), Add(DONE, [g]), FireWith(DONE, data)], [Reaction([], Throws)]);
            && |t.lists| == 3 && t.settled == [Resolved]
            && t.lists[DONE].history == [0, 1, 2, 3] && t.lists[DONE].next == 5
            && t.lists[DONE].entries == Some(FiveEntries(f, g))
            && t.calls == [Called(DONE, 3, Reaction([], Throws), true)]
            && forall later: seq<List> :: Kept(t.lists, later) ==> |later| == 3 && later[DONE].history == [0, 1, 2, 3]
  {
    var script := [Reaction([], Throws)];
    var ops := [Add(DONE, [f]), Add(DONE, [g]), FireWith(DONE, data)];
    Resolving(f, g, data);
    ThreeEvents(Start(script), Events(ops), f, g, data);
    hide TokensOf, Added, Fired, NewDeferred, LoopOf, PerformOf, FiveEntries, UpTo;
    StartLists();
    ThrowingLoop(Start(script).(lists := NewDeferred()[DONE := ListAt(f, g, data, 0)]), f, g, data);
    var l := Thrown(RunNow(ListAt(f, g, data, 3)), 3);
    assert UpTo(3) + [3] == [0, 1, 2, 3];
    assert l.history == [0, 1, 2, 3] && l.firing && l.threw.Some?;
    var t := UseOf(ops, script);
    forall later: seq<List> | Kept(t.lists, later)
      ensures |later| == 3 && later[DONE].history == l.history
    {
      StuckForGood(t.lists, later, DONE);
    }
  }

  lemma StartLists()
    ensures |NewDeferred()| == 3
  {}

  /** Two additions that begin no firing, and one that is left by a callback. */
  lemma ThreeEvents(s: State, acts: seq<Act>, f: nat, g: nat, data: Data)
    requires |s.lists| == 3 && acts == Events([Add(DONE, [f]), Add(DONE, [g]), FireWith(DONE, data)])
    requires !Added(s.lists[DONE], [f]).1 && !Added(Added(s.lists[DONE], [f]).0, [g]).1
    requires Fired(Added(Added(s.lists[DONE], [f]).0, [g]).0, data).1
    ensures var two := Added(Added(s.lists[DONE], [f]).0, [g]).0;
            var u := s.(lists := s.lists[DONE := Fired(two, data).0]);
            LoopOf(u, DONE).1 == Left ==> PerformOf(s, acts) == (LoopOf(u, DONE).0, false)
  {
    hide Added, Fired, LoopOf, PerformOf;
    var one := With(s, DONE, Added(s.lists[DONE], [f]).0);
    var two := With(one, DONE, Added(one.lists[DONE], [g]).0);
    assert acts[0..] == acts;
    PerformNext(s, acts, 0);
    PerformNext(one, acts, 1);
    PerformNext(two, acts, 2);
    assert acts[3..] == [];
    var u := With(two, DONE, Fired(two.lists[DONE], data).0);
    assert u == s.(lists := s.lists[DONE := u.lists[DONE]]);
    RunStep(u, DONE);
    if LoopOf(u, DONE).1 == Left {
      PerformNothing(LoopOf(u, DONE).0);
    }
  }
}
