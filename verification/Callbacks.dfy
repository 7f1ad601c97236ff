/** jQuery.Callbacks: lists of callbacks that may edit the very list that is firing them. One
    list is a record of the variables its closure keeps; callbacks and lists live in a Page,
    where a callback may act on any of the lists. */
module Callbacks {
  import opened Options

  datatype Flags = Flags(once: bool, memory: bool, unique: bool, stopOnFalse: bool)

  datatype Outcome = Resolved | Rejected

  /** A callback: one of the page's functions, or one of those a Deferred adds to its lists. */
  datatype Action = User(fn: nat) | Settle(outcome: Outcome) | Disable(list: nat) | Lock(list: nat)

  /** An addition to a list has its own number, so that a function added twice is told apart. */
  datatype Entry = Entry(token: nat, action: Action)

  type Data = nat

  /** The fields up to firingStart are the closure's; the others are history: how many
      additions there were, the entries run in all and in the latest firing, the entries that
      firing was to run, those of them that were removed, emptied or disabled before their
      turn, those that were added at a place the firing had passed, the data of all firings, the
      data that firings were asked for with, and the entry whose callback left the latest firing
      by throwing. */
  datatype List = List(
    flags: Flags,
    entries: Option<seq<Entry>>,
    stack: Option<seq<Data>>,
    memory: Option<Data>,
    fired: bool,
    firing: bool,
    firingIndex: int,
    firingLength: int,
    firingStart: nat,
    next: nat,
    history: seq<nat>,
    ran: seq<nat>,
    due: set<nat>,
    missed: set<nat>,
    skipped: set<nat>,
    fires: seq<Data>,
    asked: seq<Data>,
    threw: Option<nat>)

  function NewList(flags: Flags): List {
    List(flags, Some([]), if flags.once then None else Some([]), None, false, false, 0, 0, 0,
         0, [], [], {}, {}, {}, [], [], None)
  }

  // ----- what holds of a list -----

  ghost predicate Rising(tokens: seq<nat>) {
    forall i, j :: 0 <= i < j < |tokens| ==> tokens[i] < tokens[j]
  }

  ghost predicate Ordered(e: seq<Entry>, next: nat) {
    && (forall i, j :: 0 <= i < j < |e| ==> e[i].token < e[j].token)
    && (forall i :: 0 <= i < |e| ==> e[i].token < next)
  }

  ghost predicate InTail(e: seq<Entry>, b: int, token: nat) {
    exists i :: 0 <= b <= i < |e| && e[i].token == token
  }

  function EntriesOf(l: List): seq<Entry> {
    if l.entries.Some? then l.entries.value else []
  }

  /** Of the entries a firing is to run, each has been run, or was taken away before its turn,
      or stands at place b or later; what was added before place b is not among them. */
  ghost predicate PartedAt(e: seq<Entry>, b: int, next: nat, ran: seq<nat>, due: set<nat>, missed: set<nat>,
                           skipped: set<nat>)
  {
    && 0 <= b && Rising(ran)
    && (forall i :: 0 <= i < |ran| ==> ran[i] in due && ran[i] < next && ran[i] !in missed)
    && (forall i :: b <= i < |e| ==> e[i].token in due)
    && (forall i :: 0 <= i < |e| ==> e[i].token !in missed)
    && (forall i, j :: b <= i < |e| && 0 <= j < |ran| ==> ran[j] < e[i].token)
    && (forall t :: t in missed ==> t in due && t < next)
    && (forall t :: t in skipped ==> t !in due && t < next)
    && (forall t :: t in due ==> t in ran || t in missed || InTail(e, b, t))
  }

  ghost predicate Parted(l: List, b: int) {
    PartedAt(EntriesOf(l), b, l.next, l.ran, l.due, l.missed, l.skipped)
  }

  /** What a list remembers is what the latest of its firings had; and firings follow in the
      order in which they were asked for. */
  ghost predicate Remembers(l: List) {
    && (l.fired <==> l.fires != []) && (l.flags.once ==> l.stack.None?) && (l.entries.None? ==> l.memory.None?)
    && (l.memory.Some? ==> l.flags.memory && l.fires != [] && l.memory.value == l.fires[|l.fires| - 1])
    && (l.stack.Some? ==> l.entries.Some? && l.asked == l.fires + l.stack.value)
  }

  function StackSize(l: List): nat {
    if l.stack.Some? then |l.stack.value| else 0
  }

  /** The list between two turns of its loop (step 0), or while a callback runs (step 1). */
  ghost predicate Fine(l: List, step: nat) {
    && l.firingStart == 0 && Ordered(EntriesOf(l), l.next) && Remembers(l)
    && (l.firing ==> l.fired && l.firingIndex + step >= 0 && Parted(l, l.firingIndex + step))
    && (l.firing && l.entries.Some? ==> l.firingLength == |l.entries.value|)
    && (!l.firing && step > 0 ==> StackSize(l) == 0)
  }

  // ----- adding -----

  predicate Has(e: seq<Entry>, action: Action) {
    exists i :: 0 <= i < |e| && e[i].action == action
  }

  /** A firing list will come to the new entry, unless it has been emptied and has not grown
      beyond the index since. */
  function Push(l: List, action: Action): List
    requires l.entries.Some?
  {
    if l.flags.unique && Has(l.entries.value, action) then l
    else
      var passed := |l.entries.value| <= l.firingIndex;
      l.(entries := Some(l.entries.value + [Entry(l.next, action)]),
         next := l.next + 1,
         due := if l.firing && !passed then l.due + {l.next} else l.due,
         skipped := if l.firing && passed then l.skipped + {l.next} else l.skipped)
  }

  function PushAll(l: List, actions: seq<Action>): (m: List)
    requires l.entries.Some?
    ensures m.entries.Some? && |m.entries.value| >= |l.entries.value|
  {
    if |actions| == 0 then l else Push(PushAll(l, actions[..|actions| - 1]), actions[|actions| - 1])
  }

  /** The firing batch takes in what was added. */
  function Relength(l: List): List
    requires l.entries.Some?
  {
    if l.firing then l.(firingLength := |l.entries.value|) else l
  }

  lemma TailGrows(e: seq<Entry>, b: int, entry: Entry)
    requires 0 <= b
    ensures forall t :: InTail(e, b, t) ==> InTail(e + [entry], b, t)
    ensures b <= |e| ==> InTail(e + [entry], b, entry.token)
  {
    var f := e + [entry];
    assert f[|e|] == entry;
    forall t: nat | InTail(e, b, t)
      ensures InTail(f, b, t)
    {
      var i :| 0 <= b <= i < |e| && e[i].token == t;
      assert f[i] == e[i];
    }
  }

  lemma GrownParted(e: seq<Entry>, b: int, entry: Entry, ran: seq<nat>, due: set<nat>, missed: set<nat>,
                    skipped: set<nat>)
    requires Ordered(e, entry.token) && PartedAt(e, b, entry.token, ran, due, missed, skipped)
    ensures Ordered(e + [entry], entry.token + 1)
    ensures if b <= |e| then PartedAt(e + [entry], b, entry.token + 1, ran, due + {entry.token}, missed, skipped)
            else PartedAt(e + [entry], b, entry.token + 1, ran, due, missed, skipped + {entry.token})
  {
    TailGrows(e, b, entry);
    hide InTail, Rising;
    assert entry.token !in due;
  }

  lemma PushFine(l: List, action: Action)
    requires l.entries.Some? && Fine(Relength(l), 1)
    ensures Fine(Relength(Push(l, action)), 1)
  {
    var e, m := l.entries.value, Push(l, action);
    hide PartedAt, Ordered, Has;
    if m != l && l.firing {
      GrownParted(e, l.firingIndex + 1, Entry(l.next, action), l.ran, l.due, l.missed, l.skipped);
    } else if m != l {
      OrderedMore(e, Entry(l.next, action));
    }
  }

  lemma OrderedMore(e: seq<Entry>, entry: Entry)
    requires Ordered(e, entry.token)
    ensures Ordered(e + [entry], entry.token + 1)
  {}

  lemma {:induction false} PushAllFine(l: List, actions: seq<Action>)
    requires l.entries.Some? && Fine(Relength(l), 1)
    ensures Fine(Relength(PushAll(l, actions)), 1)
  {
    if |actions| > 0 {
      PushAllFine(l, actions[..|actions| - 1]);
      PushFine(PushAll(l, actions[..|actions| - 1]), actions[|actions| - 1]);
    }
  }

  // ----- removing -----

  /** list.splice(i, 1). */
  function Spliced(e: seq<Entry>, i: nat): seq<Entry>
    requires i < |e|
  {
    e[..i] + e[i + 1..]
  }

  /** The list without the entry at i; while it fires, its indices are repaired. */
  function RemoveAt(l: List, i: nat): List
    requires l.entries.Some? && i < |l.entries.value|
  {
    var e := l.entries.value;
    l.(entries := Some(Spliced(e, i)),
       firingLength := if l.firing && i <= l.firingLength then l.firingLength - 1 else l.firingLength,
       firingIndex := if l.firing && i <= l.firingIndex then l.firingIndex - 1 else l.firingIndex,
       missed := if l.firing && i > l.firingIndex then l.missed + {e[i].token} else l.missed)
  }

  lemma OrderedWithout(e: seq<Entry>, next: nat, i: nat)
    requires Ordered(e, next) && i < |e|
    ensures Ordered(Spliced(e, i), next)
  {}

  /** What is left of the tail when an entry goes. */
  lemma TailShrinks(e: seq<Entry>, b: int, i: nat)
    requires i < |e| && 0 <= b
    ensures i < b ==> forall t :: InTail(e, b, t) ==> InTail(Spliced(e, i), b - 1, t)
    ensures i >= b ==> forall t :: InTail(e, b, t) && t != e[i].token ==> InTail(Spliced(e, i), b, t)
  {
    var f := Spliced(e, i);
    forall t | InTail(e, b, t) && (i < b || t != e[i].token)
      ensures InTail(f, if i < b then b - 1 else b, t)
    {
      var k :| 0 <= b <= k < |e| && e[k].token == t;
      if k < i {
        assert f[k] == e[k];
      } else {
        assert f[k - 1] == e[k];
      }
    }
  }

  lemma RemoveAtFine(l: List, i: nat)
    requires l.entries.Some? && i < |l.entries.value| && Fine(l, 1)
    ensures Fine(RemoveAt(l, i), 1)
  {
    var e := l.entries.value;
    OrderedWithout(e, l.next, i);
    if l.firing {
      RemovedParted(l, i);
    }
    hide Parted, Ordered;
  }

  /** Entry o of a list, wherever it stands once entry i is gone. */
  function Shifted(o: int, i: int): int {
    if o < i then o else o + 1
  }

  lemma RemovedEntries(e: seq<Entry>, i: nat)
    requires i < |e|
    ensures var f := Spliced(e, i);
            |f| == |e| - 1 && forall k :: 0 <= k < |f| ==> f[k] == e[Shifted(k, i)]
  {}

  lemma PartedIs(l: List, b: int)
    ensures Parted(l, b) <==> PartedAt(EntriesOf(l), b, l.next, l.ran, l.due, l.missed, l.skipped)
  {}

  /** What RemoveAt leaves of a firing list. */
  lemma RemovedFields(l: List, i: nat)
    requires l.entries.Some? && i < |l.entries.value| && l.firing && l.firingLength == |l.entries.value|
    ensures var m := RemoveAt(l, i);
            && EntriesOf(m) == Spliced(l.entries.value, i) && EntriesOf(l) == l.entries.value
            && m.next == l.next && m.ran == l.ran && m.due == l.due && m.skipped == l.skipped
            && m.firingIndex == (if i <= l.firingIndex then l.firingIndex - 1 else l.firingIndex)
            && m.missed == if i <= l.firingIndex then l.missed else l.missed + {l.entries.value[i].token}
  {
    hide Spliced;
  }

  lemma RemovedParted(l: List, i: nat)
    requires l.entries.Some? && i < |l.entries.value| && l.firing && Ordered(l.entries.value, l.next)
    requires Parted(l, l.firingIndex + 1) && l.firingLength == |l.entries.value|
    ensures Parted(RemoveAt(l, i), RemoveAt(l, i).firingIndex + 1)
  {
    hide *;
    var e, b, m := l.entries.value, l.firingIndex + 1, RemoveAt(l, i);
    PartedIs(l, b);
    RemovedFields(l, i);
    if i <= l.firingIndex {
      RemovedBefore(e, b, i, l.next, l.ran, l.due, l.missed, l.skipped);
    } else {
      RemovedAfter(e, b, i, l.next, l.ran, l.due, l.missed, l.skipped);
    }
    PartedIs(m, m.firingIndex + 1);
  }

  lemma RemovedBefore(e: seq<Entry>, b: int, i: nat, next: nat, ran: seq<nat>, due: set<nat>, missed: set<nat>,
                      skipped: set<nat>)
    requires i < |e| && i < b && PartedAt(e, b, next, ran, due, missed, skipped)
    ensures PartedAt(Spliced(e, i), b - 1, next, ran, due, missed, skipped)
  {
    TailShrinks(e, b, i);
    RemovedEntries(e, i);
    hide InTail, Rising;
    var f := Spliced(e, i);
    assert forall k :: b - 1 <= k < |f| ==> Shifted(k, i) >= b;
  }

  lemma RemovedAfter(e: seq<Entry>, b: int, i: nat, next: nat, ran: seq<nat>, due: set<nat>, missed: set<nat>,
                     skipped: set<nat>)
    requires b <= i < |e| && Ordered(e, next) && PartedAt(e, b, next, ran, due, missed, skipped)
    ensures PartedAt(Spliced(e, i), b, next, ran, due, missed + {e[i].token}, skipped)
  {
    TailShrinks(e, b, i);
    RemovedEntries(e, i);
    var token := e[i].token;
    assert token !in ran && token in due && token < next;
    assert forall k :: 0 <= k < |e| && k != i ==> e[k].token != token;
    hide InTail, Rising, Ordered;
    var f := Spliced(e, i);
    assert forall k :: b <= k < |f| ==> Shifted(k, i) >= b;
    assert forall k :: 0 <= k < |f| ==> f[k].token != token;
  }

  /** The list without any entry of this action. */
  function Without(e: seq<Entry>, action: Action): seq<Entry> {
    if |e| == 0 then []
    else Without(e[..|e| - 1], action) + if e[|e| - 1].action == action then [] else [e[|e| - 1]]
  }

  lemma {:induction false} WithoutConcat(e: seq<Entry>, f: seq<Entry>, action: Action)
    ensures Without(e + f, action) == Without(e, action) + Without(f, action)
  {
    if |f| == 0 {
      assert e + f == e;
    } else {
      WithoutConcat(e, f[..|f| - 1], action);
      assert (e + f)[..|e| + |f| - 1] == e + f[..|f| - 1];
    }
  }

  lemma WithoutOne(e: seq<Entry>, i: nat, action: Action)
    requires i < |e| && e[i].action == action
    ensures Without(Spliced(e, i), action) == Without(e, action)
  {
    assert e == e[..i] + [e[i]] + e[i + 1..];
    WithoutConcat(e[..i] + [e[i]], e[i + 1..], action);
    WithoutConcat(e[..i], [e[i]], action);
    WithoutConcat(e[..i], e[i + 1..], action);
    assert Without([e[i]], action) == [];
  }

  lemma {:induction false} WithoutNone(e: seq<Entry>, action: Action)
    requires !Has(e, action)
    ensures Without(e, action) == e
  {
    if |e| > 0 {
      WithoutNone(e[..|e| - 1], action);
    }
  }

  /** jQuery.inArray from a start index, for the entries' actions. */
  method InArray(action: Action, e: seq<Entry>, start: nat) returns (index: int)
    requires start <= |e|
    ensures -1 <= index < |e| && (index >= 0 ==> index >= start && e[index].action == action)
    ensures index < 0 ==> forall i :: start <= i < |e| ==> e[i].action != action
    ensures forall i :: start <= i < index ==> e[i].action != action
  {
    for i := start to |e|
      invariant forall k :: start <= k < i ==> e[k].action != action
    {
      if e[i].action == action {
        return i;
      }
    }
    return -1;
  }

  /** Entries may have gone, and what was still to run of them was missed; all else is as it was. */
  ghost predicate Edited(l: List, m: List) {
    && m == l.(entries := m.entries, firingIndex := m.firingIndex, firingLength := m.firingLength, missed := m.missed)
    && l.missed <= m.missed
  }

  lemma EditedSame(l: List)
    ensures Edited(l, l)
  {}

  lemma EditedMore(l: List, m: List, i: nat)
    requires Edited(l, m) && m.entries.Some? && i < |m.entries.value|
    ensures Edited(l, RemoveAt(m, i)) && RemoveAt(m, i).entries == Some(Spliced(m.entries.value, i))
  {
    hide Spliced;
  }

  /** The place of the first entry of this action. */
  function FirstOf(e: seq<Entry>, action: Action): (i: nat)
    requires Has(e, action)
    ensures i < |e| && e[i].action == action
  {
    if e[0].action == action then 0
    else
      assert Has(e[1..], action) by {
        var k :| 0 <= k < |e| && e[k].action == action;
        assert e[1..][k - 1] == e[k];
      }
      1 + FirstOf(e[1..], action)
  }

  lemma {:induction false} FirstOfIs(e: seq<Entry>, action: Action, i: nat)
    requires i < |e| && e[i].action == action && forall k :: 0 <= k < i ==> e[k].action != action
    ensures Has(e, action) && FirstOf(e, action) == i
  {
    if i > 0 {
      FirstOfIs(e[1..], action, i - 1);
    }
  }

  /** The list without its entries of this action, taken out from the first on. */
  function Removed(l: List, action: Action): List
    decreases |EntriesOf(l)|
  {
    if l.entries.None? || !Has(l.entries.value, action) then l
    else Removed(RemoveAt(l, FirstOf(l.entries.value, action)), action)
  }

  /** The loop of remove for one argument: every entry of this action goes, the others keep
      their order, and what has been run and what is still to run stays told apart. */
  method RemoveOne(l: List, action: Action) returns (m: List)
    requires Fine(l, 1)
    ensures m == Removed(l, action) && Fine(m, 1) && Edited(l, m)
    ensures m.entries == if l.entries.Some? then Some(Without(l.entries.value, action)) else None
  {
    hide Fine, Without, Edited, RemoveAt;
    m := l;
    EditedSame(l);
    if l.entries.None? {
      return;
    }
    var start := 0;
    while true
      invariant m.entries.Some? && start <= |m.entries.value| && Fine(m, 1) && Edited(l, m)
      invariant forall i :: 0 <= i < start ==> m.entries.value[i].action != action
      invariant Removed(m, action) == Removed(l, action)
      invariant Without(m.entries.value, action) == Without(l.entries.value, action)
      decreases |m.entries.value|
    {
      var index := InArray(action, m.entries.value, start);
      if index < 0 {
        WithoutNone(m.entries.value, action);
        return;
      }
      FirstOfIs(m.entries.value, action, index);
      RemoveAtFine(m, index);
      EditedMore(l, m, index);
      WithoutOne(m.entries.value, index, action);
      m := RemoveAt(m, index);
      start := index;
    }
  }

  // ----- firing -----

  function TokensOf(e: seq<Entry>): set<nat> {
    set i | 0 <= i < |e| :: e[i].token
  }

  /** The entries from a place on. */
  function From(e: seq<Entry>, start: nat): seq<Entry> {
    if start <= |e| then e[start..] else []
  }

  /** The beginning of fire, up to its loop. */
  function Begin(l: List, data: Data): List
    requires l.entries.Some?
  {
    l.(memory := if l.flags.memory then Some(data) else None,
       fired := true,
       firingIndex := l.firingStart,
       firingStart := 0,
       firingLength := |l.entries.value|,
       firing := true,
       ran := [],
       due := TokensOf(From(l.entries.value, l.firingStart)),
       missed := {},
       skipped := {},
       fires := l.fires + [data],
       threw := None)
  }

  predicate More(l: List) {
    l.entries.Some? && l.firingIndex < l.firingLength
  }

  /** The callback at the firing index is called. */
  function RunNow(l: List): List
    requires l.entries.Some? && 0 <= l.firingIndex < |l.entries.value|
  {
    var token := l.entries.value[l.firingIndex].token;
    l.(ran := l.ran + [token], history := l.history + [token])
  }

  /** The callback that was called throws: the loop is left as it stands, still firing. */
  function Thrown(l: List, token: nat): List {
    l.(threw := Some(token))
  }

  function Advance(l: List): List {
    l.(firingIndex := l.firingIndex + 1)
  }

  /** The entries that a firing has not come to. */
  function Waiting(l: List): set<nat> {
    if l.firing && 0 <= l.firingIndex + 1 <= |EntriesOf(l)| then TokensOf(EntriesOf(l)[l.firingIndex + 1..]) else {}
  }

  function Emptied(l: List): List {
    l.(entries := Some([]), firingLength := 0, missed := l.missed + Waiting(l))
  }

  function Disabled(l: List): List {
    l.(entries := None, stack := None, memory := None, missed := l.missed + Waiting(l))
  }

  function Locked(l: List): List {
    if l.memory.None? then Disabled(l) else l.(stack := None)
  }

  /** After the loop, a list that is neither stacked nor disabled by its own options forgets
      its entries or is disabled. */
  function Ended(l: List): List {
    var m := l.(firing := false);
    if m.entries.None? || m.stack.Some? then m
    else if m.memory.Some? then m.(entries := Some([])) else Disabled(m)
  }

  lemma TailTokens(e: seq<Entry>, b: nat)
    requires b <= |e|
    ensures forall t :: InTail(e, b, t) <==> t in TokensOf(e[b..])
  {
    forall t
      ensures InTail(e, b, t) <==> t in TokensOf(e[b..])
    {
      if InTail(e, b, t) {
        var i :| b <= i < |e| && e[i].token == t;
        assert e[b..][i - b].token == t;
      }
      if t in TokensOf(e[b..]) {
        var i :| 0 <= i < |e[b..]| && e[b..][i].token == t;
        assert e[b + i].token == t;
      }
    }
  }

  lemma BeginFine(l: List, data: Data)
    requires l.entries.Some? && l.firingStart <= |l.entries.value| && Ordered(l.entries.value, l.next)
    requires (l.flags.once ==> l.stack.None?) && (l.stack.Some? ==> l.asked == l.fires + [data] + l.stack.value)
    ensures Fine(Begin(l, data), 0)
  {
    var e, b := l.entries.value, l.firingStart;
    TailTokens(e, b);
    assert forall i :: b <= i < |e| ==> InTail(e, b, e[i].token);
    hide InTail, TokensOf;
  }

  /** Taking away all entries leaves nothing of the tail. */
  lemma ClearedParted(e: seq<Entry>, b: int, next: nat, ran: seq<nat>, due: set<nat>, missed: set<nat>,
                      skipped: set<nat>)
    requires Ordered(e, next) && PartedAt(e, b, next, ran, due, missed, skipped)
    ensures PartedAt([], b, next, ran, due, missed + (if b <= |e| then TokensOf(e[b..]) else {}), skipped)
  {
    if b <= |e| {
      TailTokens(e, b);
    }
    forall t: nat | InTail(e, b, t)
      ensures t in due && t < next && t !in ran
    {
      var i :| 0 <= b <= i < |e| && e[i].token == t;
    }
    assert b > |e| ==> forall t: nat :: !InTail(e, b, t);
    hide TokensOf, InTail, Ordered, Rising;
  }

  lemma ClearedFine(l: List)
    requires Fine(l, 1)
    ensures Fine(Emptied(l), 1) && Fine(Disabled(l), 1) && Fine(Locked(l), 1)
  {
    if l.firing {
      ClearedParted(EntriesOf(l), l.firingIndex + 1, l.next, l.ran, l.due, l.missed, l.skipped);
    }
    hide PartedAt, TokensOf;
  }

  lemma RunParted(e: seq<Entry>, b: int, next: nat, ran: seq<nat>, due: set<nat>, missed: set<nat>, skipped: set<nat>)
    requires b < |e| && Ordered(e, next) && PartedAt(e, b, next, ran, due, missed, skipped)
    ensures PartedAt(e, b + 1, next, ran + [e[b].token], due, missed, skipped)
  {
    var more := ran + [e[b].token];
    forall t | t in due
      ensures t in more || t in missed || InTail(e, b + 1, t)
    {
      if t in ran {
      } else if InTail(e, b, t) {
        var i :| 0 <= b <= i < |e| && e[i].token == t;
        if i == b {
          assert more[|ran|] == t;
        }
      }
    }
    hide InTail;
  }

  lemma RunNowFine(l: List)
    requires Fine(l, 0) && l.firing && More(l)
    ensures Fine(RunNow(l), 1)
  {
    RunParted(l.entries.value, l.firingIndex, l.next, l.ran, l.due, l.missed, l.skipped);
    hide PartedAt, Ordered;
  }

  lemma AdvanceFine(l: List)
    requires Fine(l, 1)
    ensures Fine(Advance(l), 0)
  {
    hide Ordered, PartedAt;
  }

  lemma EndedFine(l: List, step: nat)
    requires Fine(l, step) && l.firing
    ensures Fine(Ended(l), 0)
  {}

  /** A firing that ran to its end, not cut short, has run exactly what it was to run and was
      not taken away before its turn, in the order of the list and each once; and none of what
      was added at a place it had passed. */
  ghost predicate Complete(l: List) {
    && Rising(l.ran)
    && (forall t :: t in l.due <==> t in l.ran || t in l.missed)
    && (forall t :: t in l.ran ==> t !in l.missed && t !in l.skipped)
    && (forall i :: 0 <= i < |EntriesOf(l)| && EntriesOf(l)[i].token in l.due ==> EntriesOf(l)[i].token in l.ran)
  }

  lemma CompleteAtEnd(l: List)
    requires Fine(l, 0) && l.firing && !More(l)
    ensures Complete(l)
  {
    assert forall t :: !InTail(EntriesOf(l), l.firingIndex, t);
    hide InTail;
  }

  /** The rest of a firing that nothing edits any more. */
  function RunOut(l: List): List
    requires l.firingIndex >= 0 && (l.entries.Some? ==> l.firingLength == |l.entries.value|)
    decreases l.firingLength - l.firingIndex
  {
    if More(l) then RunOut(Advance(RunNow(l))) else l
  }

  lemma {:induction false} RunOutComplete(l: List)
    requires Fine(l, 0) && l.firing
    ensures var m := RunOut(l);
            Complete(m) && m.due == l.due && m.missed == l.missed && m.entries == l.entries && m.next == l.next
    decreases l.firingLength - l.firingIndex
  {
    if More(l) {
      RunNowFine(l);
      AdvanceFine(RunNow(l));
      hide Parted, Complete, Ordered;
      RunOutComplete(Advance(RunNow(l)));
    } else {
      CompleteAtEnd(l);
    }
  }
}
