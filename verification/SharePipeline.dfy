/** How shares travel from the processor miner to the submitter while works arrive: the flag
    HasNewWork, two channels of one slot, and the goroutines Mine, SubmitShare and any number
    of callers of SetNewWork. A run is any interleaving of their steps. */
module SharePipeline {
  import opened Options
  import opened Seqs

  /** A work as far as the protocol looks into it. */
  datatype Work = Work(pool: bool, transactions: nat, usable: bool)

  /** The adoption it was found under, counted from one, and its place among all found. */
  datatype Share = Share(epoch: nat, serial: nat)

  datatype MinerAt =
    | Waiting
    | Received(work: Work)
    | Adopting(work: Work)
    | Looping
    | Hashing
    | Sending(share: Share)
    | MinerGone

  datatype ForwarderAt =
    | Selecting
    | Holding(held: Share)
    | Passing(passed: Share)
    | ForwarderGone

  datatype Fate = Forwarded | Dropped | Lost

  datatype Entry = Entry(share: Share, fate: Fate)

  datatype State = State(
    valid: bool,
    forceStop: bool,
    quit: bool,
    hasNewWork: bool,
    callers: multiset<Work>,
    newWork: Option<Work>,
    submitData: Option<Share>,
    closed: bool,
    miner: MinerAt,
    hasSubmit: bool,
    forwarder: ForwarderAt,
    adopted: seq<Work>,
    found: seq<Share>,
    log: seq<Entry>,
    abandoned: seq<Share>)

  const START := State(true, false, false, false, multiset{}, None, None, false, Waiting, false, Selecting,
                       [], [], [], [])

  datatype Step =
    | SetFlag(work: Work)
    | SendWork(work: Work)
    | SetForce(force: bool)
    | SetInvalid
    | Quit
    | ReceiveWork
    | CheckWork
    | Adopt
    | UpdatePanics
    | CheckFlags
    | Miss
    | Find
    | SendShare
    | SendOnClosed
    | MinerQuits
    | ReceiveShare
    | CheckStale
    | PassOn
    | PassOnClosed
    | ForwarderQuits

  function CurrentWork(s: State): Work
    requires |s.adopted| > 0
  {
    s.adopted[|s.adopted| - 1]
  }

  /** When a step can be taken. */
  predicate Enabled(s: State, step: Step) {
    match step
    case SetFlag(_) => s.valid
    case SendWork(w) => w in s.callers && s.newWork.None?
    case SetForce(_) => s.valid
    case SetInvalid => true
    case Quit => true
    case ReceiveWork => s.miner.Waiting? && s.newWork.Some?
    case CheckWork => s.miner.Received?
    case Adopt => s.miner.Adopting?
    case UpdatePanics => s.miner.Adopting?
    case CheckFlags => s.miner.Looping?
    case Miss => s.miner.Hashing?
    case Find => s.miner.Hashing? && |s.adopted| > 0
    case SendShare => s.miner.Sending? && s.submitData.None? && !s.closed
    case SendOnClosed => s.miner.Sending? && s.closed
    case MinerQuits => s.quit && (s.miner.Waiting? || s.miner.Looping?)
    case ReceiveShare => s.forwarder.Selecting? && s.submitData.Some?
    case CheckStale => s.forwarder.Holding?
    case PassOn => s.forwarder.Passing?
    case PassOnClosed => s.forwarder.Passing? && s.quit
    case ForwarderQuits => s.forwarder.Selecting? && s.quit
  }

  predicate EmptySolo(work: Work) {
    !work.pool && work.transactions <= 1
  }

  function AdoptWork(s: State): State
    requires s.miner.Adopting?
  {
    s.(hasNewWork := false, miner := Looping, hasSubmit := false, adopted := s.adopted + [s.miner.work])
  }

  function FindShare(s: State): State {
    var share := Share(|s.adopted|, |s.found|);
    s.(miner := Sending(share), found := s.found + [share])
  }

  predicate IsForwarderStep(step: Step) {
    step.ReceiveShare? || step.CheckStale? || step.PassOn? || step.PassOnClosed? || step.ForwarderQuits?
  }

  predicate IsOutsideStep(step: Step) {
    step.SetFlag? || step.SendWork? || step.SetForce? || step.SetInvalid? || step.Quit?
  }

  /** SetNewWork, from any goroutine: first the flag, then a blocking send; and the other
      things that can happen around the device. */
  function DoOutside(s: State, step: Step): State
    requires IsOutsideStep(step)
  {
    match step
    case SetFlag(w) => s.(hasNewWork := true, callers := s.callers + multiset{w})
    case SendWork(w) => s.(newWork := Some(w), callers := s.callers - multiset{w})
    case SetForce(f) => s.(forceStop := f)
    case SetInvalid => s.(valid := false)
    case Quit => s.(quit := true)
  }

  /** Mine: the outer loop takes up works, the inner one searches. A work whose coinbase or
      header cannot be made ends it by a panic, after the flags were reset. */
  function DoMine(s: State, step: Step): State
    requires Enabled(s, step) && !IsOutsideStep(step) && !IsForwarderStep(step)
  {
    match step
    case ReceiveWork => s.(miner := Received(s.newWork.value), newWork := None)
    case CheckWork =>
      if !s.valid then s.(miner := MinerGone)
      else if s.forceStop || !s.hasNewWork || !s.miner.work.usable then s.(miner := Waiting)
      else s.(miner := Adopting(s.miner.work))
    case Adopt => AdoptWork(s)
    case UpdatePanics => s.(hasNewWork := false, hasSubmit := false, miner := MinerGone)
    case CheckFlags => s.(miner := if s.hasNewWork || s.forceStop then Waiting else Hashing)
    case Miss => s.(miner := Looping)
    case Find => if EmptySolo(CurrentWork(s)) && s.hasSubmit then s.(miner := Waiting) else FindShare(s)
    case SendShare => s.(submitData := Some(s.miner.share), miner := Looping, hasSubmit := true)
    case SendOnClosed => s.(miner := MinerGone, abandoned := [s.miner.share])
    case MinerQuits => s.(miner := MinerGone)
  }

  /** SubmitShare: a stale share is dropped; leaving closes the channel. */
  function DoForward(s: State, step: Step): State
    requires Enabled(s, step) && IsForwarderStep(step)
  {
    match step
    case ReceiveShare => s.(forwarder := Holding(s.submitData.value), submitData := None)
    case CheckStale =>
      if s.hasNewWork then s.(forwarder := Selecting, log := s.log + [Entry(s.forwarder.held, Dropped)])
      else s.(forwarder := Passing(s.forwarder.held))
    case PassOn => s.(forwarder := Selecting, log := s.log + [Entry(s.forwarder.passed, Forwarded)])
    case PassOnClosed =>
      s.(forwarder := ForwarderGone, closed := true, log := s.log + [Entry(s.forwarder.passed, Lost)])
    case ForwarderQuits => s.(forwarder := ForwarderGone, closed := true)
  }

  function Do(s: State, step: Step): State
    requires Enabled(s, step)
  {
    if IsOutsideStep(step) then DoOutside(s, step)
    else if IsForwarderStep(step) then DoForward(s, step)
    else DoMine(s, step)
  }

  // ----- runs -----

  /** The state after the steps, all of which could be taken. */
  ghost predicate Run(s: State, steps: seq<Step>, t: State)
    decreases |steps|
  {
    if |steps| == 0 then s == t
    else Enabled(s, steps[0]) && Run(Do(s, steps[0]), steps[1..], t)
  }

  // ----- where every share is -----

  function Shares(log: seq<Entry>): (shares: seq<Share>)
    ensures |shares| == |log|
  {
    seq(|log|, i requires 0 <= i < |log| => log[i].share)
  }

  function InHand(forwarder: ForwarderAt): (shares: seq<Share>)
    ensures |shares| <= 1
  {
    match forwarder
    case Holding(share) => [share]
    case Passing(share) => [share]
    case _ => []
  }

  function Buffered(channel: Option<Share>): (shares: seq<Share>)
    ensures |shares| <= 1
  {
    if channel.Some? then [channel.value] else []
  }

  function ToSend(miner: MinerAt): (shares: seq<Share>)
    ensures |shares| <= 1
  {
    if miner.Sending? then [miner.share] else []
  }

  /** Every share found is, in the order of finding, settled, in the forwarder's hand, in
      the channel, about to be sent, or given up because the channel was closed. */
  ghost predicate Conserved(s: State) {
    s.found == Shares(s.log) + InHand(s.forwarder) + Buffered(s.submitData) + ToSend(s.miner) + s.abandoned
  }

  ghost predicate Numbered(s: State) {
    && (forall i :: 0 <= i < |s.found| ==> s.found[i].serial == i && 1 <= s.found[i].epoch <= |s.adopted|)
    && (forall i, j :: 0 <= i < j < |s.found| ==> s.found[i].epoch <= s.found[j].epoch)
  }

  /** A work without transactions of its own is submitted once. */
  ghost predicate OnceIfEmpty(s: State)
    requires Numbered(s)
  {
    forall i, j :: 0 <= i < j < |s.found| && s.found[i].epoch == s.found[j].epoch ==>
      !EmptySolo(s.adopted[s.found[i].epoch - 1])
  }

  /** While the miner searches, hasSubmit tells whether this work has had a share. */
  ghost predicate SubmitKnown(s: State) {
    && (s.miner.Looping? || s.miner.Hashing? || s.miner.Sending? ==> |s.adopted| > 0)
    && (s.miner.Looping? || s.miner.Hashing? ==>
          forall i :: 0 <= i < |s.found| && s.found[i].epoch == |s.adopted| ==> s.hasSubmit)
  }

  ghost predicate Inv(s: State) {
    && Conserved(s)
    && Numbered(s)
    && OnceIfEmpty(s)
    && SubmitKnown(s)
    && (|s.abandoned| > 0 ==> s.miner.MinerGone?)
    && |s.abandoned| <= 1
  }

  // ----- every step keeps the invariant -----

  lemma SharesAppend(log: seq<Entry>, entry: Entry)
    ensures Shares(log + [entry]) == Shares(log) + [entry.share]
  {}

  lemma HandKept(s: State, t: State)
    requires Conserved(s) && t.found == s.found && t.submitData == s.submitData && t.miner == s.miner
    requires t.abandoned == s.abandoned && Shares(s.log) + InHand(s.forwarder) == Shares(t.log) + InHand(t.forwarder)
    ensures Conserved(t)
  {
    hide Shares, InHand, Buffered, ToSend;
  }

  lemma ChannelKept(s: State, t: State)
    requires Conserved(s) && t.found == s.found && t.log == s.log && t.miner == s.miner && t.abandoned == s.abandoned
    requires InHand(s.forwarder) + Buffered(s.submitData) == InHand(t.forwarder) + Buffered(t.submitData)
    ensures Conserved(t)
  {
    hide Shares, InHand, Buffered, ToSend;
    Regroup(Shares(s.log), InHand(s.forwarder), Buffered(s.submitData));
    Regroup(Shares(t.log), InHand(t.forwarder), Buffered(t.submitData));
  }

  /** The share in hand goes into the log. */
  lemma HandSettled(s: State, t: State, fate: Fate)
    requires Conserved(s) && |InHand(s.forwarder)| == 1 && InHand(t.forwarder) == []
    requires t.found == s.found && t.submitData == s.submitData && t.miner == s.miner && t.abandoned == s.abandoned
    requires t.log == s.log + [Entry(InHand(s.forwarder)[0], fate)]
    ensures Conserved(t)
  {
    SharesAppend(s.log, Entry(InHand(s.forwarder)[0], fate));
    hide Conserved, Shares, InHand;
    assert InHand(s.forwarder) == [InHand(s.forwarder)[0]];
    assert Shares(t.log) + [] == Shares(t.log);
    HandKept(s, t);
  }

  lemma ForwarderConserves(s: State, step: Step)
    requires Conserved(s) && Enabled(s, step) && IsForwarderStep(step)
    ensures Conserved(DoForward(s, step))
  {
    hide Conserved, Shares;
    var t := DoForward(s, step);
    match step
    case ReceiveShare => ChannelKept(s, t);
    case CheckStale => if s.hasNewWork { HandSettled(s, t, Dropped); } else { HandKept(s, t); }
    case PassOn => HandSettled(s, t, Forwarded);
    case PassOnClosed => HandSettled(s, t, Lost);
    case ForwarderQuits => HandKept(s, t);
  }

  lemma FindConserves(s: State)
    requires Conserved(s) && s.miner.Hashing? && |s.abandoned| == 0
    ensures Conserved(FindShare(s)) && Conserved(s.(miner := Waiting))
  {
    hide Shares, InHand, Buffered;
    var front := Shares(s.log) + InHand(s.forwarder) + Buffered(s.submitData);
    var t := FindShare(s);
    assert s.found == front + [] + [];
    assert t.found == front + ToSend(t.miner) + t.abandoned;
  }

  lemma SendConserves(s: State, t: State)
    requires Conserved(s) && s.miner.Sending? && |s.abandoned| == 0
    requires || (t == s.(submitData := Some(s.miner.share), miner := Looping, hasSubmit := true) && s.submitData.None?)
             || t == s.(miner := MinerGone, abandoned := [s.miner.share])
    ensures Conserved(t)
  {
    hide Shares, InHand;
    var front := Shares(s.log) + InHand(s.forwarder);
    assert front + Buffered(s.submitData) + ToSend(s.miner) + s.abandoned
        == front + Buffered(t.submitData) + ToSend(t.miner) + t.abandoned;
  }

  /** A share moves from the search to the channel, or is given up. */
  lemma MinerConserves(s: State, step: Step)
    requires Conserved(s) && Enabled(s, step) && !IsOutsideStep(step) && !IsForwarderStep(step)
    requires |s.abandoned| > 0 ==> s.miner.MinerGone?
    ensures Conserved(DoMine(s, step))
  {
    hide Conserved;
    match step
    case Find => FindConserves(s);
    case SendShare => SendConserves(s, DoMine(s, SendShare));
    case SendOnClosed => SendConserves(s, DoMine(s, SendOnClosed));
    case ReceiveWork => SameShares(s, DoMine(s, ReceiveWork));
    case CheckWork => SameShares(s, DoMine(s, CheckWork));
    case Adopt => SameShares(s, DoMine(s, Adopt));
    case UpdatePanics => SameShares(s, DoMine(s, UpdatePanics));
    case CheckFlags => SameShares(s, DoMine(s, CheckFlags));
    case Miss => SameShares(s, DoMine(s, Miss));
    case MinerQuits => SameShares(s, DoMine(s, MinerQuits));
  }

  lemma SameShares(s: State, t: State)
    requires Conserved(s) && !s.miner.Sending? && !t.miner.Sending?
    requires t.found == s.found && t.log == s.log && t.forwarder == s.forwarder
    requires t.submitData == s.submitData && t.abandoned == s.abandoned
    ensures Conserved(t)
  {
    hide Shares;
  }

  lemma StepConserves(s: State, step: Step)
    requires Inv(s) && Enabled(s, step)
    ensures Conserved(Do(s, step))
  {
    hide Numbered, OnceIfEmpty, SubmitKnown, Shares, InHand, Buffered, ToSend, DoMine, DoForward;
    if IsForwarderStep(step) {
      ForwarderConserves(s, step);
    } else if !IsOutsideStep(step) {
      MinerConserves(s, step);
    }
  }

  lemma AdoptNumbers(s: State)
    requires Numbered(s) && OnceIfEmpty(s) && s.miner.Adopting?
    ensures Numbered(AdoptWork(s)) && OnceIfEmpty(AdoptWork(s)) && SubmitKnown(AdoptWork(s))
  {}

  lemma FindNumbers(s: State)
    requires Numbered(s) && OnceIfEmpty(s) && SubmitKnown(s) && s.miner.Hashing?
    requires !(EmptySolo(CurrentWork(s)) && s.hasSubmit)
    ensures Numbered(FindShare(s)) && OnceIfEmpty(FindShare(s)) && SubmitKnown(FindShare(s))
  {
    var t := FindShare(s);
    var n := |s.found|;
    assert forall i :: 0 <= i < n ==> t.found[i] == s.found[i];
    hide EmptySolo;
  }

  lemma MinerNumbers(s: State, step: Step)
    requires Numbered(s) && OnceIfEmpty(s) && SubmitKnown(s)
    requires Enabled(s, step) && !IsOutsideStep(step) && !IsForwarderStep(step)
    ensures var t := DoMine(s, step); Numbered(t) && OnceIfEmpty(t) && SubmitKnown(t)
  {
    hide OnceIfEmpty, Numbered;
    if step.Adopt? {
      AdoptNumbers(s);
    } else if step.Find? && !(EmptySolo(CurrentWork(s)) && s.hasSubmit) {
      FindNumbers(s);
    } else {
      SameNumbers(s, DoMine(s, step));
    }
  }

  lemma SameNumbers(s: State, t: State)
    requires t.found == s.found && t.adopted == s.adopted && Numbered(s) && OnceIfEmpty(s)
    ensures Numbered(t) && OnceIfEmpty(t)
  {}

  lemma StepNumbers(s: State, step: Step)
    requires Inv(s) && Enabled(s, step)
    ensures var t := Do(s, step); Numbered(t) && OnceIfEmpty(t) && SubmitKnown(t)
  {
    hide Conserved, Numbered, OnceIfEmpty, DoMine;
    if IsForwarderStep(step) || IsOutsideStep(step) {
      SameNumbers(s, Do(s, step));
    } else {
      MinerNumbers(s, step);
    }
  }

  lemma StepKeeps(s: State, step: Step)
    requires Inv(s) && Enabled(s, step)
    ensures Inv(Do(s, step))
  {
    StepConserves(s, step);
    StepNumbers(s, step);
    StepAbandons(s, step);
    hide Conserved, Numbered, OnceIfEmpty, SubmitKnown, Do, Enabled;
  }

  lemma StepAbandons(s: State, step: Step)
    requires Inv(s) && Enabled(s, step)
    ensures |Do(s, step).abandoned| <= 1 && (|Do(s, step).abandoned| > 0 ==> Do(s, step).miner.MinerGone?)
  {
    hide Conserved, Numbered, OnceIfEmpty, SubmitKnown;
    match step
    case SendOnClosed =>
    case _ => assert Do(s, step).abandoned == s.abandoned;
  }

  lemma {:induction false} RunKeeps(s: State, steps: seq<Step>, t: State)
    requires Inv(s) && Run(s, steps, t)
    ensures Inv(t)
    decreases |steps|
  {
    hide Inv;
    if |steps| > 0 {
      StepKeeps(s, steps[0]);
      RunKeeps(Do(s, steps[0]), steps[1..], t);
    }
  }

  lemma StartInv()
    ensures Inv(START)
  {}

  // ----- what a run forwards -----

  function ForwardedOf(log: seq<Entry>): (shares: seq<Share>)
    ensures |shares| <= |log|
  {
    if |log| == 0 then []
    else
      var last := log[|log| - 1];
      ForwardedOf(log[..|log| - 1]) + if last.fate.Forwarded? then [last.share] else []
  }

  /** The logged shares are the first ones found. */
  lemma LogIsFront(s: State, i: nat)
    requires Conserved(s) && i < |s.log|
    ensures |s.log| <= |s.found| && s.log[i].share == s.found[i]
  {
    hide InHand, Buffered, ToSend;
    assert Shares(s.log)[i] == s.log[i].share;
  }

  /** The entries carry the numbers 0, 1, 2 and so on. */
  ghost predicate LogNumbered(log: seq<Entry>) {
    forall i :: 0 <= i < |log| ==> log[i].share.serial == i
  }

  /** The shares stand in the log, marked forwarded, at their numbers. */
  ghost predicate ForwardedIn(log: seq<Entry>, shares: seq<Share>) {
    forall i :: 0 <= i < |shares| ==>
      shares[i].serial < |log| && log[shares[i].serial] == Entry(shares[i], Forwarded)
  }

  ghost predicate Rising(shares: seq<Share>) {
    forall i, j :: 0 <= i < j < |shares| ==> shares[i].serial < shares[j].serial
  }

  lemma {:induction false} ForwardedRises(log: seq<Entry>)
    requires LogNumbered(log)
    ensures ForwardedIn(log, ForwardedOf(log)) && Rising(ForwardedOf(log))
  {
    if |log| > 0 {
      var front := log[..|log| - 1];
      ForwardedRises(front);
      var g := ForwardedOf(front);
      assert forall i :: 0 <= i < |g| ==> log[g[i].serial] == front[g[i].serial];
    }
  }

  /** In every run, what was forwarded is an ordered part of what was found, without
      repetitions: its numbers rise, and each is the share that was found at that number. */
  lemma ForwardedIsOrdered(steps: seq<Step>, t: State)
    requires Run(START, steps, t)
    ensures var f := ForwardedOf(t.log);
            && (forall i :: 0 <= i < |f| ==> f[i].serial < |t.found| && f[i] == t.found[f[i].serial])
            && Rising(f)
  {
    StartInv();
    RunKeeps(START, steps, t);
    InvLogNumbered(t);
    ForwardedRises(t.log);
  }

  lemma InvLogNumbered(t: State)
    requires Inv(t)
    ensures LogNumbered(t.log) && |t.log| <= |t.found|
    ensures forall i :: 0 <= i < |t.log| ==> t.log[i].share == t.found[i]
  {
    hide OnceIfEmpty, SubmitKnown;
    forall i: nat | i < |t.log|
      ensures t.log[i].share == t.found[i] && t.log[i].share.serial == i
    {
      LogIsFront(t, i);
      hide Conserved;
    }
    assert |Shares(t.log)| == |t.log|;
  }

  /** Nothing is lost on the way: every share found was forwarded, dropped as stale or lost
      to a closed channel, in that order of finding, or is one of at most four still under
      way; two shares of one solo work are found only if it has more than one transaction. */
  lemma SharesAreConserved(steps: seq<Step>, t: State)
    requires Run(START, steps, t)
    ensures t.found == Shares(t.log) + InHand(t.forwarder) + Buffered(t.submitData) + ToSend(t.miner) + t.abandoned
    ensures |t.abandoned| <= 1 && |t.found| <= |t.log| + 4
    ensures forall i, j :: 0 <= i < j < |t.found| && t.found[i].epoch == t.found[j].epoch ==>
              1 <= t.found[i].epoch <= |t.adopted| && !EmptySolo(t.adopted[t.found[i].epoch - 1])
  {
    StartInv();
    RunKeeps(START, steps, t);
    InvBounds(t);
    hide Run, EmptySolo;
  }

  lemma InvBounds(s: State)
    requires Inv(s)
    ensures |s.abandoned| <= 1 && |s.found| <= |s.log| + 4
  {
    hide Numbered, OnceIfEmpty, SubmitKnown;
    assert |Shares(s.log)| == |s.log|;
    hide InHand, Buffered, ToSend, Shares;
  }

  // ----- stale shares after an adoption -----

  /** A run only ever adds to the histories, and what it finds it finds under the latest
      adoption. */
  ghost predicate Later(s: State, t: State) {
    && |s.found| <= |t.found| && s.found == t.found[..|s.found|]
    && |s.log| <= |t.log| && s.log == t.log[..|s.log|]
    && |s.adopted| <= |t.adopted|
    && forall i :: |s.found| <= i < |t.found| ==> t.found[i].epoch >= |s.adopted|
  }

  lemma SameLater(s: State, t: State)
    requires t.found == s.found && |s.adopted| <= |t.adopted|
    requires t.log == s.log || (|t.log| == |s.log| + 1 && t.log[..|s.log|] == s.log)
    ensures Later(s, t)
  {
    WholePrefix(s.found);
    WholePrefix(s.log);
  }

  lemma StepLater(s: State, step: Step)
    requires Enabled(s, step)
    ensures Later(s, Do(s, step))
  {
    hide Later;
    if IsForwarderStep(step) {
      ForwardLater(s, step);
    } else if IsOutsideStep(step) {
      SameLater(s, DoOutside(s, step));
    } else {
      MineLater(s, step);
    }
  }

  lemma ForwardLater(s: State, step: Step)
    requires Enabled(s, step) && IsForwarderStep(step)
    ensures Later(s, DoForward(s, step))
  {
    hide Later;
    match step
    case ReceiveShare => SameLater(s, DoForward(s, ReceiveShare));
    case CheckStale => SameLater(s, DoForward(s, CheckStale));
    case PassOn => SameLater(s, DoForward(s, PassOn));
    case PassOnClosed => SameLater(s, DoForward(s, PassOnClosed));
    case ForwarderQuits => SameLater(s, DoForward(s, ForwarderQuits));
  }

  lemma MineLater(s: State, step: Step)
    requires Enabled(s, step) && !IsOutsideStep(step) && !IsForwarderStep(step)
    ensures Later(s, DoMine(s, step))
  {
    if step.Find? && DoMine(s, step).found != s.found {
      WholePrefix(s.log);
      assert DoMine(s, step).found[..|s.found|] == s.found;
    } else {
      hide Later;
      SameLater(s, DoMine(s, step));
    }
  }

  lemma LaterTransitive(s: State, t: State, u: State)
    requires Later(s, t) && Later(t, u)
    ensures Later(s, u)
  {
    assert t.found[..|s.found|] == u.found[..|s.found|];
    assert t.log[..|s.log|] == u.log[..|s.log|];
    forall i | |s.found| <= i < |u.found|
      ensures u.found[i].epoch >= |s.adopted|
    {
      if i < |t.found| {
        assert u.found[i] == t.found[i];
      }
    }
  }

  lemma {:induction false} RunLater(s: State, steps: seq<Step>, t: State)
    requires Run(s, steps, t)
    ensures Later(s, t)
    decreases |steps|
  {
    if |steps| == 0 {
      assert s.found[..|s.found|] == s.found && s.log[..|s.log|] == s.log;
    } else {
      hide Enabled, Do;
      StepLater(s, steps[0]);
      RunLater(Do(s, steps[0]), steps[1..], t);
      LaterTransitive(s, Do(s, steps[0]), t);
    }
  }

  lemma {:induction false} ForwardedGrows(log: seq<Entry>, k: nat)
    requires k <= |log|
    ensures |ForwardedOf(log[..k])| <= |ForwardedOf(log)|
    ensures ForwardedOf(log)[..|ForwardedOf(log[..k])|] == ForwardedOf(log[..k])
    decreases |log|
  {
    if k == |log| {
      WholePrefix(log);
    } else {
      var front := log[..|log| - 1];
      ForwardedGrows(front, k);
      assert front[..k] == log[..k];
    }
  }

  lemma {:induction false} ForwardedPast(log: seq<Entry>, k: nat, i: nat)
    requires LogNumbered(log) && k <= |log| && |ForwardedOf(log[..k])| <= i < |ForwardedOf(log)|
    ensures ForwardedOf(log)[i].serial >= k + (i - |ForwardedOf(log[..k])|)
    decreases |log|
  {
    var front := log[..|log| - 1];
    ForwardedRises(log);
    if k == |log| {
      WholePrefix(log);
    } else {
      assert front[..k] == log[..k];
      ForwardedGrows(front, k);
      if i < |ForwardedOf(front)| {
        ForwardedPast(front, k, i);
      } else if i > |ForwardedOf(log[..k])| {
        ForwardedPast(front, k, i - 1);
        assert ForwardedOf(log)[i - 1] == ForwardedOf(front)[i - 1];
      }
    }
  }

  /** What one forwarded share says: where it was found, and that later ones are no older. */
  lemma ForwardedWhere(t: State, i: nat)
    requires Inv(t) && i < |ForwardedOf(t.log)|
    ensures var f := ForwardedOf(t.log);
            && f[i].serial < |t.found| && f[i] == t.found[f[i].serial]
            && (forall j :: i <= j < |f| ==> f[i].epoch <= f[j].epoch)
  {
    InvLogNumbered(t);
    ForwardedRises(t.log);
    hide Conserved, OnceIfEmpty, SubmitKnown, ForwardedOf;
    var f := ForwardedOf(t.log);
    forall j | i <= j < |f|
      ensures f[i].epoch <= f[j].epoch
    {
      assert t.log[f[j].serial].share == t.found[f[j].serial];
    }
  }

  lemma UnsettledAtAdoption(s: State)
    requires Inv(s) && s.miner.Adopting?
    ensures |s.found| <= |s.log| + 2
  {
    hide Numbered, OnceIfEmpty, SubmitKnown;
  }

  lemma AfterAdoption(s: State, t: State)
    requires s.miner.Adopting? && Later(AdoptWork(s), t)
    ensures |s.log| <= |t.log| && t.log[..|s.log|] == s.log
    ensures forall k :: |s.found| <= k < |t.found| ==> t.found[k].epoch > |s.adopted|
  {}

  /** The invariant on both ends of a run that begins with an adoption. */
  lemma AdoptionRun(before: seq<Step>, s: State, after: seq<Step>, t: State)
    requires Run(START, before, s) && s.miner.Adopting? && Run(AdoptWork(s), after, t)
    ensures Inv(s) && Inv(t) && Later(AdoptWork(s), t)
  {
    StartInv();
    RunKeeps(START, before, s);
    StepKeeps(s, Adopt);
    assert Do(s, Adopt) == AdoptWork(s);
    hide *;
    RunKeeps(AdoptWork(s), after, t);
    RunLater(AdoptWork(s), after, t);
  }

  /** Right after a work is adopted, whatever runs from there forwards at most two shares of
      earlier works, and those before any share of the new one. */
  lemma AtMostTwoStale(before: seq<Step>, s: State, after: seq<Step>, t: State, i: nat)
    requires Run(START, before, s) && s.miner.Adopting?
    requires Run(AdoptWork(s), after, t)
    requires |ForwardedOf(s.log)| <= i < |ForwardedOf(t.log)|
    ensures ForwardedOf(t.log)[..|ForwardedOf(s.log)|] == ForwardedOf(s.log)
    ensures i >= |ForwardedOf(s.log)| + 2 ==> ForwardedOf(t.log)[i].epoch > |s.adopted|
    ensures forall j :: i <= j < |ForwardedOf(t.log)| ==> ForwardedOf(t.log)[i].epoch <= ForwardedOf(t.log)[j].epoch
  {
    hide *;
    AdoptionRun(before, s, after, t);
    AfterAdoption(s, t);
    UnsettledAtAdoption(s);
    InvLogNumbered(t);
    ForwardedGrows(t.log, |s.log|);
    ForwardedPast(t.log, |s.log|, i);
    ForwardedWhere(t, i);
  }

  // ----- what the flags rule -----

  lemma DoIs(s: State, step: Step)
    requires Enabled(s, step)
    ensures IsOutsideStep(step) ==> !IsForwarderStep(step) && Do(s, step) == DoOutside(s, step)
    ensures IsForwarderStep(step) ==> Do(s, step) == DoForward(s, step)
    ensures !IsOutsideStep(step) && !IsForwarderStep(step) ==> Do(s, step) == DoMine(s, step)
  {
    hide DoOutside, DoForward, DoMine, Enabled;
  }

  /** What the surroundings can change. */
  lemma OutsideFrame(s: State, step: Step)
    requires IsOutsideStep(step)
    ensures var t := DoOutside(s, step);
            && t.miner == s.miner && t.adopted == s.adopted && t.found == s.found && t.log == s.log
            && t.forwarder == s.forwarder && t.closed == s.closed && t.submitData == s.submitData
            && (t.valid ==> s.valid) && (s.quit ==> t.quit) && (t.forceStop == s.forceStop || step.SetForce?)
            && t.hasNewWork == (s.hasNewWork || step.SetFlag?)
            && (t.newWork == s.newWork || (step.SendWork? && t.newWork == Some(step.work)))
  {
    match step
    case SetFlag(w) =>
    case SendWork(w) =>
    case SetForce(f) =>
    case SetInvalid =>
    case Quit =>
  }

  /** What SubmitShare can change. */
  lemma ForwardFrame(s: State, step: Step)
    requires Enabled(s, step) && IsForwarderStep(step)
    ensures var t := DoForward(s, step);
            && t.miner == s.miner && t.adopted == s.adopted && t.found == s.found && t.newWork == s.newWork
            && t.hasNewWork == s.hasNewWork && t.forceStop == s.forceStop && t.valid == s.valid && t.quit == s.quit
            && !s.forwarder.ForwarderGone?
            && if t.forwarder.ForwarderGone? then t.closed && s.quit else t.closed == s.closed
  {
    match step
    case ReceiveShare =>
    case CheckStale =>
    case PassOn =>
    case PassOnClosed =>
    case ForwarderQuits =>
  }

  /** What SubmitShare settles, and which way. */
  lemma ForwardSettles(s: State, step: Step)
    requires Enabled(s, step) && IsForwarderStep(step)
    ensures var t := DoForward(s, step);
            && (t.log != s.log ==> InHand(s.forwarder) != [])
            && (s.hasNewWork && !s.forwarder.Passing? ==>
                  && !t.forwarder.Passing?
                  && (t.log == s.log || t.log == s.log + [Entry(InHand(s.forwarder)[0], Dropped)]))
            && (!s.hasNewWork ==> t.log == s.log || t.log == s.log + [Entry(InHand(s.forwarder)[0], Forwarded)]
                                  || t.log == s.log + [Entry(InHand(s.forwarder)[0], Lost)])
  {
    match step
    case ReceiveShare =>
    case CheckStale =>
    case PassOn =>
    case PassOnClosed =>
    case ForwarderQuits =>
  }

  /** What Mine can change. */
  lemma MineFrame(s: State, step: Step)
    requires Enabled(s, step) && !IsOutsideStep(step) && !IsForwarderStep(step)
    ensures var t := DoMine(s, step);
            && t.log == s.log && t.forwarder == s.forwarder && t.closed == s.closed
            && t.valid == s.valid && t.forceStop == s.forceStop && t.quit == s.quit
            && t.hasNewWork == (s.hasNewWork && !step.Adopt? && !step.UpdatePanics?)
            && (t.newWork == s.newWork || t.newWork.None?) && !s.miner.MinerGone?
  {
    hide EmptySolo;
    match step
    case ReceiveWork =>
    case CheckWork =>
    case Adopt =>
    case UpdatePanics =>
    case CheckFlags =>
    case Miss =>
    case Find =>
    case SendShare =>
    case SendOnClosed =>
    case MinerQuits =>
  }

  /** Where Mine goes, and what it takes up and finds. */
  lemma MineMoves(s: State, step: Step)
    requires Enabled(s, step) && !IsOutsideStep(step) && !IsForwarderStep(step)
    ensures !s.miner.MinerGone? && (step.Adopt? || step.UpdatePanics? <==> s.miner.Adopting?)
    ensures var t := DoMine(s, step);
            match s.miner
            case Waiting => t.adopted == s.adopted && t.found == s.found
                            && (t.miner.MinerGone? || (s.newWork.Some? && t.miner == Received(s.newWork.value)))
            case Received(w) => t.adopted == s.adopted && t.found == s.found
                                && t.miner == if !s.valid then MinerGone
                                              else if !s.forceStop && s.hasNewWork && w.usable then Adopting(w)
                                              else Waiting
            case Adopting(w) => t.found == s.found
                                && if step.Adopt? then t.adopted == s.adopted + [w] && t.miner.Looping?
                                   else t.adopted == s.adopted && t.miner.MinerGone?
            case Looping => t.adopted == s.adopted && t.found == s.found
                            && (t.miner.MinerGone?
                                || t.miner == if s.hasNewWork || s.forceStop then Waiting else Hashing)
            case _ => t.adopted == s.adopted && !t.miner.Adopting? && !t.miner.Received?
  {
    hide EmptySolo;
    match step
    case ReceiveWork =>
    case CheckWork =>
    case Adopt =>
    case UpdatePanics =>
    case CheckFlags =>
    case Miss =>
    case Find =>
    case SendShare =>
    case SendOnClosed =>
    case MinerQuits =>
  }

  lemma ForwardedNext(log: seq<Entry>, entry: Entry)
    ensures ForwardedOf(log + [entry]) == ForwardedOf(log) + if entry.fate.Forwarded? then [entry.share] else []
  {
    assert (log + [entry])[..|log|] == log;
  }

  /** While a new work is announced and not taken up, nothing is forwarded but what has passed
      the check already. */
  lemma {:induction false} StaleDropped(s: State, steps: seq<Step>, t: State)
    requires Run(s, steps, t) && s.hasNewWork && !s.forwarder.Passing?
    requires forall i :: 0 <= i < |steps| ==> !steps[i].Adopt? && !steps[i].UpdatePanics?
    ensures ForwardedOf(t.log) == ForwardedOf(s.log)
    decreases |steps|
  {
    if |steps| > 0 {
      assert !steps[0].Adopt? && !steps[0].UpdatePanics?;
      StaleStep(s, steps[0]);
      hide Do, Enabled, ForwardedOf;
      StaleDropped(Do(s, steps[0]), steps[1..], t);
    }
  }

  lemma StaleStep(s: State, step: Step)
    requires Enabled(s, step) && s.hasNewWork && !s.forwarder.Passing? && !step.Adopt? && !step.UpdatePanics?
    ensures var t := Do(s, step); t.hasNewWork && !t.forwarder.Passing? && ForwardedOf(t.log) == ForwardedOf(s.log)
  {
    hide Do, Enabled, ForwardedOf, InHand, DoForward;
    Frames(s, step);
    if IsForwarderStep(step) {
      DoIs(s, step);
      ForwardSettles(s, step);
      if Do(s, step).log != s.log {
        ForwardedNext(s.log, Entry(InHand(s.forwarder)[0], Dropped));
      }
    }
  }

  /** While none is announced, no share is dropped. */
  lemma {:induction false} FreshKept(s: State, steps: seq<Step>, t: State)
    requires Run(s, steps, t) && !s.hasNewWork && forall i :: 0 <= i < |steps| ==> !steps[i].SetFlag?
    ensures s.log <= t.log && forall i :: |s.log| <= i < |t.log| ==> !t.log[i].fate.Dropped?
    decreases |steps|
  {
    if |steps| > 0 {
      assert !steps[0].SetFlag?;
      FreshStep(s, steps[0]);
      hide Do, Enabled;
      FreshKept(Do(s, steps[0]), steps[1..], t);
      FreshFront(s.log, Do(s, steps[0]).log, t.log);
    }
  }

  lemma FreshFront(a: seq<Entry>, b: seq<Entry>, c: seq<Entry>)
    requires a <= b <= c && |b| <= |a| + 1 && (|b| == |a| + 1 ==> !b[|a|].fate.Dropped?)
    requires forall i :: |b| <= i < |c| ==> !c[i].fate.Dropped?
    ensures a <= c && forall i :: |a| <= i < |c| ==> !c[i].fate.Dropped?
  {}

  lemma FreshStep(s: State, step: Step)
    requires Enabled(s, step) && !s.hasNewWork && !step.SetFlag?
    ensures var t := Do(s, step);
            && !t.hasNewWork && s.log <= t.log && |t.log| <= |s.log| + 1
            && (|t.log| == |s.log| + 1 ==> !t.log[|s.log|].fate.Dropped?)
  {
    hide Do, Enabled, InHand, DoForward;
    Frames(s, step);
    if IsForwarderStep(step) {
      DoIs(s, step);
      ForwardSettles(s, step);
    }
  }

  /** What a step can change, whoever takes it. */
  lemma Frames(s: State, step: Step)
    requires Enabled(s, step)
    ensures var t := Do(s, step);
            && t.hasNewWork == ((s.hasNewWork || step.SetFlag?) && !step.Adopt? && !step.UpdatePanics?)
            && (!IsForwarderStep(step) ==> t.log == s.log && t.forwarder == s.forwarder && t.closed == s.closed)
            && (IsForwarderStep(step) || IsOutsideStep(step) ==>
                  t.miner == s.miner && t.adopted == s.adopted && t.found == s.found)
            && (t.forceStop == s.forceStop || step.SetForce?) && (t.valid ==> s.valid) && (s.quit ==> t.quit)
            && (t.newWork.None? || t.newWork == s.newWork || (step.SendWork? && t.newWork == Some(step.work)))
  {
    hide Do, Enabled, DoOutside, DoForward, DoMine;
    DoIs(s, step);
    if IsForwarderStep(step) {
      ForwardFrame(s, step);
    } else if IsOutsideStep(step) {
      OutsideFrame(s, step);
    } else {
      MineFrame(s, step);
    }
  }

  /** Neither searching nor about to. */
  predicate Idle(miner: MinerAt) {
    miner.Waiting? || miner.Received? || miner.Looping? || miner.MinerGone?
  }

  /** Once told to stop, a miner that is not in the middle of a search adopts nothing and finds
      nothing until it is told otherwise. */
  lemma {:induction false} ForceStops(s: State, steps: seq<Step>, t: State)
    requires Run(s, steps, t) && s.forceStop && Idle(s.miner)
    requires forall i :: 0 <= i < |steps| ==> !steps[i].SetForce?
    ensures t.adopted == s.adopted && t.found == s.found
    decreases |steps|
  {
    if |steps| > 0 {
      assert !steps[0].SetForce?;
      ForceStep(s, steps[0]);
      hide Do, Enabled;
      ForceStops(Do(s, steps[0]), steps[1..], t);
    }
  }

  lemma ForceStep(s: State, step: Step)
    requires Enabled(s, step) && s.forceStop && Idle(s.miner) && !step.SetForce?
    ensures var t := Do(s, step); t.forceStop && Idle(t.miner) && t.adopted == s.adopted && t.found == s.found
  {
    hide Do, Enabled;
    hide DoMine;
    Frames(s, step);
    if !IsForwarderStep(step) && !IsOutsideStep(step) {
      DoIs(s, step);
      MineMoves(s, step);
    }
  }

  /** Once a new work is announced, a miner that has come to the end of a turn finds nothing
      more before it takes up a work. */
  lemma {:induction false} NewWorkStops(s: State, steps: seq<Step>, t: State)
    requires Run(s, steps, t) && s.hasNewWork && (Idle(s.miner) || s.miner.Adopting?)
    requires forall i :: 0 <= i < |steps| ==> !steps[i].Adopt?
    ensures t.found == s.found
    decreases |steps|
  {
    if |steps| > 0 {
      assert !steps[0].Adopt?;
      NewWorkStep(s, steps[0]);
      hide Do, Enabled;
      if Do(s, steps[0]).hasNewWork {
        NewWorkStops(Do(s, steps[0]), steps[1..], t);
      } else {
        GoneFindsNothing(Do(s, steps[0]), steps[1..], t);
      }
    }
  }

  lemma NewWorkStep(s: State, step: Step)
    requires Enabled(s, step) && s.hasNewWork && (Idle(s.miner) || s.miner.Adopting?) && !step.Adopt?
    ensures var t := Do(s, step);
            && t.found == s.found && (t.hasNewWork || t.miner.MinerGone?) && (Idle(t.miner) || t.miner.Adopting?)
  {
    hide Do, Enabled;
    hide DoMine;
    Frames(s, step);
    if !IsForwarderStep(step) && !IsOutsideStep(step) {
      DoIs(s, step);
      MineMoves(s, step);
    }
  }

  lemma {:induction false} GoneFindsNothing(s: State, steps: seq<Step>, t: State)
    requires Run(s, steps, t) && s.miner.MinerGone?
    ensures t.miner.MinerGone? && t.found == s.found && t.adopted == s.adopted
    decreases |steps|
  {
    if |steps| > 0 {
      hide Do, Enabled, DoMine;
      Frames(s, steps[0]);
      if !IsForwarderStep(steps[0]) && !IsOutsideStep(steps[0]) {
        MineFrame(s, steps[0]);
      }
      GoneFindsNothing(Do(s, steps[0]), steps[1..], t);
    }
  }

  /** A miner that waits for a work takes none up while none is announced, nor ever again once
      the device is not valid. */
  lemma {:induction false} NothingAdopted(s: State, steps: seq<Step>, t: State)
    requires Run(s, steps, t) && (s.miner.Waiting? || s.miner.Received? || s.miner.MinerGone?)
    requires !s.valid || (!s.hasNewWork && forall i :: 0 <= i < |steps| ==> !steps[i].SetFlag?)
    ensures t.adopted == s.adopted && t.found == s.found
    decreases |steps|
  {
    if |steps| > 0 {
      assert s.valid ==> !steps[0].SetFlag?;
      WaitingStep(s, steps[0]);
      hide Do, Enabled;
      NothingAdopted(Do(s, steps[0]), steps[1..], t);
    }
  }

  lemma WaitingStep(s: State, step: Step)
    requires Enabled(s, step) && (s.miner.Waiting? || s.miner.Received? || s.miner.MinerGone?)
    requires !s.valid || (!s.hasNewWork && !step.SetFlag?)
    ensures var t := Do(s, step);
            && (t.miner.Waiting? || t.miner.Received? || t.miner.MinerGone?) && t.adopted == s.adopted
            && t.found == s.found && (!s.valid ==> !t.valid) && (!s.hasNewWork && !step.SetFlag? ==> !t.hasNewWork)
  {
    hide Do, Enabled;
    hide DoMine;
    Frames(s, step);
    if !IsForwarderStep(step) && !IsOutsideStep(step) {
      DoIs(s, step);
      MineMoves(s, step);
    }
  }

  // ----- what is adopted was delivered -----

  /** Every work in the channel, in the miner's hand or adopted was sent; what is or was taken
      up is usable. */
  ghost predicate FromSends(s: State, sent: set<Work>) {
    && (s.newWork.Some? ==> s.newWork.value in sent)
    && (s.miner.Received? ==> s.miner.work in sent)
    && (s.miner.Adopting? ==> s.miner.work in sent && s.miner.work.usable)
    && (forall i :: 0 <= i < |s.adopted| ==> s.adopted[i] in sent && s.adopted[i].usable)
  }

  function Sends(steps: seq<Step>): set<Work> {
    set i | 0 <= i < |steps| && steps[i].SendWork? :: steps[i].work
  }

  lemma SendStep(s: State, step: Step, sent: set<Work>)
    requires Enabled(s, step) && FromSends(s, sent)
    ensures FromSends(Do(s, step), sent + Sends([step]))
  {
    assert step.SendWork? ==> [step][0].work in Sends([step]);
    hide Do, Enabled, Sends;
    hide DoMine;
    Frames(s, step);
    if !IsForwarderStep(step) && !IsOutsideStep(step) {
      DoIs(s, step);
      MineMoves(s, step);
    }
  }

  lemma {:induction false} RunSends(s: State, steps: seq<Step>, t: State, sent: set<Work>)
    requires Run(s, steps, t) && FromSends(s, sent)
    ensures FromSends(t, sent + Sends(steps))
    decreases |steps|
  {
    if |steps| == 0 {
      assert Sends(steps) == {} && sent + {} == sent;
    } else {
      SendStep(s, steps[0], sent);
      hide Do, Enabled, FromSends;
      RunSends(Do(s, steps[0]), steps[1..], t, sent + Sends([steps[0]]));
      SendsNext(steps);
      assert sent + Sends([steps[0]]) + Sends(steps[1..]) == sent + Sends(steps);
    }
  }

  lemma SendsNext(steps: seq<Step>)
    requires |steps| > 0
    ensures Sends(steps) == Sends([steps[0]]) + Sends(steps[1..])
  {
    forall w | w in Sends(steps)
      ensures w in Sends([steps[0]]) + Sends(steps[1..])
    {
      var i :| 0 <= i < |steps| && steps[i].SendWork? && steps[i].work == w;
      assert i == 0 ==> [steps[0]][0] == steps[i];
      assert i > 0 ==> steps[1..][i - 1] == steps[i];
    }
  }

  /** Only works that a caller of SetNewWork has sent, and that can be used, are adopted. */
  lemma AdoptedWereSent(steps: seq<Step>, t: State, i: nat)
    requires Run(START, steps, t) && i < |t.adopted|
    ensures t.adopted[i].usable && SendWork(t.adopted[i]) in steps
  {
    RunSends(START, steps, t, {});
    assert t.adopted[i] in Sends(steps);
  }

  // ----- nothing gets stuck -----

  /** The channel is closed exactly when the forwarder has left, which it does only after the
      quit. */
  lemma {:induction false} ClosedByForwarder(s: State, steps: seq<Step>, t: State)
    requires Run(s, steps, t) && (s.closed <==> s.forwarder.ForwarderGone?) && (s.closed ==> s.quit)
    ensures (t.closed <==> t.forwarder.ForwarderGone?) && (t.closed ==> t.quit)
    decreases |steps|
  {
    if |steps| > 0 {
      ClosedStep(s, steps[0]);
      hide Do, Enabled;
      ClosedByForwarder(Do(s, steps[0]), steps[1..], t);
    }
  }

  lemma ClosedStep(s: State, step: Step)
    requires Enabled(s, step) && (s.closed <==> s.forwarder.ForwarderGone?) && (s.closed ==> s.quit)
    ensures var t := Do(s, step); (t.closed <==> t.forwarder.ForwarderGone?) && (t.closed ==> t.quit)
  {
    hide Do, Enabled, DoForward;
    Frames(s, step);
    if IsForwarderStep(step) {
      DoIs(s, step);
      ForwardFrame(s, step);
    }
  }

  /** In every state of every run the miner can go on, if need be after the forwarder has, or
      waits for a work with the channel empty and no quit, or has left. */
  lemma NoDeadlock(steps: seq<Step>, t: State)
    requires Run(START, steps, t)
    ensures (t.miner.Waiting? && t.newWork.None? && !t.quit) || t.miner.MinerGone?
            || exists step :: !IsOutsideStep(step) && Enabled(t, step)
  {
    StartInv();
    RunKeeps(START, steps, t);
    ClosedByForwarder(START, steps, t);
    hide Conserved, Numbered, OnceIfEmpty, Run, Enabled, ToTake;
    if !t.miner.MinerGone? && !(t.miner.Waiting? && t.newWork.None? && !t.quit) {
      CanTake(t);
    }
  }

  /** A step that can be taken. */
  function ToTake(t: State): Step {
    match t.miner
    case Waiting => if t.newWork.Some? then ReceiveWork else MinerQuits
    case Received(_) => CheckWork
    case Adopting(_) => Adopt
    case Looping => CheckFlags
    case Hashing => Find
    case Sending(_) => if t.closed then SendOnClosed else if t.submitData.None? then SendShare else ToMakeRoom(t)
    case MinerGone => Quit
  }

  function ToMakeRoom(t: State): Step {
    if t.forwarder.Selecting? then ReceiveShare else if t.forwarder.Holding? then CheckStale else PassOn
  }

  lemma CanTake(t: State)
    requires !t.miner.MinerGone? && !(t.miner.Waiting? && t.newWork.None? && !t.quit)
    requires t.closed <==> t.forwarder.ForwarderGone?
    requires t.miner.Hashing? ==> |t.adopted| > 0
    ensures !IsOutsideStep(ToTake(t)) && Enabled(t, ToTake(t))
  {
    if t.miner.Sending? && !t.closed && t.submitData.Some? {
      CanMakeRoom(t);
      hide ToMakeRoom;
    }
  }

  lemma CanMakeRoom(t: State)
    requires t.submitData.Some? && !t.forwarder.ForwarderGone?
    ensures !IsOutsideStep(ToMakeRoom(t)) && Enabled(t, ToMakeRoom(t))
  {}

  /** The way of a share when nothing comes between. */
  function Delivery(): seq<Step> {
    [Find, SendShare, ReceiveShare, CheckStale, PassOn]
  }

  lemma RunFirst(s: State, step: Step, rest: seq<Step>, t: State)
    requires Enabled(s, step)
    ensures Run(s, [step] + rest, t) <==> Run(Do(s, step), rest, t)
  {
    assert ([step] + rest)[1..] == rest;
    hide Enabled, Do;
  }

  /** A share that is found while nothing new is announced and the way is free gets through. */
  lemma ShareGetsThrough(s: State)
    requires s.miner.Hashing? && |s.adopted| > 0 && !(EmptySolo(CurrentWork(s)) && s.hasSubmit)
    requires s.submitData.None? && !s.closed && s.forwarder.Selecting? && !s.hasNewWork
    ensures exists t :: Run(s, Delivery(), t) && t.miner.Looping?
                        && ForwardedOf(t.log) == ForwardedOf(s.log) + [Share(|s.adopted|, |s.found|)]
  {
    var share := Share(|s.adopted|, |s.found|);
    var a := FindShare(s);
    var b := a.(submitData := Some(share), miner := Looping, hasSubmit := true);
    var c := b.(forwarder := Holding(share), submitData := None);
    var d := c.(forwarder := Passing(share));
    var t := d.(forwarder := Selecting, log := d.log + [Entry(share, Forwarded)]);
    WayIn(s, share);
    WayOut(b, share);
    ForwardedNext(s.log, Entry(share, Forwarded));
    hide Do, Enabled, ForwardedOf, FindShare, CurrentWork, EmptySolo;
    FiveSteps(s, a, b, c, d, t);
  }

  lemma WayIn(s: State, share: Share)
    requires s.miner.Hashing? && |s.adopted| > 0 && !(EmptySolo(CurrentWork(s)) && s.hasSubmit)
    requires s.submitData.None? && !s.closed && share == Share(|s.adopted|, |s.found|)
    ensures Enabled(s, Find) && Do(s, Find) == FindShare(s)
    ensures var a := FindShare(s);
            Enabled(a, SendShare)
            && Do(a, SendShare) == a.(submitData := Some(share), miner := Looping, hasSubmit := true)
  {
    hide EmptySolo, CurrentWork;
  }

  lemma WayOut(b: State, share: Share)
    requires b.submitData == Some(share) && b.forwarder.Selecting? && !b.hasNewWork
    ensures Enabled(b, ReceiveShare) && Do(b, ReceiveShare) == b.(forwarder := Holding(share), submitData := None)
    ensures var c := b.(forwarder := Holding(share), submitData := None);
            Enabled(c, CheckStale) && Do(c, CheckStale) == c.(forwarder := Passing(share))
    ensures var d := b.(forwarder := Passing(share), submitData := None);
            Enabled(d, PassOn)
            && Do(d, PassOn) == d.(forwarder := Selecting, log := d.log + [Entry(share, Forwarded)])
  {}

  lemma FiveSteps(s: State, a: State, b: State, c: State, d: State, t: State)
    requires Enabled(s, Find) && Do(s, Find) == a && Enabled(a, SendShare) && Do(a, SendShare) == b
    requires Enabled(b, ReceiveShare) && Do(b, ReceiveShare) == c && Enabled(c, CheckStale) && Do(c, CheckStale) == d
    requires Enabled(d, PassOn) && Do(d, PassOn) == t
    ensures Run(s, Delivery(), t)
  {
    hide Do, Enabled;
    assert Run(t, [], t);
    RunFirst(d, PassOn, [], t);
    RunFirst(c, CheckStale, [PassOn], t);
    RunFirst(b, ReceiveShare, [CheckStale, PassOn], t);
    RunFirst(a, SendShare, [ReceiveShare, CheckStale, PassOn], t);
    RunFirst(s, Find, [SendShare, ReceiveShare, CheckStale, PassOn], t);
    hide Run;
    assert [PassOn] + [] == [PassOn] && [CheckStale] + [PassOn] == [CheckStale, PassOn];
    assert [ReceiveShare] + [CheckStale, PassOn] == [ReceiveShare, CheckStale, PassOn];
    assert [SendShare] + [ReceiveShare, CheckStale, PassOn] == [SendShare, ReceiveShare, CheckStale, PassOn];
    assert [Find] + [SendShare, ReceiveShare, CheckStale, PassOn] == Delivery();
  }

  /** A work that was taken up gets a share through, an empty one too, unless the miner is told to
      stop or another work comes. */
  lemma WorkGetsThrough(s: State)
    requires s.miner.Adopting? && !s.forceStop && s.submitData.None? && !s.closed && s.forwarder.Selecting?
    ensures exists t :: Run(s, [Adopt, CheckFlags] + Delivery(), t) && t.miner.Looping?
                        && ForwardedOf(t.log) == ForwardedOf(s.log) + [Share(|s.adopted| + 1, |s.found|)]
  {
    WayToHash(s);
    hide Do, Enabled, ForwardedOf, Delivery, EmptySolo;
    var a := AdoptWork(s);
    var b := a.(miner := Hashing);
    ShareGetsThrough(b);
    var t :| Run(b, Delivery(), t) && t.miner.Looping?
             && ForwardedOf(t.log) == ForwardedOf(b.log) + [Share(|b.adopted|, |b.found|)];
    RunFirst(a, CheckFlags, Delivery(), t);
    RunFirst(s, Adopt, [CheckFlags] + Delivery(), t);
    Regroup([Adopt], [CheckFlags], Delivery());
    assert [Adopt] + [CheckFlags] == [Adopt, CheckFlags];
  }

  lemma WayToHash(s: State)
    requires s.miner.Adopting? && !s.forceStop
    ensures Enabled(s, Adopt) && Do(s, Adopt) == AdoptWork(s)
    ensures var a := AdoptWork(s);
            && Enabled(a, CheckFlags) && Do(a, CheckFlags) == a.(miner := Hashing)
            && !a.hasNewWork && !a.hasSubmit && |a.adopted| == |s.adopted| + 1 && a.found == s.found && a.log == s.log
            && a.submitData == s.submitData && a.closed == s.closed && a.forwarder == s.forwarder
  {}

  /** The steps by which a usable work comes to the miner from the start. */
  function Announcing(work: Work): seq<Step> {
    [SetFlag(work), SendWork(work), ReceiveWork, CheckWork]
  }

  lemma WayToAdopt(work: Work)
    requires work.usable
    ensures var a := START.(hasNewWork := true, callers := multiset{work});
            var b := START.(hasNewWork := true, newWork := Some(work));
            var c := START.(hasNewWork := true, miner := Received(work));
            var d := START.(hasNewWork := true, miner := Adopting(work));
            && Enabled(START, SetFlag(work)) && Do(START, SetFlag(work)) == a
            && Enabled(a, SendWork(work)) && Do(a, SendWork(work)) == b
            && Enabled(b, ReceiveWork) && Do(b, ReceiveWork) == c
            && Enabled(c, CheckWork) && Do(c, CheckWork) == d
  {
    assert multiset{} + multiset{work} == multiset{work};
    assert multiset{work} - multiset{work} == multiset{};
  }

  /** From the start, a usable work that is announced and sent is taken up, and its first share
      forwarded. */
  lemma StraightThrough(work: Work)
    requires work.usable
    ensures exists t :: Run(START, Announcing(work) + ([Adopt, CheckFlags] + Delivery()), t)
                        && t.adopted == [work] && ForwardedOf(t.log) == [Share(1, 0)]
  {
    WayToAdopt(work);
    var rest := [Adopt, CheckFlags] + Delivery();
    var a := START.(hasNewWork := true, callers := multiset{work});
    var b := START.(hasNewWork := true, newWork := Some(work));
    var c := START.(hasNewWork := true, miner := Received(work));
    var d := START.(hasNewWork := true, miner := Adopting(work));
    WorkGetsThrough(d);
    var t :| Run(d, rest, t) && t.miner.Looping? && ForwardedOf(t.log) == ForwardedOf(d.log) + [Share(1, 0)];
    assert ForwardedOf([]) == [] && [] + [Share(1, 0)] == [Share(1, 0)];
    RunAdopts(d, t);
    hide Do, Enabled, ForwardedOf, Delivery, Run;
    RunFirst(c, CheckWork, rest, t);
    RunFirst(b, ReceiveWork, [CheckWork] + rest, t);
    RunFirst(a, SendWork(work), [ReceiveWork] + ([CheckWork] + rest), t);
    RunFirst(START, SetFlag(work), [SendWork(work)] + ([ReceiveWork] + ([CheckWork] + rest)), t);
    assert [SetFlag(work)] + ([SendWork(work)] + ([ReceiveWork] + ([CheckWork] + rest))) == Announcing(work) + rest;
  }

  lemma RunAdopts(d: State, t: State)
    requires d.miner.Adopting? && Run(d, [Adopt, CheckFlags] + Delivery(), t)
    ensures t.adopted == d.adopted + [d.miner.work]
  {
    hide Do, Enabled, DoMine, Delivery;
    var steps := [CheckFlags] + Delivery();
    Regroup([Adopt], [CheckFlags], Delivery());
    assert [Adopt] + [CheckFlags] == [Adopt, CheckFlags];
    var a := AfterFirst(d, Adopt, steps, t);
    DoIs(d, Adopt);
    MineMoves(d, Adopt);
    NoAdoption();
    AdoptsOnlyByAdopt(a, steps, t);
  }

  lemma NoAdoption()
    ensures forall i :: 0 <= i < |[CheckFlags] + Delivery()| ==> !([CheckFlags] + Delivery())[i].Adopt?
  {}

  lemma {:induction false} AdoptsOnlyByAdopt(s: State, steps: seq<Step>, t: State)
    requires Run(s, steps, t) && forall i :: 0 <= i < |steps| ==> !steps[i].Adopt?
    ensures t.adopted == s.adopted
    decreases |steps|
  {
    if |steps| > 0 {
      assert !steps[0].Adopt?;
      hide Do, Enabled, DoMine;
      Frames(s, steps[0]);
      if !IsForwarderStep(steps[0]) && !IsOutsideStep(steps[0]) {
        DoIs(s, steps[0]);
        MineMoves(s, steps[0]);
      }
      AdoptsOnlyByAdopt(Do(s, steps[0]), steps[1..], t);
    }
  }

  // ----- what the calls of the surroundings bring about -----

  /** From the call of SetNewWork on: nothing is forwarded but what has passed the check, and a
      miner between two turns finds nothing, before a work is taken up. */
  lemma AnnouncedStops(s: State, work: Work, steps: seq<Step>, t: State)
    requires Run(s, [SetFlag(work)] + steps, t)
    requires forall i :: 0 <= i < |steps| ==> !steps[i].Adopt? && !steps[i].UpdatePanics?
    ensures !s.forwarder.Passing? ==> ForwardedOf(t.log) == ForwardedOf(s.log)
    ensures Idle(s.miner) || s.miner.Adopting? ==> t.found == s.found
  {
    var a := AfterFirst(s, SetFlag(work), steps, t);
    Frames(s, SetFlag(work));
    hide Run, Do, Enabled, ForwardedOf;
    if !s.forwarder.Passing? {
      StaleDropped(a, steps, t);
    }
    if Idle(s.miner) || s.miner.Adopting? {
      NewWorkStops(a, steps, t);
    }
  }

  lemma AfterFirst(s: State, step: Step, steps: seq<Step>, t: State) returns (a: State)
    requires Run(s, [step] + steps, t)
    ensures Enabled(s, step) && a == Do(s, step) && Run(a, steps, t)
  {
    assert ([step] + steps)[0] == step;
    a := Do(s, step);
    RunFirst(s, step, steps, t);
  }

  /** From the call that stops the miner on: one that is idle adopts and finds nothing until the
      next such call. */
  lemma StopCalled(s: State, steps: seq<Step>, t: State)
    requires Run(s, [SetForce(true)] + steps, t) && Idle(s.miner)
    requires forall i :: 0 <= i < |steps| ==> !steps[i].SetForce?
    ensures t.adopted == s.adopted && t.found == s.found
  {
    var a := AfterFirst(s, SetForce(true), steps, t);
    assert a.forceStop;
    Frames(s, SetForce(true));
    hide Run, Do, Enabled;
    ForceStops(a, steps, t);
  }

  /** From the moment the device is no longer valid, a miner that waits for a work adopts none. */
  lemma InvalidCalled(s: State, steps: seq<Step>, t: State)
    requires Run(s, [SetInvalid] + steps, t) && (s.miner.Waiting? || s.miner.Received?)
    ensures t.adopted == s.adopted && t.found == s.found
  {
    var a := AfterFirst(s, SetInvalid, steps, t);
    assert !a.valid;
    Frames(s, SetInvalid);
    hide Run, Do, Enabled;
    NothingAdopted(a, steps, t);
  }

  /** After a work is taken up nothing is dropped until the next is announced. */
  lemma FreshAfterAdoption(s: State, steps: seq<Step>, t: State)
    requires s.miner.Adopting? && Run(s, [Adopt] + steps, t)
    requires forall i :: 0 <= i < |steps| ==> !steps[i].SetFlag?
    ensures s.log <= t.log && forall i :: |s.log| <= i < |t.log| ==> !t.log[i].fate.Dropped?
  {
    var a := AfterFirst(s, Adopt, steps, t);
    Frames(s, Adopt);
    hide Run, Do, Enabled;
    FreshKept(a, steps, t);
  }

  /** After a quit the miner, when idle, and the submitter can leave, and the channel is closed. */
  lemma QuitLeaves(s: State)
    requires (s.miner.Waiting? || s.miner.Looping?) && s.forwarder.Selecting?
    ensures exists t :: Run(s, [Quit, MinerQuits, ForwarderQuits], t) && t.miner.MinerGone? && t.closed
  {
    var a := s.(quit := true);
    var b := a.(miner := MinerGone);
    var t := b.(forwarder := ForwarderGone, closed := true);
    assert Enabled(s, Quit) && Do(s, Quit) == a;
    assert Enabled(a, MinerQuits) && Do(a, MinerQuits) == b;
    assert Enabled(b, ForwarderQuits) && Do(b, ForwarderQuits) == t;
    hide Do, Enabled;
    assert Run(t, [], t);
    RunFirst(b, ForwarderQuits, [], t);
    RunFirst(a, MinerQuits, [ForwarderQuits], t);
    RunFirst(s, Quit, [MinerQuits, ForwarderQuits], t);
    assert [ForwarderQuits] + [] == [ForwarderQuits];
    assert [MinerQuits] + [ForwarderQuits] == [MinerQuits, ForwarderQuits];
    assert [Quit] + [MinerQuits, ForwarderQuits] == [Quit, MinerQuits, ForwarderQuits];
  }
}
