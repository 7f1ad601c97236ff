/** The loop that keeps a board of mining chips at work, from init_drv to meer_drv_deinit. What
    the loop reads from outside - flags, the clock, works, the driver's answers - comes from a
    script of arbitrary moments; every run is the run of some script. */
module AsicMiner {
  import opened Options
  import opened Seqs
  import opened Merkle
  import opened Coinbase
  import opened SubmitString
  import Difficulty

  type FullHeader = b: seq<Octet> | |b| >= HEADER witness seq(HEADER, _ => 0)
  type NonceBytes = b: seq<Octet> | |b| == HEADER - NONCE_START witness seq(HEADER - NONCE_START, _ => 0)

  /** What a header is packed from, as functions of the transaction root; in a pool the root
      is already in the header. */
  datatype Task<!H> = Task(
    parents: seq<string>,
    target: nat,
    height: nat,
    gbtId: int,
    jobId: string,
    exnonce2: string,
    withProof: H -> FullHeader,
    bare: H -> seq<Octet>)

  datatype Answer = Answer(nonce: NonceBytes, chip: nat)

  /** Everything the loop can see from outside at one moment. */
  datatype Moment<!H> = Moment(
    quit: bool,
    valid: bool,
    forceStop: bool,
    hasNewWork: bool,
    stale: bool,
    timeUp: bool,
    closed: bool,
    usable: bool,
    delivered: seq<Transaction<H>>,
    initialized: int,
    freqs: nat,
    freqsGood: bool,
    task: Task<H>,
    made: Option<Made<H>>,
    fees: seq<(int, int)>,
    answer: Option<Answer>)

  /** The work saved for a chip: its header, and its own list of transactions. */
  datatype ChipWork<!H> = ChipWork(
    header: seq<Octet>,
    target: nat,
    submitStr: string,
    job: Job,
    txs: seq<Transaction<H>>,
    root: H,
    task: Task<H>)

  datatype Share<!H> = Share(
    adoption: nat,
    batch: nat,
    template: seq<Transaction<H>>,
    work: ChipWork<H>,
    nonce: NonceBytes,
    text: string)

  // ----- calls of the driver -----

  datatype Call = Init(fd: int) | SetFreq(fd: int) | SetWork(fd: int, chip: int) | GetNonce(fd: int) | Deinit(fd: int)

  datatype Board = Closed | Open(fd: int) | Misused

  function After(board: Board, call: Call): Board {
    match (board, call)
    case (Closed, Init(fd)) => if fd > 0 then Open(fd) else Closed
    case (Open(fd), Init(_)) => Misused
    case (Open(fd), Deinit(used)) => if used == fd then Closed else Misused
    case (Open(fd), _) => if call.fd == fd then board else Misused
    case _ => Misused
  }

  /** The board after these calls: misused unless each successful init is followed by its own
      deinit before the next, and chips are addressed only in between. */
  function BoardAfter(calls: seq<Call>): Board {
    if |calls| == 0 then Closed else After(BoardAfter(calls[..|calls| - 1]), calls[|calls| - 1])
  }

  lemma BoardNext(calls: seq<Call>, call: Call)
    ensures BoardAfter(calls + [call]) == After(BoardAfter(calls), call)
  {
    assert (calls + [call])[..|calls|] == calls;
  }

  function Inits(calls: seq<Call>): nat {
    if |calls| == 0 then 0
    else Inits(calls[..|calls| - 1]) + if calls[|calls| - 1].Init? && calls[|calls| - 1].fd > 0 then 1 else 0
  }

  function Deinits(calls: seq<Call>): nat {
    if |calls| == 0 then 0
    else Deinits(calls[..|calls| - 1]) + if calls[|calls| - 1].Deinit? then 1 else 0
  }

  /** Used well, at any time every board that was opened has been closed but the last. */
  lemma {:induction false} InitsAlternate(calls: seq<Call>, k: nat)
    requires !BoardAfter(calls).Misused? && k <= |calls|
    ensures !BoardAfter(calls[..k]).Misused?
    ensures Inits(calls[..k]) == Deinits(calls[..k]) + if BoardAfter(calls[..k]).Open? then 1 else 0
    decreases |calls|
  {
    if k < |calls| {
      InitsAlternate(calls[..|calls| - 1], k);
      assert calls[..|calls| - 1][..k] == calls[..k];
    } else {
      WholePrefix(calls);
      if |calls| > 0 {
        InitsAlternate(calls[..|calls| - 1], |calls| - 1);
        WholePrefix(calls[..|calls| - 1]);
      }
    }
  }

  // ----- works and shares -----

  /** The bytes of the data, and zeros behind them, up to the nonce. */
  ghost predicate StandsIn(data: seq<Octet>, header: seq<Octet>) {
    |header| == HEADER && forall i :: 0 <= i < NONCE_START ==> header[i] == if i < |data| then data[i] else 0
  }

  /** copy into a new buffer of 117 bytes. */
  function Copied(data: seq<Octet>): (header: seq<Octet>)
    ensures StandsIn(data, header)
  {
    if |data| >= HEADER then data[..HEADER] else data + seq(HEADER - |data|, _ => 0)
  }

  function DataOf<H>(txs: seq<Transaction<H>>): (data: seq<string>)
    ensures |data| == |txs| && forall i :: 0 <= i < |txs| ==> data[i] == txs[i].data
  {
    seq(|txs|, i requires 0 <= i < |txs| => txs[i].data)
  }

  function JobOf<H>(pool: bool, task: Task<H>, root: H, txs: seq<Transaction<H>>): Job {
    Job(task.withProof(root), task.parents, DataOf(txs), pool, task.jobId, task.exnonce2, task.height,
        if pool then 0 else task.gbtId)
  }

  /** The entry of a list that a sealed coinbase makes. */
  ghost predicate IsSealed<H>(lib: Library<H>, coinbase: Tx<H>, entry: Transaction<H>) {
    && lib.serialize(coinbase).Some?
    && entry == Transaction(lib.txHash(coinbase), lib.serialize(coinbase).value, 0)
  }

  /** A solo list: a sealed coinbase that commits to it, then the template, under the root of
      their hashes. */
  ghost predicate SoloGood<H(!new)>(lib: Library<H>, template: seq<Transaction<H>>, root: H, txs: seq<Transaction<H>>) {
    && |txs| == |template| + 1
    && (exists coinbase :: IsSealed(lib, coinbase, txs[0]) && Committed(lib, coinbase, template))
    && SameTemplate(txs[1..], template)
    && root == Root(lib.hashing, [txs[0].hash] + TemplateLeaves(lib, template))
  }

  /** The header, the text and the transactions of a saved work belong together. */
  ghost predicate WorkGood<H(!new)>(lib: Library<H>, pool: bool, template: seq<Transaction<H>>, w: ChipWork<H>) {
    && StandsIn(w.task.bare(w.root), w.header)
    && w.target == w.task.target
    && w.job == JobOf(pool, w.task, w.root, w.txs)
    && w.submitStr == EncodeHex(w.job.headerData) + w.job.Middle()
    && if pool then w.txs == [] else SoloGood(lib, template, w.root, w.txs)
  }

  ghost predicate WorksGood<H(!new)>(lib: Library<H>, pool: bool, template: seq<Transaction<H>>,
                                     works: map<nat, ChipWork<H>>)
  {
    forall chip :: chip in works ==> WorkGood(lib, pool, template, works[chip])
  }

  lemma Prepared<H(!new)>(lib: Library<H>, pool: bool, template: seq<Transaction<H>>, w: ChipWork<H>)
    requires WorkGood(lib, pool, template, w)
    ensures |w.header| == HEADER
    ensures var b := DecodeHex(BeforeDash(w.submitStr)); b.Some? ==> |b.value| >= HEADER
  {
    PreparedFront(w.job.headerData, w.job.Middle());
  }

  /** The share's header carries its nonce and meets its chip's target, and its text is the
      prepared one with that header put in. */
  ghost predicate ShareGood<H(!new)>(lib: Library<H>, pool: bool, powHash: seq<Octet> -> nat, s: Share<H>) {
    && WorkGood(lib, pool, s.template, s.work)
    && s.work.header[NONCE_START..] == s.nonce
    && powHash(s.work.header) <= s.work.target
    && (var b := DecodeHex(BeforeDash(s.work.submitStr)); b.Some? ==> |b.value| >= HEADER)
    && s.text == Replaced(s.work.submitStr, s.work.job.Tail(), s.work.header, s.nonce)
  }

  /** Two shares of one batch have different nonces. */
  ghost predicate NoncesDiffer<H>(sent: seq<Share<H>>) {
    forall i, j :: 0 <= i < j < |sent| && sent[i].batch == sent[j].batch ==>
      FromLittleEndian(sent[i].nonce) != FromLittleEndian(sent[j].nonce)
  }

  /** Two shares under one adopted solo work have more than one transaction each. */
  ghost predicate EmptyOnce<H>(pool: bool, sent: seq<Share<H>>) {
    forall i, j :: 0 <= i < j < |sent| && sent[i].adoption == sent[j].adoption && !pool ==>
      |sent[i].work.txs| > 1 && |sent[j].work.txs| > 1
  }

  ghost predicate AllGood<H(!new)>(lib: Library<H>, pool: bool, powHash: seq<Octet> -> nat, sent: seq<Share<H>>) {
    forall i :: 0 <= i < |sent| ==> ShareGood(lib, pool, powHash, sent[i])
  }

  ghost predicate SentGood<H(!new)>(lib: Library<H>, pool: bool, powHash: seq<Octet> -> nat, sent: seq<Share<H>>) {
    AllGood(lib, pool, powHash, sent) && NoncesDiffer(sent) && EmptyOnce(pool, sent)
  }

  /** What was sent under the current adoption and in the current batch. */
  ghost predicate Current<H>(sent: seq<Share<H>>, adoption: nat, batch: nat, hasSubmit: bool,
                             template: seq<Transaction<H>>, nonces: set<nat>)
  {
    && (forall i :: 0 <= i < |sent| ==> sent[i].adoption <= adoption && sent[i].batch <= batch)
    && (forall i :: 0 <= i < |sent| && sent[i].adoption == adoption ==> hasSubmit && sent[i].template == template)
    && (forall i :: 0 <= i < |sent| && sent[i].batch == batch ==> FromLittleEndian(sent[i].nonce) in nonces)
  }

  lemma SentNext<H(!new)>(lib: Library<H>, pool: bool, powHash: seq<Octet> -> nat, sent: seq<Share<H>>, s: Share<H>,
                    hasSubmit: bool, nonces: set<nat>)
    requires SentGood(lib, pool, powHash, sent) && ShareGood(lib, pool, powHash, s)
    requires Current(sent, s.adoption, s.batch, hasSubmit, s.template, nonces)
    requires FromLittleEndian(s.nonce) !in nonces
    requires !pool && hasSubmit ==> |s.template| > 0
    ensures SentGood(lib, pool, powHash, sent + [s])
    ensures Current(sent + [s], s.adoption, s.batch, true, s.template, nonces + {FromLittleEndian(s.nonce)})
  {
    hide ShareGood, FromLittleEndian;
    var more := sent + [s];
    assert forall i :: 0 <= i < |sent| ==> more[i] == sent[i];
    forall i | 0 <= i < |sent| && sent[i].adoption == s.adoption && !pool
      ensures |sent[i].work.txs| > 1 && |s.work.txs| > 1
    {
      SoloLength(lib, pool, powHash, sent[i]);
      SoloLength(lib, pool, powHash, s);
    }
  }

  lemma CurrentAdopted<H>(sent: seq<Share<H>>, adoption: nat, batch: nat, hasSubmit: bool,
                          template: seq<Transaction<H>>, nonces: set<nat>, next: seq<Transaction<H>>)
    requires Current(sent, adoption, batch, hasSubmit, template, nonces)
    ensures Current(sent, adoption + 1, batch, false, next, nonces)
  {
    hide FromLittleEndian;
  }

  lemma SeenMore<H>(sent: seq<Share<H>>, adoption: nat,
                    batch: nat, hasSubmit: bool, template: seq<Transaction<H>>, nonces: set<nat>, nonce: nat)
    requires Current(sent, adoption, batch, hasSubmit, template, nonces)
    ensures Current(sent, adoption, batch, hasSubmit, template, nonces + {nonce})
  {}

  lemma SoloCount<H(!new)>(lib: Library<H>, template: seq<Transaction<H>>, root: H, txs: seq<Transaction<H>>)
    requires SoloGood(lib, template, root, txs)
    ensures |txs| == |template| + 1
  {}

  lemma ChipGood<H(!new)>(lib: Library<H>, pool: bool, template: seq<Transaction<H>>, works: map<nat, ChipWork<H>>,
                          chip: nat)
    requires WorksGood(lib, pool, template, works) && chip in works
    ensures WorkGood(lib, pool, template, works[chip]) && |works[chip].header| == HEADER
  {}

  lemma SoloLength<H(!new)>(lib: Library<H>, pool: bool, powHash: seq<Octet> -> nat, s: Share<H>)
    requires ShareGood(lib, pool, powHash, s) && !pool
    ensures |s.work.txs| == |s.template| + 1
  {}

  datatype Outcome = Continue | NextWork | Leave

  // ----- what is judged -----

  /** A share that would be sent, and whether nobody took shares any more. */
  datatype Judged<!H> = Judged(share: Share<H>, closed: bool)

  /** Those that met their target while shares were taken. */
  ghost function GoodOf<H(!new)>(powHash: seq<Octet> -> nat, judged: seq<Judged<H>>): seq<Share<H>> {
    if |judged| == 0 then []
    else
      var last := judged[|judged| - 1];
      GoodOf(powHash, judged[..|judged| - 1])
      + if powHash(last.share.work.header) <= last.share.work.target && !last.closed then [last.share] else []
  }

  /** Sent are exactly the good ones in their order, and every nonce of the batch was judged. */
  ghost predicate JudgedWell<H(!new)>(powHash: seq<Octet> -> nat, judged: seq<Judged<H>>, sent: seq<Share<H>>,
                                      nonces: set<nat>, batch: nat)
  {
    && sent == GoodOf(powHash, judged)
    && forall n :: n in nonces ==>
         exists i :: 0 <= i < |judged| && judged[i].share.batch == batch && FromLittleEndian(judged[i].share.nonce) == n
  }

  lemma JudgedNext<H(!new)>(powHash: seq<Octet> -> nat, judged: seq<Judged<H>>, sent: seq<Share<H>>, nonces: set<nat>,
                            share: Share<H>, closed: bool)
    requires JudgedWell(powHash, judged, sent, nonces, share.batch)
    ensures JudgedWell(powHash, judged + [Judged(share, closed)],
                       if powHash(share.work.header) <= share.work.target && !closed then sent + [share] else sent,
                       nonces + {FromLittleEndian(share.nonce)}, share.batch)
  {
    hide FromLittleEndian;
    var more := judged + [Judged(share, closed)];
    assert more[..|judged|] == judged && more[|judged|] == Judged(share, closed);
    forall n | n in nonces
      ensures exists i :: 0 <= i < |more| && more[i].share.batch == share.batch
                          && FromLittleEndian(more[i].share.nonce) == n
    {
      var i :| 0 <= i < |judged| && judged[i].share.batch == share.batch
               && FromLittleEndian(judged[i].share.nonce) == n;
      assert more[i] == judged[i];
    }
    assert sent + [] == sent;
  }

  lemma NothingJudged<H(!new)>(powHash: seq<Octet> -> nat, judged: seq<Judged<H>>, sent: seq<Share<H>>,
                               nonces: set<nat>, batch: nat, next: nat)
    requires JudgedWell(powHash, judged, sent, nonces, batch)
    ensures JudgedWell(powHash, judged, sent, {}, next)
  {}

  // ----- what is heard -----

  lemma NothingHeard<H>(seen: seq<Seen<H>>, chips: int, served: set<nat>, nonces: set<nat>)
    ensures Heard(seen, |seen|, chips, served, nonces)
  {}

  lemma NotAsked<H>(m: Moment<H>, chips: int, served: set<nat>, nonces: set<nat>)
    requires m.timeUp || m.hasNewWork || m.forceStop || m.quit || m.answer.None?
    ensures NotedBy(m, chips, served, nonces)
  {}

  lemma Answered<H>(m: Moment<H>, chips: int, served: set<nat>, nonces: set<nat>)
    requires m.answer.Some?
    requires 1 <= m.answer.value.chip <= chips % 256 && m.answer.value.chip in served ==>
               FromLittleEndian(m.answer.value.nonce) in nonces
    ensures NotedBy(m, chips, served, nonces)
  {}

  /** The answer that came at this moment, if the driver was asked for one and its chip is served,
      is among the nonces that have been judged. */
  ghost predicate NotedBy<H>(m: Moment<H>, chips: int, served: set<nat>, nonces: set<nat>) {
    !m.timeUp && !m.hasNewWork && !m.forceStop && !m.quit && m.answer.Some?
    && 1 <= m.answer.value.chip <= chips % 256 && m.answer.value.chip in served ==>
      FromLittleEndian(m.answer.value.nonce) in nonces
  }

  ghost predicate Heard<H>(seen: seq<Seen<H>>, from: nat, chips: int, served: set<nat>, nonces: set<nat>) {
    from <= |seen| && forall i :: from <= i < |seen| ==> NotedBy(seen[i].moment, chips, served, nonces)
  }

  lemma HeardNext<H>(seen: seq<Seen<H>>, from: nat, chips: int, served: set<nat>, nonces: set<nat>, more: set<nat>,
                     s: Seen<H>)
    requires Heard(seen, from, chips, served, nonces) && nonces <= more && NotedBy(s.moment, chips, served, more)
    ensures Heard(seen + [s], from, chips, served, more)
  {
    hide FromLittleEndian;
  }

  // ----- the way of the loop through its moments -----

  /** Where the loop reads a moment: waiting for a work, between two batches of one, about to
      serve a chip, or listening for nonces. */
  datatype Place = Waiting | Between | Assigning(chip: nat) | Listening

  datatype Seen<!H> = Seen(place: Place, moment: Moment<H>)

  /** The place after so many chips have been served. */
  function Serving(chips: int, chip: nat): Place {
    if chip <= chips then Assigning(chip) else Listening
  }

  /** Where the loop goes after a moment, if it goes on. */
  predicate Follows<H>(chips: int, s: Seen<H>, next: Place) {
    var m := s.moment;
    match s.place
    case Waiting =>
      m.valid && !m.quit && next == if m.forceStop || !m.hasNewWork || !m.usable then Waiting else Between
    case Between =>
      if m.hasNewWork || m.forceStop then next == Waiting else !m.quit && next == Serving(chips, 1)
    case Assigning(chip) =>
      next == if m.stale then Waiting else Serving(chips, chip + 1)
    case Listening =>
      if m.timeUp || m.hasNewWork || m.forceStop then next == Between
      else !m.quit && (next == Listening || next == Waiting)
  }

  /** What ends the loop at a moment. */
  predicate Ends<H>(pool: bool, chips: int, s: Seen<H>) {
    var m := s.moment;
    match s.place
    case Waiting => m.quit || !m.valid
    case Between => !m.hasNewWork && !m.forceStop && (m.quit || m.initialized <= 0 || !m.freqsGood)
    case Assigning(_) => !pool
    case Listening => !m.timeUp && !m.hasNewWork && !m.forceStop && (m.quit || m.closed || chips < 1)
  }

  /** The way from waiting for the first work. */
  ghost predicate Routed<H>(chips: int, seen: seq<Seen<H>>) {
    && (|seen| > 0 ==> seen[0].place == Waiting)
    && forall i :: 0 <= i < |seen| - 1 ==> Follows(chips, seen[i], seen[i + 1].place)
  }

  ghost predicate ArrivesAt<H>(chips: int, seen: seq<Seen<H>>, place: Place) {
    Routed(chips, seen) && if seen == [] then place == Waiting else Follows(chips, seen[|seen| - 1], place)
  }

  function MomentsOf<H>(seen: seq<Seen<H>>): (moments: seq<Moment<H>>)
    ensures |moments| == |seen| && forall i :: 0 <= i < |seen| ==> moments[i] == seen[i].moment
  {
    seq(|seen|, i requires 0 <= i < |seen| => seen[i].moment)
  }

  lemma RoutedNext<H>(chips: int, seen: seq<Seen<H>>, s: Seen<H>, plan: seq<Moment<H>>, script: seq<Moment<H>>)
    requires ArrivesAt(chips, seen, s.place) && plan == MomentsOf(seen) + ([s.moment] + script)
    ensures Routed(chips, seen + [s]) && plan == MomentsOf(seen + [s]) + script
  {
    assert MomentsOf(seen + [s]) == MomentsOf(seen) + [s.moment];
    hide Follows, MomentsOf;
  }

  class Miner<H(!new)> {
    const lib: Library<H>
    const pool: bool
    const chips: int
    const powHash: seq<Octet> -> nat

    /** All moments from the start. */
    ghost const plan: seq<Moment<H>>

    var script: seq<Moment<H>>
    var fd: int
    var start: bool
    var reject: nat
    var hasSubmit: bool
    var txCount: nat
    var targetDiff: nat
    var works: map<nat, ChipWork<H>>
    var nonces: set<nat>

    ghost var calls: seq<Call>
    ghost var sent: seq<Share<H>>
    ghost var adoption: nat
    ghost var batch: nat
    ghost var seen: seq<Seen<H>>
    ghost var judged: seq<Judged<H>>

    /** What was sent is what was judged to be good. */
    ghost predicate Accounted()
      reads `judged, `sent, `nonces, `batch
    {
      JudgedWell(powHash, judged, sent, nonces, batch)
    }

    /** The loop has come to this place, by way of all the moments that are gone. */
    ghost predicate Along(place: Place)
      reads `script, `seen
    {
      plan == MomentsOf(seen) + script && ArrivesAt(chips, seen, place)
    }

    /** It has just read this moment there. */
    ghost predicate Reads(place: Place, m: Moment<H>)
      reads `script, `seen
    {
      && plan == MomentsOf(seen) + script && Routed(chips, seen)
      && |seen| > 0 && seen[|seen| - 1] == Seen(place, m)
    }

    /** It has ended, for want of further moments or by what it read last. */
    ghost predicate Ended()
      reads `script, `seen
    {
      && plan == MomentsOf(seen) + script && Routed(chips, seen)
      && (script == [] || (|seen| > 0 && Ends(pool, chips, seen[|seen| - 1])))
    }

    lemma GoesOn(place: Place, m: Moment<H>, next: Place)
      requires Reads(place, m) && Follows(chips, Seen(place, m), next)
      ensures Along(next)
    {
      hide Follows, MomentsOf;
    }

    lemma EndsAt(place: Place, m: Moment<H>)
      requires Reads(place, m) && Ends(pool, chips, Seen(place, m))
      ensures Ended()
    {
      hide Ends, MomentsOf;
    }

    lemma RunsOut(place: Place)
      requires Along(place) && script == []
      ensures Ended()
    {
      hide MomentsOf;
    }

    ghost predicate Valid(template: seq<Transaction<H>>)
      reads `fd, `start, `calls, `sent, `adoption, `batch, `hasSubmit, `nonces
    {
      && fd >= 0 && start == (fd > 0)
      && BoardAfter(calls) == (if fd > 0 then Open(fd) else Closed)
      && SentGood(lib, pool, powHash, sent)
      && Current(sent, adoption, batch, hasSubmit, template, nonces)
    }

    /** What holds even when the loop is left in the middle of a batch. */
    ghost predicate Held()
      reads `fd, `calls, `sent
    {
      && BoardAfter(calls) == (if fd > 0 then Open(fd) else Closed)
      && SentGood(lib, pool, powHash, sent)
    }

    lemma ValidHeld(template: seq<Transaction<H>>)
      requires Valid(template)
      ensures Held()
    {}

    /** The works go with the latest header, whose list of transactions is what counts. */
    ghost predicate Assigned(template: seq<Transaction<H>>)
      reads `works, `txCount
    {
      && WorksGood(lib, pool, template, works)
      && (!pool && works != map[] ==> txCount == |template| + 1)
    }

    /** Every chip of the board has a work, as far as eight bits number them. */
    ghost predicate AllServed()
      reads `works
    {
      forall chip: nat :: 1 <= chip < 256 && chip <= chips ==> chip in works
    }

    constructor (lib: Library<H>, pool: bool, chips: int, powHash: seq<Octet> -> nat, script: seq<Moment<H>>)
      ensures this.lib == lib && this.pool == pool && this.chips == chips && this.powHash == powHash
      ensures this.script == script && fd == 0 && !start && calls == [] && sent == []
      ensures plan == script && Along(Waiting) && judged == [] && nonces == {} && adoption == batch == 0
    {
      this.lib, this.pool, this.chips, this.powHash, this.script := lib, pool, chips, powHash, script;
      fd, start, reject, hasSubmit, txCount, targetDiff := 0, false, 0, false, 0, 0;
      works, nonces := map[], {};
      calls, sent, adoption, batch, seen, judged := [], [], 0, 0, [], [];
      plan := script;
      new;
      assert MomentsOf(seen) == [];
    }

    method Next(ghost place: Place) returns (moment: Option<Moment<H>>)
      requires Along(place)
      modifies this`script, this`seen
      ensures moment.None? ==> script == old(script) == [] && Ended() && seen == old(seen)
      ensures moment.Some? ==> |script| < |old(script)| && Reads(place, moment.value)
      ensures moment.Some? ==> seen == old(seen) + [Seen(place, moment.value)]
    {
      if |script| == 0 {
        RunsOut(place);
        return None;
      }
      assert script == [script[0]] + script[1..];
      RoutedNext(chips, seen, Seen(place, script[0]), plan, script[1..]);
      hide MomentsOf, Routed;
      seen := seen + [Seen(place, script[0])];
      moment, script := Some(script[0]), script[1..];
    }

    ghost method Record(call: Call)
      modifies this`calls
      ensures calls == old(calls) + [call] && BoardAfter(calls) == After(BoardAfter(old(calls)), call)
    {
      BoardNext(calls, call);
      calls := calls + [call];
    }

    /** UpdateWork: a new coinbase for every chip, and the miner's own copy of the list. */
    method UpdateWork(block: BlockHeader<H>, m: Moment<H>) returns (packed: Option<(H, seq<Transaction<H>>)>)
      requires block.Valid(lib)
      modifies this`txCount, this`targetDiff, block, block.transactions
      ensures block.Valid(lib)
      ensures block.transactions == old(block.transactions) || fresh(block.transactions)
      ensures packed.Some? ==> txCount == |packed.value.1| && targetDiff == m.task.target
      ensures packed.None? ==> txCount == old(txCount)
      ensures packed.Some? <==>
                (pool || (Packs(lib, m.made)
                          && lib.serialize(Sealed(lib, m.made.value, m.fees, block.template)[0]).Some?))
      ensures packed.Some? ==> if pool then packed.value.1 == []
                               else SoloGood(lib, block.template, packed.value.0, packed.value.1)
      ensures packed.Some? && !pool ==>
                && m.made.Some?
                && var coinbase := Sealed(lib, m.made.value, m.fees, block.template)[0];
                && IsSealed(lib, coinbase, packed.value.1[0])
                && CommitsTo(lib, m.made.value, m.fees, block.template, coinbase)
    {
      hide TemplateLeaves, WitnessLeaves, SameTemplate, Sealed, DecodeAll, TotalOf, FeeOutputs, Root;
      if pool {
        targetDiff, txCount := m.task.target, 0;
        return Some((lib.zero, []));
      }
      var result := block.CalcCoinBase(lib, m.made, m.fees);
      if result.None? {
        return None;
      }
      var (root, list) := result.value;
      var txs := list[..];
      assert txs[1..] == list[1..];
      ghost var coinbase := Sealed(lib, m.made.value, m.fees, block.template)[0];
      assert IsSealed(lib, coinbase, txs[0]) && Committed(lib, coinbase, block.template);
      txCount, targetDiff := |txs|, m.task.target;
      return Some((root, txs));
    }

    /** The work saved for one chip. */
    method Save(m: Moment<H>, root: H, txs: seq<Transaction<H>>, ghost template: seq<Transaction<H>>)
      returns (work: ChipWork<H>)
      requires if pool then txs == [] else SoloGood(lib, template, root, txs)
      ensures WorkGood(lib, pool, template, work) && work.txs == txs
    {
      var job := JobOf(pool, m.task, root, txs);
      var submitStr := GetSubmitStr(job);
      work := ChipWork(Copied(m.task.bare(root)), m.task.target, submitStr, job, txs, root, m.task);
    }

    /** The header of the latest coinbase is saved for chip j and sent to it. */
    method SaveFor(m: Moment<H>, root: H, txs: seq<Transaction<H>>, j: nat, ghost template: seq<Transaction<H>>)
      requires Valid(template) && fd > 0 && WorksGood(lib, pool, template, works) && txCount == |txs|
      requires if pool then txs == [] else SoloGood(lib, template, root, txs)
      modifies this`works, this`calls
      ensures Valid(template) && Assigned(template) && works.Keys == old(works.Keys) + {j % 256}
    {
      hide SentGood, Current, WorkGood, WorksGood, SoloGood, BoardAfter;
      if !pool {
        SoloCount(lib, template, root, txs);
      }
      var work := Save(m, root, txs, template);
      SaveGood(lib, pool, template, works, j % 256, work);
      works := works[j % 256 := work];
      Record(SetWork(fd, j));
    }

    /** One turn of the loop over the chips. */
    method AssignOne(block: BlockHeader<H>, m: Moment<H>, j: nat) returns (outcome: Outcome)
      requires block.Valid(lib) && Valid(block.template) && fd > 0 && WorksGood(lib, pool, block.template, works)
      modifies this`txCount, this`targetDiff, this`works, this`calls, block, block.transactions
      ensures block.Valid(lib)
      ensures block.transactions == old(block.transactions) || fresh(block.transactions)
      ensures Valid(block.template) && WorksGood(lib, pool, block.template, works)
      ensures outcome.Continue? ==> Assigned(block.template) && works.Keys == old(works.Keys) + {j % 256}
      ensures match outcome case Continue => !m.stale case NextWork => m.stale case Leave => !pool
    {
      hide *;
      var packed := UpdateWork(block, m);
      if packed.None? {
        return Leave;
      }
      if m.stale {
        return NextWork;
      }
      SaveFor(m, packed.value.0, packed.value.1, j, block.template);
      AssignedGood(block.template);
      return Continue;
    }

    lemma AssignedGood(template: seq<Transaction<H>>)
      requires Assigned(template)
      ensures WorksGood(lib, pool, template, works)
    {}

    /** The loop over the chips: each gets its own coinbase and so its own root. */
    method AssignAll(block: BlockHeader<H>) returns (outcome: Outcome)
      requires block.Valid(lib) && Valid(block.template) && fd > 0 && Assigned(block.template)
      requires Along(Serving(chips, 1))
      modifies this`script, this`seen, this`txCount, this`targetDiff, this`works, this`calls, block, block.transactions
      ensures block.Valid(lib)
      ensures block.transactions == old(block.transactions) || fresh(block.transactions)
      ensures |script| <= |old(script)|
      ensures Valid(block.template)
      ensures outcome.Continue? ==> Assigned(block.template) && AllServed()
      ensures match outcome case Continue => Along(Listening) case NextWork => Along(Waiting) case Leave => Ended()
    {
      hide *;
      AssignedGood(block.template);
      var j := 1;
      while j <= chips
        invariant 1 <= j && (j <= chips + 1 || j == 1) && Along(Serving(chips, j))
        invariant block.Valid(lib) && Valid(block.template) && fd > 0 && Assigned(block.template)
        invariant WorksGood(lib, pool, block.template, works)
        invariant block.transactions == old(block.transactions) || fresh(block.transactions)
        invariant |script| <= |old(script)|
        invariant forall chip: nat :: 1 <= chip < 256 && chip < j ==> chip in works
        decreases chips - j
      {
        ServingIs(j);
        var now := Next(Assigning(j));
        if now.None? {
          return Leave;
        }
        outcome := AssignOne(block, now.value, j);
        AfterServing(now.value, j, outcome);
        if !outcome.Continue? {
          return;
        }
        j := j + 1;
      }
      ServingIs(j);
      Served(j);
      return Continue;
    }

    lemma ServingIs(j: nat)
      ensures Serving(chips, j) == if j <= chips then Assigning(j) else Listening
    {}

    /** Where the loop goes after a chip was to be served. */
    lemma AfterServing(m: Moment<H>, j: nat, outcome: Outcome)
      requires Reads(Assigning(j), m)
      requires match outcome case Continue => !m.stale case NextWork => m.stale case Leave => !pool
      ensures match outcome
              case Continue => Along(Serving(chips, j + 1))
              case NextWork => Along(Waiting)
              case Leave => Ended()
    {
      hide Reads, Along, Ended, Serving;
      match outcome
      case Continue => GoesOn(Assigning(j), m, Serving(chips, j + 1));
      case NextWork => GoesOn(Assigning(j), m, Waiting);
      case Leave => EndsAt(Assigning(j), m);
    }

    lemma Served(j: nat)
      requires chips < j && forall chip: nat :: 1 <= chip < 256 && chip < j ==> chip in works
      ensures AllServed()
    {}

    /** A share goes out, unless nobody takes shares any more. */
    method Send(m: Moment<H>, work: ChipWork<H>, nonce: NonceBytes, ghost before: set<nat>,
                ghost template: seq<Transaction<H>>)
      returns (outcome: Outcome)
      requires Unseen(before, FromLittleEndian(nonce), template)
      requires WorkGood(lib, pool, template, work) && work.header[NONCE_START..] == nonce
      requires powHash(work.header) <= work.target && (!pool && hasSubmit ==> |template| > 0)
      modifies this`hasSubmit, this`sent
      ensures Valid(template) && outcome == if m.closed then Leave else Continue
      ensures sent == if m.closed then old(sent) else old(sent) + [ShareOf(adoption, batch, template, work, nonce)]
      ensures hasSubmit == (old(hasSubmit) || !m.closed)
    {
      hide SentGood, Current, WorkGood, BoardAfter, FromLittleEndian;
      Prepared(lib, pool, template, work);
      var text := ReplaceNonce(work.job, work.submitStr, work.header, nonce, 0);
      if m.closed {
        SeenMore(sent, adoption, batch, hasSubmit, template, before, FromLittleEndian(nonce));
        return Leave;
      }
      ghost var share := ShareOf(adoption, batch, template, work, nonce);
      assert Some(share.text) == text;
      SentNext(lib, pool, powHash, sent, share, hasSubmit, before);
      sent := sent + [share];
      hasSubmit := true;
      return Continue;
    }

    /** A nonce not seen before in this batch: a share, or a rejected answer. */
    method Judge(m: Moment<H>, work: ChipWork<H>, nonce: NonceBytes, ghost before: set<nat>,
                 ghost template: seq<Transaction<H>>)
      returns (outcome: Outcome)
      requires Unseen(before, FromLittleEndian(nonce), template) && fd > 0
      requires WorkGood(lib, pool, template, work) && work.header[NONCE_START..] == nonce
      requires !pool && hasSubmit ==> |template| > 0
      requires JudgedWell(powHash, judged, sent, before, batch)
      modifies this`fd, this`start, this`reject, this`hasSubmit, this`calls, this`sent, this`judged
      ensures Valid(template) && Accounted()
      ensures judged == old(judged) + [Judged(ShareOf(old(adoption), old(batch), template, work, nonce), m.closed)]
      ensures match outcome case Continue => fd > 0 case NextWork => fd == 0 case Leave => m.closed
      ensures var meets := powHash(work.header) <= work.target;
              && sent == (if meets && !m.closed
                          then old(sent) + [ShareOf(old(adoption), old(batch), template, work, nonce)]
                          else old(sent))
              && hasSubmit == (old(hasSubmit) || (meets && !m.closed))
              && (meets ==> outcome == (if m.closed then Leave else Continue) && calls == old(calls))
    {
      hide SentGood, Current, WorkGood, BoardAfter, FromLittleEndian, ShareOf, JudgedWell;
      ghost var share := ShareOf(adoption, batch, template, work, nonce);
      ShareIs(adoption, batch, template, work, nonce);
      JudgedNext(powHash, judged, sent, before, share, m.closed);
      judged := judged + [Judged(share, m.closed)];
      if powHash(work.header) <= work.target {
        outcome := Send(m, work, nonce, before, template);
        return;
      }
      SeenMore(sent, adoption, batch, hasSubmit, template, before, FromLittleEndian(nonce));
      outcome := Reject();
    }

    /** The state with a nonce noted but nothing sent for it. */
    ghost predicate Unseen(before: set<nat>, nonce: nat, template: seq<Transaction<H>>)
      reads `fd, `start, `calls, `sent, `adoption, `batch, `hasSubmit, `nonces
    {
      && fd >= 0 && start == (fd > 0)
      && BoardAfter(calls) == (if fd > 0 then Open(fd) else Closed)
      && SentGood(lib, pool, powHash, sent)
      && Current(sent, adoption, batch, hasSubmit, template, before)
      && nonce !in before && nonces == before + {nonce}
    }

    /** An answer that misses is counted when the difficulty is above 10^12, and a thousand of
        them for each chip close the board. */
    method Reject() returns (outcome: Outcome)
      requires fd > 0 && start && BoardAfter(calls) == Open(fd)
      modifies this`fd, this`start, this`reject, this`calls
      ensures fd >= 0 && start == (fd > 0) && BoardAfter(calls) == if fd > 0 then Open(fd) else Closed
      ensures outcome.Continue? ==> fd > 0
      ensures if Difficulty.Diff(targetDiff) <= 1000000000000.0 then
                outcome.Continue? && fd == old(fd) && reject == old(reject) && calls == old(calls)
              else if old(reject) + 1 >= chips * 1000 then
                outcome.NextWork? && fd == reject == 0 && calls == old(calls) + [Deinit(old(fd))]
              else
                outcome.Continue? && fd == old(fd) && reject == old(reject) + 1 && calls == old(calls)
    {
      hide BoardAfter, Difficulty.Power, Difficulty.Diff, Difficulty.Within, Difficulty.Whole;
      var diff := Difficulty.GetDiff(targetDiff);
      if diff > 1000000000000.0 {
        reject := reject + 1;
        if reject >= chips * 1000 {
          Record(Deinit(fd));
          start, fd, reject := false, 0, 0;
          return NextWork;
        }
      }
      return Continue;
    }

    /** An answer of a chip with a nonce that is new to the batch. */
    method Take(m: Moment<H>, answer: Answer, ghost template: seq<Transaction<H>>) returns (outcome: Outcome)
      requires Valid(template) && fd > 0 && Assigned(template) && answer.chip in works
      requires FromLittleEndian(answer.nonce) !in nonces
      requires !pool && hasSubmit ==> txCount > 1
      requires Accounted()
      modifies this`fd, this`start, this`reject, this`hasSubmit, this`works, this`nonces, this`calls, this`sent
      modifies this`judged
      ensures Valid(template) && Assigned(template) && Accounted()
      ensures match outcome case Continue => fd > 0 case NextWork => fd == 0 case Leave => m.closed
      ensures nonces == old(nonces) + {FromLittleEndian(answer.nonce)}
      ensures |old(works)[answer.chip].header| == HEADER
      ensures var work := WithNonce(old(works)[answer.chip], answer.nonce);
              && works == old(works)[answer.chip := work]
              && sent == if powHash(work.header) <= work.target && !m.closed
                         then old(sent) + [ShareOf(old(adoption), old(batch), template, work, answer.nonce)]
                         else old(sent)
    {
      hide SentGood, Current, WorkGood, WorksGood, BoardAfter, FromLittleEndian, ShareOf, JudgedWell;
      ChipGood(lib, pool, template, works, answer.chip);
      var work := WithNonce(works[answer.chip], answer.nonce);
      NonceKeeps(lib, pool, template, works[answer.chip], answer.nonce);
      SaveGood(lib, pool, template, works, answer.chip, work);
      works := works[answer.chip := work];
      ghost var before := nonces;
      nonces := nonces + {FromLittleEndian(answer.nonce)};
      outcome := Judge(m, work, answer.nonce, before, template);
    }

    /** One answer of a chip: none of this board's chips and nonces already seen are ignored. */
    method Handle(m: Moment<H>, answer: Answer, ghost template: seq<Transaction<H>>) returns (outcome: Outcome)
      requires Valid(template) && fd > 0 && Assigned(template) && AllServed()
      requires !pool && hasSubmit ==> txCount > 1
      requires Accounted()
      modifies this`fd, this`start, this`reject, this`hasSubmit, this`works, this`nonces, this`calls, this`sent
      modifies this`judged
      ensures Valid(template) && Assigned(template) && AllServed() && Accounted()
      ensures match outcome case Continue => fd > 0 case NextWork => fd == 0 case Leave => m.closed || chips < 1
      ensures txCount == old(txCount) && works.Keys == old(works.Keys)
      ensures 1 <= answer.chip <= chips % 256 && answer.chip in works ==> FromLittleEndian(answer.nonce) in nonces
      ensures old(nonces) <= nonces
      ensures var nonce := FromLittleEndian(answer.nonce);
              if answer.chip < 1 || answer.chip > chips % 256 || answer.chip !in old(works) || nonce in old(nonces) then
                sent == old(sent) && nonces == old(nonces) && works == old(works) && calls == old(calls)
              else
                && nonces == old(nonces) + {nonce}
                && |old(works)[answer.chip].header| == HEADER
                && var work := WithNonce(old(works)[answer.chip], answer.nonce);
                && works == old(works)[answer.chip := work]
                && sent == if powHash(work.header) <= work.target && !m.closed
                           then old(sent) + [ShareOf(old(adoption), old(batch), template, work, answer.nonce)]
                           else old(sent)
    {
      hide FromLittleEndian, ShareOf, Valid, Assigned, WithNonce, Accounted;
      if answer.chip < 1 || answer.chip > chips % 256 {
        return Continue;
      }
      if answer.chip !in works {
        assert chips < 1;
        return Leave;
      }
      var nonce := FromLittleEndian(answer.nonce);
      if nonce in nonces {
        return Continue;
      }
      outcome := Take(m, answer, template);
    }

    lemma AfterListening(m: Moment<H>)
      requires Reads(Listening, m)
      ensures m.timeUp || m.hasNewWork || m.forceStop ==> Along(Between)
      ensures !m.timeUp && !m.hasNewWork && !m.forceStop ==>
                if m.quit then Ended() else Along(Listening) && Along(Waiting) && (m.closed || chips < 1 ==> Ended())
    {
      hide Reads, Along, Ended;
      if m.timeUp || m.hasNewWork || m.forceStop {
        GoesOn(Listening, m, Between);
      } else if m.quit {
        EndsAt(Listening, m);
      } else {
        GoesOn(Listening, m, Listening);
        GoesOn(Listening, m, Waiting);
        if m.closed || chips < 1 {
          EndsAt(Listening, m);
        }
      }
    }

    /** The driver is asked for a nonce. */
    ghost method Ask(template: seq<Transaction<H>>)
      requires Valid(template) && fd > 0
      modifies this`calls
      ensures Valid(template) && calls == old(calls) + [GetNonce(fd)]
    {
      hide SentGood, Current, BoardAfter;
      Record(GetNonce(fd));
    }

    /** Asks the driver for nonces until it is time for the next batch. */
    method Listen(ghost template: seq<Transaction<H>>) returns (outcome: Outcome)
      requires Valid(template) && fd > 0 && Assigned(template) && AllServed() && Along(Listening) && Accounted()
      modifies this`script, this`seen, this`fd, this`start, this`reject, this`hasSubmit, this`works, this`nonces
      modifies this`calls, this`sent, this`judged
      ensures Valid(template) && Accounted() && (outcome.Continue? ==> fd > 0)
      ensures |script| <= |old(script)|
      ensures match outcome case Continue => Along(Between) case NextWork => Along(Waiting) case Leave => Ended()
      ensures outcome.NextWork? ==> fd == 0 || (!pool && txCount <= 1 && hasSubmit)
      ensures works.Keys == old(works.Keys)
      ensures pool || txCount > 1 ==> Heard(seen, |old(seen)|, chips, works.Keys, nonces)
    {
      hide SentGood, Current, WorkGood, WorksGood, BoardAfter, Along, Reads, Ended, Follows, Ends, FromLittleEndian;
      hide Heard, Accounted, Valid, Assigned, AllServed, NotedBy;
      NothingHeard(seen, chips, works.Keys, nonces);
      while true
        invariant Valid(template) && Assigned(template) && AllServed() && fd > 0 && Along(Listening) && Accounted()
        invariant |script| <= |old(script)| && works.Keys == old(works.Keys)
        invariant pool || txCount > 1 ==> Heard(seen, |old(seen)|, chips, works.Keys, nonces)
        decreases |script|
      {
        var now := Next(Listening);
        if now.None? {
          return Leave;
        }
        var m := now.value;
        ghost var before, heard := nonces, seen[..|seen| - 1];
        assert seen == heard + [Seen(Listening, m)];
        AfterListening(m);
        if m.timeUp || m.hasNewWork || m.forceStop || m.quit || m.answer.None? {
          NotAsked(m, chips, works.Keys, nonces);
          if pool || txCount > 1 {
            HeardNext(heard, |old(seen)|, chips, works.Keys, before, nonces, Seen(Listening, m));
          }
        }
        if m.timeUp || m.hasNewWork || m.forceStop {
          return Continue;
        }
        if m.quit {
          return Leave;
        }
        if !pool && txCount <= 1 && hasSubmit {
          return NextWork;
        }
        Ask(template);
        if m.answer.Some? {
          outcome := Handle(m, m.answer.value, template);
          Answered(m, chips, works.Keys, nonces);
          if pool || txCount > 1 {
            HeardNext(heard, |old(seen)|, chips, works.Keys, before, nonces, Seen(Listening, m));
          }
          if !outcome.Continue? {
            return;
          }
        }
      }
    }

    /** init_drv, when the board is not open, and its frequencies. */
    method OpenBoard(m: Moment<H>, ghost template: seq<Transaction<H>>) returns (ready: bool)
      requires Valid(template)
      modifies this`fd, this`start, this`calls
      ensures Held()
      ensures ready == (old(fd) > 0 || (m.initialized > 0 && m.freqsGood))
      ensures old(fd) > 0 ==> fd == old(fd) && calls == old(calls)
      ensures old(fd) == 0 ==> fd == m.initialized && old(calls) + [Init(fd)] <= calls
      ensures ready ==> Valid(template) && fd > 0
    {
      hide SentGood, Current, BoardAfter;
      if !start && fd == 0 {
        fd := m.initialized;
        Record(Init(fd));
        if fd <= 0 {
          return false;
        }
        start := true;
        for k := 0 to m.freqs
          invariant BoardAfter(calls) == Board.Open(fd) && old(calls) + [Init(fd)] <= calls
        {
          Record(SetFreq(fd));
        }
        if !m.freqsGood {
          return false;
        }
      }
      return true;
    }

    /** The empty maps of a new batch. */
    method NewBatch(ghost template: seq<Transaction<H>>)
      requires Valid(template) && Accounted()
      modifies this`nonces, this`works, this`batch
      ensures Accounted()
      ensures Valid(template) && Assigned(template) && nonces == {} && works == map[] && batch == old(batch) + 1
    {
      hide SentGood;
      NothingJudged(powHash, judged, sent, nonces, batch, batch + 1);
      nonces, works, batch := {}, map[], batch + 1;
    }

    /** The loop labelled gotoWork: batch after batch of one work. */
    method Search(block: BlockHeader<H>) returns (outcome: Outcome)
      requires block.Valid(lib) && Valid(block.template) && Along(Between) && Accounted()
      modifies this, block, block.transactions
      ensures Accounted()
      ensures !outcome.Continue? && if outcome.NextWork? then Along(Waiting) else Ended()
      ensures Held()
      ensures outcome.NextWork? ==> Valid(block.template)
      ensures |script| <= |old(script)|
    {
      hide *;
      while true
        invariant block.Valid(lib) && Valid(block.template) && Along(Between) && Accounted()
        invariant block.transactions == old(block.transactions) || fresh(block.transactions)
        invariant |script| <= |old(script)|
        decreases |script|
      {
        ValidHeld(block.template);
        var now := Next(Between);
        if now.None? {
          return Leave;
        }
        var m := now.value;
        AfterBetween(m);
        if m.hasNewWork || m.forceStop {
          return NextWork;
        }
        if m.quit {
          return Leave;
        }
        var ready := OpenBoard(m, block.template);
        if !ready {
          return Leave;
        }
        NewBatch(block.template);
        outcome := AssignAll(block);
        ValidHeld(block.template);
        if !outcome.Continue? {
          return;
        }
        outcome := Listen(block.template);
        ValidHeld(block.template);
        if !outcome.Continue? {
          return;
        }
      }
    }

    lemma AfterBetween(m: Moment<H>)
      requires Reads(Between, m)
      ensures m.hasNewWork || m.forceStop ==> Along(Waiting)
      ensures !m.hasNewWork && !m.forceStop ==>
                if m.quit then Ended()
                else Along(Serving(chips, 1)) && (m.initialized <= 0 || !m.freqsGood ==> Ended())
    {
      hide Reads, Along, Ended, Serving;
      if m.hasNewWork || m.forceStop {
        GoesOn(Between, m, Waiting);
      } else if m.quit {
        EndsAt(Between, m);
      } else {
        GoesOn(Between, m, Serving(chips, 1));
        if m.initialized <= 0 || !m.freqsGood {
          EndsAt(Between, m);
        }
      }
    }

    lemma AfterWaiting(m: Moment<H>)
      requires Reads(Waiting, m)
      ensures if m.quit || !m.valid then Ended()
              else if m.forceStop || !m.hasNewWork || !m.usable then Along(Waiting)
              else Along(Between)
    {
      hide Reads, Along, Ended;
      if m.quit || !m.valid {
        EndsAt(Waiting, m);
      } else {
        GoesOn(Waiting, m, if m.forceStop || !m.hasNewWork || !m.usable then Waiting else Between);
      }
    }

    /** The next work is adopted: nothing has been sent under it. */
    method Adopt(m: Moment<H>, ghost template: seq<Transaction<H>>) returns (block: BlockHeader<H>)
      requires Valid(template)
      modifies this`reject, this`hasSubmit, this`txCount, this`targetDiff, this`adoption
      ensures fresh(block) && fresh(block.transactions) && block.Valid(lib) && Valid(block.template)
      ensures adoption == old(adoption) + 1 && !hasSubmit && reject == 0 && block.template == m.delivered
    {
      hide SentGood, SameTemplate, DecodeAll, TotalOf, BoardAfter, Current;
      CurrentAdopted(sent, adoption, batch, hasSubmit, template, nonces, m.delivered);
      reject, hasSubmit, txCount, targetDiff := 0, false, 0, 0;
      adoption := adoption + 1;
      var list := new Transaction<H>[|m.delivered|](i requires 0 <= i < |m.delivered| => m.delivered[i]);
      assert list[..] == m.delivered;
      block := new BlockHeader<H>(list, lib.zero);
    }

    /** One work from its adoption to the end of the search. */
    method TakeUp(m: Moment<H>, ghost before: seq<Transaction<H>>)
      returns (outcome: Outcome, ghost template: seq<Transaction<H>>)
      requires Valid(before) && Along(Between) && Accounted()
      modifies this
      ensures !outcome.Continue? && if outcome.NextWork? then Along(Waiting) && Valid(template) else Ended()
      ensures Held() && Accounted() && |script| <= |old(script)|
    {
      hide *;
      var block := Adopt(m, before);
      template := block.template;
      outcome := Search(block);
    }

    /** What Mine defers. */
    method CloseBoard()
      requires Held()
      modifies this`calls
      ensures BoardAfter(calls) == Closed && SentGood(lib, pool, powHash, sent)
    {
      hide SentGood, BoardAfter;
      if fd > 0 {
        Record(Deinit(fd));
      }
    }

    /** Mine: takes up works until it has to leave, and closes the board if it is open. */
    method Mine()
      requires fd == 0 && !start && calls == [] && sent == [] && adoption == batch == 0 && Along(Waiting)
      requires judged == [] && nonces == {}
      modifies this
      ensures BoardAfter(calls) == Closed && Ended() && Accounted() && sent == GoodOf(powHash, judged)
      ensures SentGood(lib, pool, powHash, sent)
    {
      ghost var template: seq<Transaction<H>> := [];
      hide *;
      NothingYet();
      while true
        invariant Valid(template) && Along(Waiting) && Accounted()
        decreases |script|
      {
        ValidHeld(template);
        var now := Next(Waiting);
        if now.None? {
          break;
        }
        var m := now.value;
        AfterWaiting(m);
        if m.quit || !m.valid {
          break;
        }
        if m.forceStop || !m.hasNewWork || !m.usable {
          continue;
        }
        var outcome;
        outcome, template := TakeUp(m, template);
        if outcome.Leave? {
          break;
        }
      }
      CloseBoard();
      SentIsGood();
    }

    lemma NothingYet()
      requires fd == 0 && !start && calls == [] && sent == [] && adoption == batch == 0 && judged == [] && nonces == {}
      ensures Valid([]) && Accounted()
    {
      hide ShareGood;
    }

    lemma SentIsGood()
      requires Accounted()
      ensures sent == GoodOf(powHash, judged)
    {}
  }

  /** The share that comes of a work with its nonce in place. */
  ghost function ShareOf<H>(adoption: nat, batch: nat, template: seq<Transaction<H>>, work: ChipWork<H>,
                            nonce: NonceBytes): Share<H>
  {
    var b := DecodeHex(BeforeDash(work.submitStr));
    var text := if |work.header| == HEADER && (b.Some? ==> |b.value| >= HEADER)
                then Replaced(work.submitStr, work.job.Tail(), work.header, nonce) else "";
    Share(adoption, batch, template, work, nonce, text)
  }

  lemma ShareIs<H>(adoption: nat, batch: nat, template: seq<Transaction<H>>, work: ChipWork<H>, nonce: NonceBytes)
    ensures var s := ShareOf(adoption, batch, template, work, nonce);
            s.work == work && s.batch == batch && s.nonce == nonce && s.adoption == adoption && s.template == template
  {}

  function WithNonce<H>(w: ChipWork<H>, nonce: NonceBytes): ChipWork<H>
    requires |w.header| == HEADER
  {
    w.(header := w.header[..NONCE_START] + nonce)
  }

  lemma NonceKeeps<H(!new)>(lib: Library<H>, pool: bool, template: seq<Transaction<H>>, w: ChipWork<H>,
                            nonce: NonceBytes)
    requires WorkGood(lib, pool, template, w)
    ensures WorkGood(lib, pool, template, WithNonce(w, nonce)) && WithNonce(w, nonce).header[NONCE_START..] == nonce
  {}

  lemma SaveGood<H(!new)>(lib: Library<H>, pool: bool, template: seq<Transaction<H>>, works: map<nat, ChipWork<H>>,
                    chip: nat, work: ChipWork<H>)
    requires WorksGood(lib, pool, template, works) && WorkGood(lib, pool, template, work)
    ensures WorksGood(lib, pool, template, works[chip := work])
  {
    hide WorkGood;
  }

  /** The hashes of transactions as they are read back from their data. */
  function HashesOfData<H>(lib: Library<H>, data: seq<string>): (hashes: seq<H>)
    ensures |hashes| == |data| && forall i :: 0 <= i < |data| ==> hashes[i] == lib.txHash(lib.decode(data[i]))
  {
    seq(|data|, i requires 0 <= i < |data| => lib.txHash(lib.decode(data[i])))
  }

  /** Their hashes with the signatures. */
  function FullHashesOfData<H>(lib: Library<H>, data: seq<string>): (hashes: seq<H>)
    ensures |hashes| == |data| && forall i :: 0 <= i < |data| ==> hashes[i] == lib.fullHash(lib.decode(data[i]))
  {
    seq(|data|, i requires 0 <= i < |data| => lib.fullHash(lib.decode(data[i])))
  }

  /** The data is that of this coinbase and of transactions whose hashes make up the root, and
      the coinbase commits to their witness root. */
  ghost predicate RootOfSent<H>(lib: Library<H>, root: H, coinbase: Tx<H>, data: seq<string>) {
    && |data| > 0 && lib.serialize(coinbase) == Some(data[0])
    && root == Root(lib.hashing, [lib.txHash(coinbase)] + HashesOfData(lib, data[1..]))
    && coinbase.commitment
       == lib.commit(Root(lib.hashing, [lib.zero] + FullHashesOfData(lib, data[1..])), coinbase.signScript)
  }

  lemma TemplateData<H>(lib: Library<H>, txs: seq<Transaction<H>>, template: seq<Transaction<H>>)
    requires |txs| > 0 && SameTemplate(txs[1..], template)
    ensures DataOf(txs)[1..] == DataOf(template)
    ensures HashesOfData(lib, DataOf(txs)[1..]) == TemplateLeaves(lib, template)
    ensures FullHashesOfData(lib, DataOf(txs)[1..]) == WitnessLeaves(lib, template)
  {
    forall i | 0 <= i < |template|
      ensures DataOf(txs)[1..][i] == template[i].data
    {
      assert txs[1..][i] == txs[i + 1];
    }
  }

  /** A solo work's root is that of the very data it sends. */
  lemma SoloSends<H(!new)>(lib: Library<H>, template: seq<Transaction<H>>, root: H, txs: seq<Transaction<H>>)
    requires SoloGood(lib, template, root, txs)
    ensures DataOf(txs)[1..] == DataOf(template)
    ensures exists coinbase :: RootOfSent(lib, root, coinbase, DataOf(txs))
  {
    var coinbase :| IsSealed(lib, coinbase, txs[0]) && Committed(lib, coinbase, template);
    TemplateData(lib, txs, template);
    hide Root, TemplateLeaves, WitnessLeaves, HashesOfData, FullHashesOfData;
    assert RootOfSent(lib, root, coinbase, DataOf(txs));
  }

  /** The header and the job of a share, field by field. */
  lemma ShareHeader<H(!new)>(lib: Library<H>, pool: bool, powHash: seq<Octet> -> nat, s: Share<H>)
    requires ShareGood(lib, pool, powHash, s)
    ensures |s.work.header| == HEADER && s.work.header[NONCE_START..] == s.nonce
    ensures var bare := s.work.task.bare(s.work.root);
            && (forall i :: 0 <= i < NONCE_START ==> s.work.header[i] == if i < |bare| then bare[i] else 0)
            && (|bare| >= NONCE_START ==> s.work.header[..NONCE_START] == bare[..NONCE_START])
    ensures var (job, task) := (s.work.job, s.work.task);
            && job.headerData == task.withProof(s.work.root) && job.parents == task.parents && job.pool == pool
            && job.jobId == task.jobId && job.exnonce2 == task.exnonce2 && job.height == task.height
            && (!pool ==> job.gbtId == task.gbtId)
  {
    hide Concat, EncodeHex, DecodeHex, BeforeDash, Replaced, SoloGood, DataOf;
  }

  /** What goes out for a good share is the text of the one-phase miner, which begins with
      the header that met the target, for every job but those with odd parents. A solo header
      carries the root over the hash of the coinbase that is sent and the hashes of the
      transactions that are sent behind it, which are the template's; and the coinbase commits
      to their witness root. */
  lemma SubmittedIsHashed<H(!new)>(lib: Library<H>, pool: bool, powHash: seq<Octet> -> nat, s: Share<H>)
    requires ShareGood(lib, pool, powHash, s)
    ensures |s.work.header| == HEADER <= |s.work.job.headerData|
    ensures s.text == s.work.job.Submission(s.work.header, s.nonce)
            <==> pool || LowerHex(BeforeDash(Concat(s.work.task.parents)))
    ensures pool || LowerHex(BeforeDash(Concat(s.work.task.parents))) ==>
              && |s.text| >= 2 * HEADER
              && DecodeHex(s.text[..2 * HEADER]) == Some(s.work.header)
    ensures powHash(s.work.header) <= s.work.task.target
    ensures var bare := s.work.task.bare(s.work.root);
            && (forall i :: 0 <= i < NONCE_START ==> s.work.header[i] == if i < |bare| then bare[i] else 0)
            && (|bare| >= NONCE_START ==> s.work.header[..NONCE_START] == bare[..NONCE_START])
    ensures s.work.header[NONCE_START..] == s.nonce
    ensures var (job, task) := (s.work.job, s.work.task);
            && job.headerData == task.withProof(s.work.root) && job.parents == task.parents && job.pool == pool
            && job.jobId == task.jobId && job.exnonce2 == task.exnonce2 && job.height == task.height
            && (!pool ==> job.gbtId == task.gbtId)
    ensures !pool ==>
              && (exists coinbase :: RootOfSent(lib, s.work.root, coinbase, s.work.job.transactions))
              && s.work.job.transactions[1..] == DataOf(s.template)
  {
    ShareHeader(lib, pool, powHash, s);
    hide StandsIn, WitnessLeaves, HashesOfData, FullHashesOfData, SameTemplate, IsSealed, Committed;
    var job, header := s.work.job, s.work.header;
    Cut(header, NONCE_START);
    if !pool {
      SoloSends(lib, s.template, s.work.root, s.work.txs);
    }
    hide EncodeHex, DecodeHex, Concat, BeforeDash, LowerHex, Root, TemplateLeaves, DataOf, Replaced;
    hide Int2varinthex, Decimal, Copied, SoloGood, RootOfSent;
    TwoPhasesAgree(job, header, s.nonce);
    SubmissionHeader(job, header, s.nonce);
  }
}
