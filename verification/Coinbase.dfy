/** Packing the coinbase transaction into a block template. The header object is rewritten in
    place on every call: its transaction list is an array whose slot 0 changes under whoever
    holds it. */
module Coinbase {
  import opened Options
  import opened Merkle

  const UINT64: nat := 0x1_0000_0000_0000_0000

  datatype TxOut = TxOut(value: int, id: int, script: string)

  /** A decoded transaction, as far as this code looks into it: TxIn[0] holds a signature
      script and the hash of the previous output, where the witness commitment goes. */
  datatype Tx<H> = Tx(outs: seq<TxOut>, signScript: string, commitment: H, body: string)

  /** A transaction of the template: its hash, its serialised data in hex, and its fee. */
  datatype Transaction<H> = Transaction(hash: H, data: string, fee: int)

  /** The functions and constants of the node's library that the code calls. */
  datatype Library<!H> = Library(
    hashing: Hashing<H>,
    zero: H,
    decode: string -> Tx<H>,
    txHash: Tx<H> -> H,
    fullHash: Tx<H> -> H,
    commit: (H, string) -> H,
    serialize: Tx<H> -> Option<string>,
    subsidyOutput: nat,
    meerId: int)

  /** What a coinbase instance makes: the transaction and an optional extra output. */
  datatype Made<H> = Made(tx: Tx<H>, extra: Option<TxOut>)

  // ----- outputs -----

  function FeeOutputs(meerId: int, script: string, fees: seq<(int, int)>): (outs: seq<TxOut>)
    ensures forall o :: o in outs ==> o.value == 0 && o.script == script && o.id != meerId
  {
    if |fees| == 0 then
      []
    else
      var (id, value) := fees[|fees| - 1];
      FeeOutputs(meerId, script, fees[..|fees| - 1])
      + if value <= 0 || id == meerId then [] else [TxOut(0, id, script)]
  }

  /** The coin at place i of the fees gets an output of its own. */
  predicate IsCharged(meerId: int, fees: seq<(int, int)>, i: nat) {
    i < |fees| && fees[i].1 > 0 && fees[i].0 != meerId
  }

  predicate Charges(meerId: int, fees: seq<(int, int)>, id: int) {
    exists i: nat :: i < |fees| && IsCharged(meerId, fees, i) && fees[i].0 == id
  }

  predicate Pays(outs: seq<TxOut>, id: int) {
    exists i: nat :: i < |outs| && outs[i].id == id
  }

  lemma ChargesMore(meerId: int, fees: seq<(int, int)>, id: int)
    requires |fees| > 0
    ensures var last := |fees| - 1;
            Charges(meerId, fees, id)
            <==> Charges(meerId, fees[..last], id) || (IsCharged(meerId, fees, last) && fees[last].0 == id)
  {
    var front, last := fees[..|fees| - 1], |fees| - 1;
    if Charges(meerId, fees, id) {
      var i: nat :| i < |fees| && IsCharged(meerId, fees, i) && fees[i].0 == id;
      assert i < last ==> IsCharged(meerId, front, i);
    }
    if Charges(meerId, front, id) {
      var i: nat :| i < |front| && IsCharged(meerId, front, i) && front[i].0 == id;
      assert IsCharged(meerId, fees, i);
    }
  }

  lemma PaysMore(outs: seq<TxOut>, out: TxOut, id: int)
    ensures Pays(outs + [out], id) <==> Pays(outs, id) || out.id == id
  {
    var more := outs + [out];
    assert more[|outs|] == out;
    if Pays(outs, id) {
      var i: nat :| i < |outs| && outs[i].id == id;
      assert more[i] == outs[i];
    }
  }

  /** Exactly the coins with a positive fee get an output, the base coin excepted. */
  lemma {:induction false} FeeOutputsPay(meerId: int, script: string, fees: seq<(int, int)>, id: int)
    ensures Pays(FeeOutputs(meerId, script, fees), id) <==> Charges(meerId, fees, id)
  {
    if |fees| > 0 {
      var (coin, value) := fees[|fees| - 1];
      var outs := FeeOutputs(meerId, script, fees[..|fees| - 1]);
      FeeOutputsPay(meerId, script, fees[..|fees| - 1], id);
      ChargesMore(meerId, fees, id);
      PaysMore(outs, TxOut(0, coin, script), id);
      assert outs + [] == outs;
    }
  }

  /** The coins of a map of fees are distinct, and so are the coins of its outputs. */
  lemma {:induction false} FeeOutputsDistinct(meerId: int, script: string, fees: seq<(int, int)>)
    requires forall i, j :: 0 <= i < j < |fees| ==> fees[i].0 != fees[j].0
    ensures var outs := FeeOutputs(meerId, script, fees);
            forall i, j :: 0 <= i < j < |outs| ==> outs[i].id != outs[j].id
  {
    if |fees| > 0 {
      var front, coin := fees[..|fees| - 1], fees[|fees| - 1].0;
      FeeOutputsDistinct(meerId, script, front);
      FeeOutputsPay(meerId, script, front, coin);
      var outs := FeeOutputs(meerId, script, front);
      forall i: nat | i < |outs|
        ensures outs[i].id != coin
      {
        assert !Charges(meerId, front, coin);
        assert !Pays(outs, coin);
      }
    }
  }

  /** The coinbase with all its outputs. */
  function Filled<H>(lib: Library<H>, made: Made<H>, fees: seq<(int, int)>): Tx<H> {
    var script := if |made.tx.outs| > 0 then made.tx.outs[0].script else "";
    made.tx.(outs := made.tx.outs + FeeOutputs(lib.meerId, script, fees)
                     + if made.extra.Some? then [made.extra.value] else [])
  }

  /** fillOutputsToCoinBase: fees lists the block's fee map in the order it is visited. */
  method FillOutputs<H>(lib: Library<H>, made: Made<H>, fees: seq<(int, int)>) returns (filled: Option<Tx<H>>)
    ensures filled.None? <==> |made.tx.outs| != lib.subsidyOutput + 1
    ensures filled.Some? ==> filled.value == Filled(lib, made, fees)
    ensures filled.Some? ==>
              filled.value == made.tx.(outs := made.tx.outs + FeeOutputs(lib.meerId, made.tx.outs[0].script, fees)
                                               + (if made.extra.Some? then [made.extra.value] else []))
  {
    if |made.tx.outs| != lib.subsidyOutput + 1 {
      return None;
    }
    var outs := made.tx.outs;
    for i := 0 to |fees|
      invariant outs == made.tx.outs + FeeOutputs(lib.meerId, made.tx.outs[0].script, fees[..i])
    {
      assert fees[..i + 1][..i] == fees[..i];
      var (id, value) := fees[i];
      if value <= 0 || id == lib.meerId {
        continue;
      }
      outs := outs + [TxOut(0, id, outs[0].script)];
    }
    assert fees[..|fees|] == fees;
    if made.extra.Some? {
      outs := outs + [made.extra.value];
    }
    return Some(made.tx.(outs := outs));
  }

  // ----- witness commitment -----

  function WitnessRoot<H>(lib: Library<H>, txs: seq<Tx<H>>): H
    requires |txs| > 0
  {
    Root(lib.hashing, Leaves(lib.zero, lib.fullHash, lib.txHash, txs, true))
  }

  function TxRoot<H>(lib: Library<H>, txs: seq<Tx<H>>): H
    requires |txs| > 0
  {
    Root(lib.hashing, Leaves(lib.zero, lib.fullHash, lib.txHash, txs, false))
  }

  /** fillWitnessToCoinBase. */
  function FillWitness<H>(lib: Library<H>, txs: seq<Tx<H>>): (filled: seq<Tx<H>>)
    requires |txs| > 0
    ensures |filled| == |txs| && filled[1..] == txs[1..]
  {
    txs[0 := txs[0].(commitment := lib.commit(WitnessRoot(lib, txs), txs[0].signScript))]
  }

  /** The commitment does not depend on the coinbase it is written into, so filling it in
      once more, even after another commitment was there, gives the same block. */
  lemma FillWitnessFixed<H>(lib: Library<H>, txs: seq<Tx<H>>, other: H)
    requires |txs| > 0
    ensures FillWitness(lib, FillWitness(lib, txs)) == FillWitness(lib, txs)
    ensures FillWitness(lib, txs[0 := txs[0].(commitment := other)]) == FillWitness(lib, txs)
  {
    WitnessIgnoresFirst(lib.zero, lib.fullHash, lib.txHash, txs, FillWitness(lib, txs)[0]);
    WitnessIgnoresFirst(lib.zero, lib.fullHash, lib.txHash, txs, txs[0].(commitment := other));
  }

  // ----- fees -----

  function Clamp(fee: int): nat {
    if fee <= 0 then 0 else fee
  }

  /** The fees that count, added up in a uint64. */
  function TotalOf<H>(list: seq<Transaction<H>>): (total: nat)
    ensures total < UINT64
  {
    if |list| == 0 then 0 else (TotalOf(list[..|list| - 1]) + Clamp(list[|list| - 1].fee)) % UINT64
  }

  /** The same transactions, negative fees perhaps set to zero. */
  ghost predicate SameTemplate<H>(list: seq<Transaction<H>>, template: seq<Transaction<H>>) {
    && |list| == |template|
    && forall i :: 0 <= i < |list| ==>
         list[i].hash == template[i].hash && list[i].data == template[i].data
         && (list[i].fee == template[i].fee || list[i].fee == Clamp(template[i].fee))
  }

  lemma {:induction false} TotalOfSame<H>(list: seq<Transaction<H>>, template: seq<Transaction<H>>)
    requires SameTemplate(list, template)
    ensures TotalOf(list) == TotalOf(template)
  {
    if |list| > 0 {
      TotalOfSame(list[..|list| - 1], template[..|list| - 1]);
    }
  }

  lemma TotalOfNext<H>(list: seq<Transaction<H>>, i: nat)
    requires i < |list|
    ensures TotalOf(list[..i + 1]) == (TotalOf(list[..i]) + Clamp(list[i].fee)) % UINT64
  {
    assert list[..i + 1][..i] == list[..i];
  }

  lemma ClampKeepsTemplate<H>(list: seq<Transaction<H>>, template: seq<Transaction<H>>, i: nat)
    requires SameTemplate(list, template) && i < |list|
    ensures SameTemplate(list[i := list[i].(fee := Clamp(list[i].fee))], template)
  {}

  function DecodeAll<H>(lib: Library<H>, list: seq<Transaction<H>>): (txs: seq<Tx<H>>)
    ensures |txs| == |list|
    ensures forall i :: 0 <= i < |list| ==> txs[i] == lib.decode(list[i].data)
  {
    seq(|list|, i requires 0 <= i < |list| => lib.decode(list[i].data))
  }

  lemma DecodeAllNext<H>(lib: Library<H>, list: seq<Transaction<H>>, i: nat)
    requires i < |list|
    ensures DecodeAll(lib, list[..i + 1]) == DecodeAll(lib, list[..i]) + [lib.decode(list[i].data)]
  {}

  lemma DecodeAllSame<H>(lib: Library<H>, list: seq<Transaction<H>>, template: seq<Transaction<H>>)
    requires SameTemplate(list, template)
    ensures DecodeAll(lib, list) == DecodeAll(lib, template)
  {}

  lemma EmptyTotal<H>()
    ensures TotalOf<H>([]) == 0
  {}

  /** The leaves that the template contributes to the transaction tree. */
  function TemplateLeaves<H>(lib: Library<H>, template: seq<Transaction<H>>): (leaves: seq<H>)
    ensures |leaves| == |template|
    ensures forall i :: 0 <= i < |template| ==> leaves[i] == lib.txHash(lib.decode(template[i].data))
  {
    seq(|template|, i requires 0 <= i < |template| => lib.txHash(lib.decode(template[i].data)))
  }

  /** And to the witness tree, where they count with their signatures. */
  function WitnessLeaves<H>(lib: Library<H>, template: seq<Transaction<H>>): (leaves: seq<H>)
    ensures |leaves| == |template|
    ensures forall i :: 0 <= i < |template| ==> leaves[i] == lib.fullHash(lib.decode(template[i].data))
  {
    seq(|template|, i requires 0 <= i < |template| => lib.fullHash(lib.decode(template[i].data)))
  }

  /** The coinbase commits to the block that it and the template make. */
  ghost predicate Committed<H>(lib: Library<H>, coinbase: Tx<H>, template: seq<Transaction<H>>) {
    coinbase.commitment == lib.commit(Root(lib.hashing, [lib.zero] + WitnessLeaves(lib, template)), coinbase.signScript)
  }

  /** Only the commitment of the coinbase is written, and it is that of the whole block. */
  lemma CommitsToTemplate<H>(lib: Library<H>, coinbase: Tx<H>, template: seq<Transaction<H>>)
    ensures FillWitness(lib, [coinbase] + DecodeAll(lib, template))
         == [coinbase.(commitment := lib.commit(Root(lib.hashing, [lib.zero] + WitnessLeaves(lib, template)),
                                                coinbase.signScript))]
            + DecodeAll(lib, template)
  {
    hide DecodeAll, WitnessLeaves, Root, Leaves;
    WitnessLeavesAre(lib, coinbase, template);
    var txs := [coinbase] + DecodeAll(lib, template);
    assert txs[0] == coinbase && txs[1..] == DecodeAll(lib, template);
    assert FillWitness(lib, txs) == [FillWitness(lib, txs)[0]] + FillWitness(lib, txs)[1..];
  }

  lemma WitnessLeavesAre<H>(lib: Library<H>, coinbase: Tx<H>, template: seq<Transaction<H>>)
    ensures Leaves(lib.zero, lib.fullHash, lib.txHash, [coinbase] + DecodeAll(lib, template), true)
         == [lib.zero] + WitnessLeaves(lib, template)
  {
    hide DecodeAll, WitnessLeaves, Leaves;
  }

  lemma TxRootOfTemplate<H>(lib: Library<H>, coinbase: Tx<H>, template: seq<Transaction<H>>)
    ensures TxRoot(lib, [coinbase] + DecodeAll(lib, template))
         == Root(lib.hashing, [lib.txHash(coinbase)] + TemplateLeaves(lib, template))
  {
    var txs := [coinbase] + DecodeAll(lib, template);
    assert Leaves(lib.zero, lib.fullHash, lib.txHash, txs, false)
        == [lib.txHash(coinbase)] + TemplateLeaves(lib, template);
  }

  function CoinbaseEntry<H>(lib: Library<H>, tx: Tx<H>): Transaction<H> {
    Transaction(lib.txHash(tx), "", 0)
  }

  /** Whether a call gets past the outputs and so packs its coinbase. */
  predicate Packs<H>(lib: Library<H>, made: Option<Made<H>>) {
    made.Some? && |made.value.tx.outs| == lib.subsidyOutput + 1
  }

  /** The block that a call seals: its own coinbase, with the commitment filled in, before the
      template. */
  function Sealed<H>(lib: Library<H>, made: Made<H>, fees: seq<(int, int)>, template: seq<Transaction<H>>)
    : (txs: seq<Tx<H>>)
    ensures |txs| == |template| + 1
  {
    FillWitness(lib, [Filled(lib, made, fees)] + DecodeAll(lib, template))
  }

  /** Filling in the commitment changes nothing else, and nothing is left to fill in. */
  lemma SealedIs<H>(lib: Library<H>, made: Made<H>, fees: seq<(int, int)>, template: seq<Transaction<H>>)
    ensures var txs := Sealed(lib, made, fees, template);
            && txs[0] == Filled(lib, made, fees).(commitment := txs[0].commitment)
            && txs[1..] == DecodeAll(lib, template)
            && FillWitness(lib, txs) == txs
  {
    FillWitnessFixed(lib, [Filled(lib, made, fees)] + DecodeAll(lib, template), lib.zero);
    hide Filled, DecodeAll, WitnessRoot;
  }

  /** The coinbase of a call, ready to be sealed: its instance's transaction with an output for
      each fee and the extra one behind its own, committed to the zero hash and the hashes, with
      their signatures, of the template's transactions. */
  ghost predicate CommitsTo<H>(lib: Library<H>, made: Made<H>, fees: seq<(int, int)>, template: seq<Transaction<H>>,
                               coinbase: Tx<H>)
  {
    && |made.tx.outs| > 0
    && coinbase.signScript == made.tx.signScript && coinbase.body == made.tx.body
    && coinbase.outs == made.tx.outs + FeeOutputs(lib.meerId, made.tx.outs[0].script, fees)
                        + (if made.extra.Some? then [made.extra.value] else [])
    && Committed(lib, coinbase, template)
  }

  lemma SealedParts<H>(lib: Library<H>, made: Made<H>, fees: seq<(int, int)>, template: seq<Transaction<H>>,
                       txs: seq<Tx<H>>)
    requires |txs| > 0 && txs[1..] == DecodeAll(lib, template) && |made.tx.outs| > 0
    requires var filled := Filled(lib, made, fees);
             txs[0] == filled.(commitment := lib.commit(Root(lib.hashing, [lib.zero] + WitnessLeaves(lib, template)),
                                                        filled.signScript))
    ensures txs == Sealed(lib, made, fees, template) && CommitsTo(lib, made, fees, template, txs[0])
  {
    CommitsToTemplate(lib, Filled(lib, made, fees), template);
    assert txs == [txs[0]] + txs[1..];
    hide DecodeAll, WitnessLeaves, Root, FillWitness, FeeOutputs;
  }

  class BlockHeader<H> {
    var transactions: array<Transaction<H>>
    var decoded: seq<Tx<H>>
    var totalFee: nat
    var hasCoinbasePack: bool
    var txRoot: H

    /** The transactions as the node sent them. */
    ghost const template: seq<Transaction<H>>

    /** Before the first packing the list is the template; after it, the template stands
        behind slot 0, and the decoded transactions match it. */
    ghost predicate Valid(lib: Library<H>)
      reads this, transactions
    {
      if hasCoinbasePack then
        && transactions.Length == |template| + 1
        && SameTemplate(transactions[1..], template)
        && |decoded| == |template| + 1
        && decoded[1..] == DecodeAll(lib, template)
        && totalFee == TotalOf(template)
      else
        SameTemplate(transactions[..], template)
    }

    constructor (list: array<Transaction<H>>, zero: H)
      ensures transactions == list && template == list[..] && !hasCoinbasePack
      ensures forall lib :: Valid(lib)
    {
      transactions := list;
      decoded := [];
      totalFee := 0;
      hasCoinbasePack := false;
      txRoot := zero;
      template := list[..];
    }

    method ClampFee(i: nat)
      requires i < transactions.Length
      modifies transactions
      ensures transactions[..]
           == old(transactions[..])[i := old(transactions[i]).(fee := Clamp(old(transactions[i].fee)))]
    {
      if transactions[i].fee <= 0 {
        transactions[i] := transactions[i].(fee := 0);
      }
    }

    /** The first loop of CalcCoinBase: copies the list, decodes it, sets negative fees to
        zero in the list but not in the copy, and adds the fees up. */
    method Collect(lib: Library<H>) returns (list: seq<Transaction<H>>, txs: seq<Tx<H>>)
      requires Valid(lib) && !hasCoinbasePack
      modifies this`decoded, this`totalFee, transactions
      ensures Valid(lib)
      ensures list == old(transactions[..]) && SameTemplate(list, template) && txs == DecodeAll(lib, template)
      ensures totalFee == TotalOf(template)
    {
      hide TotalOf, SameTemplate, DecodeAll;
      list, txs, totalFee := [], [], 0;
      ghost var start := transactions[..];
      EmptyTotal<H>();
      for i := 0 to transactions.Length
        invariant list == start[..i] && txs == DecodeAll(lib, start[..i])
        invariant totalFee == TotalOf(start[..i])
        invariant transactions[i..] == start[i..]
        invariant SameTemplate(transactions[..], template)
      {
        assert transactions[i] == start[i];
        TotalOfNext(start, i);
        DecodeAllNext(lib, start, i);
        ClampKeepsTemplate(transactions[..], template, i);
        list := list + [transactions[i]];
        txs := txs + [lib.decode(transactions[i].data)];
        decoded := decoded + [lib.decode(transactions[i].data)];
        ClampFee(i);
        totalFee := (totalFee + transactions[i].fee) % UINT64;
      }
      DecodeAllSame(lib, start, template);
      TotalOfSame(start, template);
    }

    /** Puts a coinbase into slot 0: of a new list on the first packing, and in place of the
        previous coinbase later. */
    method Pack(lib: Library<H>, tx: Tx<H>, list: seq<Transaction<H>>, txs: seq<Tx<H>>)
      requires Valid(lib)
      requires !hasCoinbasePack ==> SameTemplate(list, template) && txs == DecodeAll(lib, template)
      requires !hasCoinbasePack ==> totalFee == TotalOf(template)
      modifies this`transactions, this`decoded, this`hasCoinbasePack, transactions
      ensures Valid(lib) && hasCoinbasePack && transactions.Length > 0 && |decoded| > 0
      ensures decoded == [tx] + DecodeAll(lib, template) && transactions[0] == CoinbaseEntry(lib, tx)
      ensures if old(hasCoinbasePack) then transactions == old(transactions) else fresh(transactions)
      ensures !old(hasCoinbasePack) ==> transactions[1..] == list
      ensures old(hasCoinbasePack) ==> transactions[1..] == old(transactions[1..])
    {
      assert !hasCoinbasePack ==> |list| == |template|;
      hide TotalOf, SameTemplate, DecodeAll;
      if !hasCoinbasePack {
        var packed := [CoinbaseEntry(lib, tx)] + list;
        transactions := new Transaction<H>[|packed|](i requires 0 <= i < |packed| => packed[i]);
        assert transactions[..] == packed;
        assert transactions[1..] == list;
        hasCoinbasePack := true;
        decoded := [tx] + txs;
      } else {
        transactions[0] := CoinbaseEntry(lib, tx);
        decoded := decoded[0 := tx];
      }
    }

    /** The end of CalcCoinBase: the witness commitment, the serialised coinbase and the root. */
    method Seal(lib: Library<H>) returns (result: Option<(H, array<Transaction<H>>)>)
      requires Valid(lib) && hasCoinbasePack
      modifies this`decoded, transactions
      ensures Valid(lib) && |old(decoded)| > 0 && decoded[1..] == old(decoded[1..])
      ensures var coinbase := old(decoded[0]);
              decoded[0] == coinbase.(commitment :=
                                        lib.commit(Root(lib.hashing, [lib.zero] + WitnessLeaves(lib, template)),
                                                   coinbase.signScript))
      ensures transactions[1..] == old(transactions[1..])
      ensures result.Some? <==> lib.serialize(decoded[0]).Some?
      ensures result.Some? ==>
                var (root, list) := result.value;
                && list == transactions && list.Length == |template| + 1
                && list[0] == old(transactions[0]).(hash := lib.txHash(decoded[0]),
                                                    data := lib.serialize(decoded[0]).value)
                && root == Root(lib.hashing, [list[0].hash] + TemplateLeaves(lib, template))
    {
      hide TotalOf, SameTemplate, DecodeAll, TemplateLeaves, WitnessLeaves, Root, Above, Completed, FillWitness;
      assert decoded == [decoded[0]] + DecodeAll(lib, template);
      CommitsToTemplate(lib, decoded[0], template);
      decoded := FillWitness(lib, decoded);
      var buf := lib.serialize(decoded[0]);
      if buf.None? {
        return None;
      }
      transactions[0] := transactions[0].(hash := lib.txHash(decoded[0]), data := buf.value);
      var merkles := BuildMerkleTreeStoreWithness(lib.hashing, lib.zero, lib.fullHash, lib.txHash, decoded, false);
      assert decoded == [decoded[0]] + DecodeAll(lib, template);
      TxRootOfTemplate(lib, decoded[0], template);
      return Some((merkles[merkles.Length - 1].value, transactions));
    }

    /** CalcCoinBase, given what the coinbase instance made of this call's parameters. The
        array it returns is the header's own. */
    method CalcCoinBase(lib: Library<H>, made: Option<Made<H>>, fees: seq<(int, int)>)
      returns (result: Option<(H, array<Transaction<H>>)>)
      requires Valid(lib)
      modifies this`transactions, this`decoded, this`totalFee, this`hasCoinbasePack, transactions
      ensures Valid(lib)
      ensures hasCoinbasePack == (old(hasCoinbasePack) || Packs(lib, made))
      ensures Packs(lib, made) ==> decoded == Sealed(lib, made.value, fees, template)
      ensures Packs(lib, made) ==> CommitsTo(lib, made.value, fees, template, decoded[0])
      ensures result.Some? <==> Packs(lib, made) && lib.serialize(decoded[0]).Some?
      ensures result.Some? ==>
                var (root, list) := result.value;
                && list == transactions && list.Length == |template| + 1
                && list[0] == Transaction(lib.txHash(decoded[0]), lib.serialize(decoded[0]).value, 0)
                && root == Root(lib.hashing, [list[0].hash] + TemplateLeaves(lib, template))
      ensures old(hasCoinbasePack) ==> transactions == old(transactions) && transactions[1..] == old(transactions[1..])
      ensures transactions == old(transactions) || fresh(transactions)
    {
      hide TotalOf, SameTemplate, DecodeAll, TemplateLeaves, WitnessLeaves, FillWitness, Filled, Sealed, CommitsTo;
      hide Root;
      var list: seq<Transaction<H>>, txs: seq<Tx<H>> := [], [];
      if !hasCoinbasePack {
        list, txs := Collect(lib);
      }
      if made.None? {
        return None;
      }
      var filled := FillOutputs(lib, made.value, fees);
      if filled.None? {
        return None;
      }
      Pack(lib, filled.value, list, txs);
      result := Seal(lib);
      SealedParts(lib, made.value, fees, template, decoded);
    }

    /** Any number of calls, failed ones included: the list is packed once, from the first
        call that gets that far, and the template stays behind slot 0. */
    method CalcRepeatedly(lib: Library<H>, calls: seq<(Option<Made<H>>, seq<(int, int)>)>)
      requires Valid(lib)
      modifies this`transactions, this`decoded, this`totalFee, this`hasCoinbasePack, transactions
      ensures Valid(lib)
      ensures hasCoinbasePack == (old(hasCoinbasePack) || exists i :: 0 <= i < |calls| && Packs(lib, calls[i].0))
    {
      for i := 0 to |calls|
        invariant Valid(lib)
        invariant transactions == old(transactions) || fresh(transactions)
        invariant hasCoinbasePack == (old(hasCoinbasePack) || exists k :: 0 <= k < i && Packs(lib, calls[k].0))
      {
        var result := CalcCoinBase(lib, calls[i].0, calls[i].1);
      }
    }

    /** BuildMerkleTreeStore of the header: the root over the hashes in the list as the node
        and the calls above left them, or the zero hash of an empty list. */
    method BuildMerkleTreeStore(lib: Library<H>) returns (root: H)
      modifies this`txRoot
      ensures root == txRoot == RootOfList(lib, transactions[..])
    {
      var hashes: seq<H> := [];
      for i := 0 to transactions.Length
        invariant hashes == HashesOf(transactions[..i])
      {
        HashesOfNext(transactions[..], i);
        assert transactions[..][..i] == transactions[..i] && transactions[..][..i + 1] == transactions[..i + 1];
        hashes := hashes + [transactions[i].hash];
      }
      assert transactions[..transactions.Length] == transactions[..];
      txRoot := RootOfHashes(lib, hashes);
      return txRoot;
    }
  }

  function HashesOf<H>(list: seq<Transaction<H>>): seq<H> {
    seq(|list|, i requires 0 <= i < |list| => list[i].hash)
  }

  lemma HashesOfNext<H>(list: seq<Transaction<H>>, i: nat)
    requires i < |list|
    ensures HashesOf(list[..i + 1]) == HashesOf(list[..i]) + [list[i].hash]
  {}

  function RootOfList<H>(lib: Library<H>, list: seq<Transaction<H>>): H {
    if |list| == 0 then lib.zero else Root(lib.hashing, HashesOf(list))
  }

  lemma LeavesOfHashes<H>(lib: Library<H>, hashes: seq<H>)
    ensures Leaves(lib.zero, (h: H) => h, (h: H) => h, hashes, false) == hashes
  {}

  method RootOfHashes<H>(lib: Library<H>, hashes: seq<H>) returns (root: H)
    ensures root == if |hashes| == 0 then lib.zero else Root(lib.hashing, hashes)
  {
    LeavesOfHashes(lib, hashes);
    var merkles := BuildMerkleTreeStoreWithness(lib.hashing, lib.zero, (h: H) => h, (h: H) => h, hashes, false);
    root := merkles[merkles.Length - 1].value;
  }
}
