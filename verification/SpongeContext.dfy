/** The hashing context hs_sha3_ctx: a state, a block buffer and a count of buffered bytes
    that doubles as the finalised flag. */
module SpongeContext {
  import opened Seqs
  import opened Lanes
  import opened Keccak
  import opened KeccakInPlace
  import opened Sponge

  const FINALIZED: nat := 0x8000_0000

  const SIZE_MODULUS: nat := 0x1_0000_0000_0000_0000

  /** No C object is larger. */
  const MAX_OBJECT: nat := 0x7FFF_FFFF_FFFF_FFFF

  predicate HasFlag(rest: nat) {
    rest / FINALIZED % 2 == 1
  }

  lemma CountHasNoFlag(rest: nat)
    requires rest < FINALIZED
    ensures !HasFlag(rest)
  {}

  lemma FlagIsSet()
    ensures HasFlag(FINALIZED)
  {}

  method CopyBytes(dst: array<Byte>, at: nat, src: seq<Byte>)
    requires at + |src| <= dst.Length
    modifies dst
    ensures dst[..] == old(dst[..at]) + src + old(dst[at + |src|..])
  {
    forall i | 0 <= i < |src| {
      dst[at + i] := src[i];
    }
  }

  method XorInto(hash: array<Lane>, block: seq<Byte>, from: nat, to: nat)
    requires hash.Length == 25 && from <= to <= 25 && 8 * to <= |block|
    modifies hash
    ensures forall i :: 0 <= i < 25 ==>
              hash[i] == if from <= i < to then Xor(old(hash[i]), LaneOf(block[8 * i..8 * i + 8])) else old(hash[i])
  {
    hide Xor, LaneOf;
    for i := from to to
      invariant forall k :: 0 <= k < 25 ==>
                  hash[k] == if from <= k < i then Xor(old(hash[k]), LaneOf(block[8 * k..8 * k + 8])) else old(hash[k])
    {
      hash[i] := Xor(hash[i], LaneOf(block[8 * i..8 * i + 8]));
    }
  }

  method ProcessBlock(hash: array<Lane>, block: seq<Byte>, blockSize: nat)
    requires hash.Length == 25 && (IsRate(blockSize) || blockSize == 200) && blockSize <= |block|
    modifies hash
    ensures hash[..] == Permute(XorLanes(old(hash[..]), block, blockSize / 8))
  {
    hide Xor, LaneOf, Permute;
    ghost var a: State := hash[..];
    XorInto(hash, block, 0, 9);
    if blockSize > 72 {
      XorInto(hash, block, 9, 13);
      if blockSize > 104 {
        XorInto(hash, block, 13, 17);
        if blockSize > 136 {
          XorInto(hash, block, 17, 18);
          if blockSize > 144 {
            XorInto(hash, block, 18, 25);
          }
        }
      }
    }
    assert hash[..] == XorLanes(a, block, blockSize / 8);
    Sha3Permutation(hash);
  }

  /** The same on a block of exactly one rate. */
  lemma ProcessIsAbsorb(a: State, block: seq<Byte>, r: nat)
    requires IsRate(r) && r <= |block|
    ensures Permute(XorLanes(a, block, r / 8)) == AbsorbBlock(a, block[..r])
  {
    hide Xor, LaneOf, Permute;
    forall i | 0 <= i < r / 8
      ensures block[..r][8 * i..8 * i + 8] == block[8 * i..8 * i + 8]
    {}
    assert XorLanes(a, block, r / 8) == XorLanes(a, block[..r], r / 8);
  }

  class Context {
    var hash: array<Lane>
    var message: array<Byte>
    var rest: nat
    const blockSize: nat

    /** Everything absorbed so far, and the padding that ended it once finalised. */
    ghost var data: seq<Byte>
    ghost var padding: Padding

    /** Only the first rest bytes of the buffer mean anything. */
    ghost predicate Valid()
      reads this, hash, message
    {
      hash.Length == 25 && message.Length == 192 && IsRate(blockSize) &&
      if HasFlag(rest) then
        rest == FINALIZED && hash[..] == Absorb(ZeroState(), blockSize, Padded(padding, blockSize, data))
      else
        rest == Rest(|data|, blockSize) &&
        message[..rest] == data[|data| - rest..] &&
        hash[..] == Absorb(ZeroState(), blockSize, data)
    }

    constructor (bits: nat)
      requires IsBits(bits)
      ensures Valid() && fresh(hash) && fresh(message)
      ensures data == [] && !HasFlag(rest) && blockSize == RateOf(bits)
      ensures message.Length == 192
    {
      var rate := 1600 - bits * 2;
      hash := new Lane[25](_ => ZERO);
      message := new Byte[192];
      rest := 0;
      blockSize := rate / 8;
      data := [];
      padding := KECCAK;
      new;
      assert hash[..] == ZeroState();
    }

    /** Fills the buffer up to a whole block and absorbs it; the caller has the rest counted. */
    method FinishBlock(index: nat, msg: seq<Byte>)
      requires hash.Length == 25 && message.Length == 192 && IsRate(blockSize)
      requires 0 < index < blockSize && |msg| >= blockSize - index
      requires Rest(|data|, blockSize) == index && message[..index] == data[|data| - index..]
      requires hash[..] == Absorb(ZeroState(), blockSize, data)
      modifies hash, message
      ensures hash[..] == Absorb(ZeroState(), blockSize, data + msg[..blockSize - index])
    {
      hide Absorb, AbsorbBlock, Permute, XorLanes, Rest;
      var left := blockSize - index;
      CopyBytes(message, index, msg[..left]);
      ProcessIsAbsorb(hash[..], message[..], blockSize);
      ProcessBlock(hash, message[..], blockSize);
      ghost var whole, tail := data[..|data| - index], data[|data| - index..];
      Cut(data, |data| - index);
      RestWhole(|data|, blockSize);
      AbsorbWhole(ZeroState(), blockSize, whole, tail);
      AbsorbNext(ZeroState(), blockSize, whole, tail + msg[..left]);
      assert message[..blockSize] == tail + msg[..left];
      Regroup(whole, tail, msg[..left]);
    }

    /** Absorbs the block at pos of msg. One that lies at a multiple of eight is absorbed
        where it is; any other goes through the buffer. */
    method AbsorbOneBlock(msg: seq<Byte>, addr: nat, pos: nat)
      requires hash.Length == 25 && message.Length == 192 && IsRate(blockSize) && pos + blockSize <= |msg|
      requires Rest(|data| + pos, blockSize) == 0
      requires hash[..] == Absorb(ZeroState(), blockSize, data + msg[..pos])
      modifies hash, message
      ensures hash[..] == Absorb(ZeroState(), blockSize, data + msg[..pos + blockSize])
      ensures Rest(|data| + pos + blockSize, blockSize) == 0
    {
      hide Absorb, AbsorbBlock, Permute, XorLanes, Rest, ZeroState;
      var block := msg[pos..pos + blockSize];
      WholePrefix(block);
      if (addr + pos) % 8 == 0 {
        ProcessIsAbsorb(hash[..], block, blockSize);
        ProcessBlock(hash, block, blockSize);
      } else {
        CopyBytes(message, 0, block);
        assert message[..blockSize] == block;
        ProcessIsAbsorb(hash[..], message[..], blockSize);
        ProcessBlock(hash, message[..], blockSize);
      }
      AbsorbNext(ZeroState(), blockSize, data + msg[..pos], block);
      ExtendPrefix(data, msg, pos, blockSize);
      RestBlock(|data| + pos, blockSize);
    }

    /** The loop of hs_sha3_update, from byte from of msg: absorbs whole blocks while any
        are left. */
    method AbsorbBlocks(msg: seq<Byte>, addr: nat, from: nat) returns (pos: nat)
      requires hash.Length == 25 && message.Length == 192 && IsRate(blockSize) && from <= |msg|
      requires Rest(|data| + from, blockSize) == 0
      requires hash[..] == Absorb(ZeroState(), blockSize, data + msg[..from])
      modifies hash, message
      ensures from <= pos <= |msg| < pos + blockSize && Rest(|data| + pos, blockSize) == 0
      ensures hash[..] == Absorb(ZeroState(), blockSize, data + msg[..pos])
    {
      hide Absorb, Rest, ZeroState;
      pos := from;
      while |msg| - pos >= blockSize
        invariant from <= pos <= |msg| && Rest(|data| + pos, blockSize) == 0
        invariant hash[..] == Absorb(ZeroState(), blockSize, data + msg[..pos])
      {
        AbsorbOneBlock(msg, addr, pos);
        pos := pos + blockSize;
      }
    }

    /** The end of hs_sha3_update: what does not fill a block waits in the buffer. */
    method KeepTail(msg: seq<Byte>, pos: nat)
      requires hash.Length == 25 && message.Length == 192 && IsRate(blockSize)
      requires pos <= |msg| < pos + blockSize && Rest(|data| + pos, blockSize) == 0
      requires hash[..] == Absorb(ZeroState(), blockSize, data + msg[..pos])
      requires rest == Rest(|data| + |msg|, blockSize)
      modifies this`data, message
      ensures Valid() && !HasFlag(rest) && data == old(data) + msg
    {
      hide Absorb, Rest, ZeroState, HasFlag;
      CountHasNoFlag(rest);
      RestSum(|data| + pos, blockSize, |msg| - pos);
      RestSmall(|msg| - pos, blockSize);
      if pos < |msg| {
        CopyBytes(message, 0, msg[pos..]);
      }
      Cut(msg, pos);
      Regroup(data, msg[..pos], msg[pos..]);
      AbsorbWhole(ZeroState(), blockSize, data + msg[..pos], msg[pos..]);
      JoinFront(data + msg[..pos], msg[pos..]);
      data := data + msg;
    }

    /** The early return of hs_sha3_update: the buffer still does not make a block. */
    method KeepAll(index: nat, msg: seq<Byte>)
      requires hash.Length == 25 && message.Length == 192 && IsRate(blockSize)
      requires index == Rest(|data|, blockSize) && index + |msg| < blockSize
      requires message[..index] == data[|data| - index..]
      requires hash[..] == Absorb(ZeroState(), blockSize, data)
      requires rest == Rest(|data| + |msg|, blockSize)
      modifies this`data, message
      ensures Valid() && !HasFlag(rest) && data == old(data) + msg
    {
      hide Absorb, Rest, ZeroState, HasFlag;
      CountHasNoFlag(rest);
      CopyBytes(message, index, msg);
      AppendTail(ZeroState(), data, msg, blockSize);
      data := data + msg;
    }

    /** hs_sha3_update on the bytes msg found at address addr. */
    method Update(msg: seq<Byte>, addr: nat)
      requires Valid() && |msg| <= MAX_OBJECT
      modifies this`rest, this`data, hash, message
      ensures Valid() && padding == old(padding)
      ensures HasFlag(rest) == old(HasFlag(rest))
      ensures data == if HasFlag(rest) then old(data) else old(data) + msg
      ensures HasFlag(rest) ==> hash[..] == old(hash[..])
    {
      hide Absorb, Rest, ZeroState, HasFlag, NewRest;
      var index := rest;
      if HasFlag(rest) {
        return;
      }
      rest := NewRest(rest, |msg|);
      RestSum(|data|, blockSize, |msg|);
      var pos := 0;
      if index != 0 {
        var left := blockSize - index;
        if |msg| < left {
          KeepAll(index, msg);
          return;
        }
        FinishBlock(index, msg);
        RestFill(|data|, blockSize);
        pos := left;
      } else {
        assert data + msg[..0] == data;
      }
      pos := AbsorbBlocks(msg, addr, pos);
      KeepTail(msg, pos);
    }

    /** What is left of an open context's block. */
    ghost function Left(): nat
      reads this
    {
      if 0 < rest < blockSize then blockSize - rest else 0
    }

    /** The context after an export, when count bytes were buffered before msg came. */
    ghost predicate Exported(data: seq<Byte>, count: nat, msg: seq<Byte>, start: nat, words: seq<bv32>)
      reads this, hash, message
    {
      && hash.Length == 25 && IsRate(blockSize)
      && start + blockSize <= |msg| <= start + message.Length
      && words == WordsOf(hash[..])
      && hash[..] == Absorb(ZeroState(), blockSize, data + msg[..start + blockSize])
      && rest == Rest(count + |msg|, blockSize)
      && message[..|msg| - start] == msg[start..]
    }

    /** hs_sha3_update_mid: as update, but it stops after the first whole block that it
        finds in msg and exports the state as 50 words. After an export the context holds the
        exported state and the count of all of msg, but in its buffer are the bytes from that
        block on, the block itself included. A longer message would not fit there. */
    method UpdateMid(msg: seq<Byte>, addr: nat, out: array<bv32>)
      requires Valid() && out.Length == 50
      requires HasFlag(rest) || |msg| <= message.Length + Left()
      modifies this`rest, this`data, hash, message, out
      ensures if old(HasFlag(rest)) || |msg| < old(Left()) + blockSize then
                out[..] == old(out[..]) && Valid() &&
                data == if old(HasFlag(rest)) then old(data) else old(data) + msg
              else
                Exported(old(data), old(rest), msg, old(Left()), out[..])
    {
      hide Absorb, Rest, ZeroState, HasFlag, NewRest, WordsOf, WordAt;
      var index := rest;
      if HasFlag(rest) {
        return;
      }
      rest := NewRest(rest, |msg|);
      RestSum(|data|, blockSize, |msg|);
      var pos := 0;
      if index != 0 {
        var left := blockSize - index;
        if |msg| < left {
          KeepAll(index, msg);
          return;
        }
        FinishBlock(index, msg);
        RestFill(|data|, blockSize);
        pos := left;
      } else {
        assert data + msg[..0] == data;
      }
      if |msg| - pos >= blockSize {
        AbsorbOneBlock(msg, addr, pos);
        ExportWords(out);
        CopyBytes(message, 0, msg[pos..]);
      } else {
        KeepTail(msg, pos);
      }
    }

    method ExportWords(out: array<bv32>)
      requires hash.Length == 25 && out.Length == 50
      modifies out
      ensures out[..] == WordsOf(hash[..])
    {
      hide WordAt;
      for i := 0 to 50
        invariant forall k :: 0 <= k < i ==> out[k] == WordAt(hash[..], k)
      {
        out[i] := WordAt(hash[..], i);
      }
    }

    /** The last block: the buffered bytes, zeros, and the two padding marks, which fall on
        one byte when only one is left. */
    method Finish(p: Padding)
      requires Valid() && !HasFlag(rest)
      modifies this`rest, this`padding, hash, message
      ensures Valid() && HasFlag(rest) && data == old(data) && padding == p
    {
      hide Absorb, AbsorbBlock, Permute, XorLanes, Rest, ZeroState, HasFlag;
      ghost var whole, tail := data[..|data| - rest], data[|data| - rest..];
      PadBlock(p, rest);
      assert message[..blockSize] == tail + Pad(p, blockSize, |data|);
      ProcessIsAbsorb(hash[..], message[..], blockSize);
      ProcessBlock(hash, message[..], blockSize);
      Cut(data, |data| - rest);
      RestWhole(|data|, blockSize);
      AbsorbWhole(ZeroState(), blockSize, whole, tail);
      AbsorbNext(ZeroState(), blockSize, whole, tail + Pad(p, blockSize, |data|));
      Regroup(whole, tail, Pad(p, blockSize, |data|));
      rest := FINALIZED;
      FlagIsSet();
      padding := p;
    }

    method PadBlock(p: Padding, at: nat)
      requires message.Length == 192 && IsRate(blockSize) && at == Rest(|data|, blockSize)
      modifies message
      ensures message[..blockSize] == old(message[..at]) + Pad(p, blockSize, |data|)
    {
      hide Rest;
      CopyBytes(message, at, Zeros(blockSize - at));
      message[at] := message[at] | p.First();
      message[blockSize - 1] := message[blockSize - 1] | p.Last();
    }

    /** hs_keccak_final: pads and absorbs on the first call only, and yields the digest. */
    method KeccakFinal() returns (result: seq<Byte>)
      requires Valid()
      modifies this`rest, this`padding, hash, message
      ensures Valid() && HasFlag(rest) && data == old(data)
      ensures padding == if old(HasFlag(rest)) then old(padding) else KECCAK
      ensures old(HasFlag(rest)) ==> hash[..] == old(hash[..])
      ensures result == Digest(padding, blockSize, data)
    {
      if !HasFlag(rest) {
        Finish(KECCAK);
      }
      result := StateBytes(hash[..])[..DigestLength(blockSize)];
    }

    /** hs_sha3_final, which differs in its padding marks. */
    method Sha3Final() returns (result: seq<Byte>)
      requires Valid()
      modifies this`rest, this`padding, hash, message
      ensures Valid() && HasFlag(rest) && data == old(data)
      ensures padding == if old(HasFlag(rest)) then old(padding) else MEER
      ensures old(HasFlag(rest)) ==> hash[..] == old(hash[..])
      ensures result == Digest(padding, blockSize, data)
    {
      if !HasFlag(rest) {
        Finish(MEER);
      }
      result := StateBytes(hash[..])[..DigestLength(blockSize)];
    }

    /** The new count of buffered bytes: the sum taken in 64 bits, then the remainder. */
    function NewRest(rest: nat, size: nat): (r: nat)
      requires IsRate(blockSize) && rest < blockSize && size <= MAX_OBJECT
      ensures r == Rest(rest + size, blockSize)
    {
      (rest + size) % SIZE_MODULUS % blockSize
    }
  }

  lemma NothingBuffered(ctx: Context)
    requires ctx.Valid() && !HasFlag(ctx.rest) && ctx.data == []
    ensures ctx.rest == 0
  {
    hide HasFlag, Absorb;
  }

  lemma AppendTail(z: State, data: seq<Byte>, msg: seq<Byte>, r: nat)
    requires IsRate(r) && Rest(|data|, r) + |msg| < r
    ensures Rest(|data| + |msg|, r) == Rest(|data|, r) + |msg|
    ensures Absorb(z, r, data + msg) == Absorb(z, r, data)
  {
    hide *;
    var index := Rest(|data|, r);
    RestWhole(|data|, r);
    RestSum(|data|, r, |msg|);
    RestSmall(index + |msg|, r);
    var whole, tail := data[..|data| - index], data[|data| - index..];
    Cut(data, |data| - index);
    Regroup(whole, tail, msg);
    AbsorbWhole(z, r, whole, tail);
    AbsorbWhole(z, r, whole, tail + msg);
  }
}
