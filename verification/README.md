# Verification of the Qitmeer miner's core

A Dafny model of the parts of the miner where a mistake costs blocks: the Keccak sponge that
hashes headers, the Merkle tree and the coinbase packing of a block template, the two loops that
mine and submit, the callback machinery of the status page, and a few arithmetic and text cores.

| files | models |
|---|---|
| Lanes, KeccakSpec, KeccakInverse, KeccakTables, KeccakInPlace | Keccak-f[1600] of FIPS 202, its inverse, its tables, and the in-place code |
| SpongeSpec, SpongeContext, SpongePadding, SpongeStandard, MeerHash | the sponge, the streaming context, both paddings, the sponge of FIPS 202 on bits, meer_hash and the midstate |
| Merkle, Coinbase | the linear-array tree, and the block header that is repacked in place |
| SubmitString | the submitted text in one phase and in two |
| AsicMiner, SharePipeline | the chip miner's loop, and the protocol between SetNewWork, Mine and SubmitShare |
| Callbacks, Deferred, When | jQuery.Callbacks, jQuery.Deferred and jQuery.when |
| NonceSplit, Difficulty, MultiTag, WrapText | nonce ranges, work estimates, struct tags, text wrapping |
| Seqs, Options | helpers |

`dafny verify dfyconfig.toml` checks everything.

Every function of the standards and libraries that the code calls but does not contain is a
parameter: the pair hash of the tree, the transaction library, the header serialisation, the
proof-of-work hash, `strconv.Unquote`. What the loops read from outside - flags, the clock,
delivered works, answers of the driver, what a page's callbacks do and whether they throw - comes
from a script of arbitrary values, so that a theorem about all scripts is one about all runs.
Scripts are finite; a run that is still going on is the prefix of one, and what is proved of a run
holds at each of its moments.

Where the code does not keep what one would expect, the lemma says exactly when it does:

- the altered padding of `hs_sha3_final` merges two messages exactly when the longer one goes on
  with 0x81 and zeros to the last byte of the block (`SpongePadding.MeerPadMerges`); by it the
  empty message and a 135-byte one share a digest (`SpongePadding.MeerDigestCollides`);
- the chip miner's text equals the processor miner's exactly when the parents' data is lower-case
  hexadecimal up to its first dash, or in a pool (`SubmitString.TwoPhasesAgree`,
  `SubmitString.CapitalsDisagree`);
- the driver's loop over the chips ends exactly for up to 254 chips (`NonceSplit.LoopEnds`);
- the estimate of GetNeedHashTimesByTarget is above half the exact number exactly for targets
  above 8, since the last digit is never read (`Difficulty.GetNeedHashTimesByTarget`);
- a callback that throws leaves its list firing for good, so that nothing behind it and nothing
  added later runs: an addition to the settled side of a Deferred has run exactly if no callback of
  that side that was added before it threw (`Deferred.AtRest`), some list is left firing exactly if
  one of the callbacks that were called came to throw (`Deferred.AllRun`), and
  `Deferred.ThrowLosesRest` is a use in which one does;
- an addition to a firing list runs in that firing exactly if its place is beyond the index when it
  is made and nothing takes it away before its turn (`Deferred.AdditionDecided`), so that of what a
  callback adds after emptying its list the first ones are skipped (`Deferred.EmptySkips`);
- a disabled callback list is opened again exactly by `empty`; until then nothing on it runs
  (`Deferred.DisabledUntilEmptied`);
- the words of a wrapped text can be read back, hyphens joined, exactly when no hyphen fell next to a
  space other than a blank (`WrapText.WordsKept`, `WrapText.TabIsJoined`);
- lists with the same next power of two, of whatever lengths, share a root exactly when they are
  equal once completed to it by repeating left parts, for a pair hash without collisions
  (`Merkle.CompletionDecides`);
- wrapText ends exactly for a width of two or more or a text that fits, and slices out of range
  exactly for a width of zero or less and one that does not (`WrapText.WrapEnds`,
  `WrapText.WrapFails`).

The comment in `Mine` of the chip miner speaks of recovering from a panic, but its deferred
function does not call `recover`; the model follows the code: the board is closed and the panic
goes on.

## Model

| member | source | states |
|---|---|---|
| `KeccakInverse.PermuteInjective` | asic/meer/algo_meer.c:240-279 | two states with the same permuted state are the same state, over all 24 rounds and all states |
| `KeccakInverse.PermuteInverse` | asic/meer/algo_meer.c:240-279 | an explicit inverse undoes the permutation on either side |
| `KeccakInverse.RoundInverse` | asic/meer/algo_meer.c:250-277 | each round, with its own constant, is undone on either side by the inverses of its five steps in reverse order |
| `KeccakInverse.ThetaInvTheta` | asic/meer/algo_meer.c:174-195 | the inverse of theta, built from the parities, is a right inverse for every state |
| `KeccakInverse.InvThetaTheta` | asic/meer/algo_meer.c:174-195 | and a left inverse |
| `KeccakInverse.BlendTwice` | asic/meer/algo_meer.c:182-186 | on column parities, where theta is 1 + S^s + S^t z^n with S a shift of lanes and z a rotation, applying it twice doubles s, t and n: the cross terms cancel |
| `KeccakInverse.BlendEnds` | asic/meer/algo_meer.c:182-186 | the sixth and seventh doublings, in which no rotation is left, undo each other |
| `KeccakInverse.RhoInverse` | asic/meer/algo_meer.c:251-274 | the lane rotations and the counter-rotations undo each other |
| `KeccakInverse.PiInverse` | asic/meer/algo_meer.c:197-225 | the permutation of lanes and its inverse undo each other |
| `KeccakInverse.ChiInverse` | asic/meer/algo_meer.c:227-238 | the row map chi and its inverse undo each other on all 25 lanes |
| `KeccakInverse.IotaInverse` | asic/meer/algo_meer.c:277 | adding a round constant twice changes nothing |
| `KeccakTables.RhoTurns` | asic/meer/algo_meer.c:251-274 | the rotation of every lane but the first is the triangular number of its turn in the walk of section 3.2.2 of FIPS 202, modulo 64 |
| `KeccakTables.WalkReaches` | asic/meer/algo_meer.c:251-274 | the walk comes to every lane but the first in its 24 turns |
| `KeccakTables.WalkOnce` | asic/meer/algo_meer.c:251-274 | and to none of them twice |
| `KeccakTables.ConstantTable` | asic/meer/algo_meer.c:129-142 | every bit of the 24 constants is the output of the shift register of section 3.2.5 of FIPS 202 |
| `KeccakInPlace.KeccakTheta` | asic/meer/algo_meer.c:174-195 | the in-place loops compute the standard theta of the whole old state |
| `KeccakInPlace.PiChain` | asic/meer/algo_meer.c:197-225 | what the chain of 24 assignments leaves in each lane is the lane that the standard pi puts there, for every state |
| `KeccakInPlace.KeccakPi` | asic/meer/algo_meer.c:197-225 | the in-place chain computes pi |
| `KeccakInPlace.KeccakChi` | asic/meer/algo_meer.c:227-238 | overwriting rows with two saved lanes equals the simultaneous row map |
| `KeccakInPlace.Rotations` | asic/meer/algo_meer.c:251-274 | the 24 in-place rotations are rho |
| `KeccakInPlace.Sha3Permutation` | asic/meer/algo_meer.c:240-279 | the in-place permutation is the standard one on the old state |
| `Lanes.RotlMacro` | asic/meer/algo_meer.c:52 | the macro text, two shifts xored, is the rotation at each of the 24 amounts the code uses |
| `SpongeContext.ProcessBlock` | asic/meer/algo_meer.c:281-355 | exactly the lanes of the rate are xored before the permutation, at all four rates and the full width |
| `Sponge.AbsorbConcat` | asic/meer/algo_meer.c:380-396 | absorbing a string of whole blocks and then more equals absorbing their concatenation |
| `Sponge.AbsorbNext` | asic/meer/algo_meer.c:380-396 | absorbing one more block is one more step of the sponge |
| `SpongeContext.Context.constructor` | asic/meer/algo_meer.c:144-172 | a new context of any of the four sizes has absorbed nothing |
| `SpongeContext.Context.Update` | asic/meer/algo_meer.c:357-400 | an open context has then absorbed the old bytes followed by the new ones, whatever was buffered and wherever the bytes lie in memory; a finished one is unchanged |
| `SpongeContext.Context.UpdateMid` | asic/meer/algo_meer.c:477-522 | either too little came for a whole block and the context is as after an update, or the exported words and the state are those after the blocks up to the first whole one found in the message, the count is that of all bytes, and the buffer holds the bytes from that block on, for every message that does not overrun it |
| `SpongeContext.Context.KeccakFinal` | asic/meer/algo_meer.c:424-442 | the result is the one-shot digest of all bytes absorbed; a second call changes nothing and answers the same |
| `SpongeContext.Context.Sha3Final` | asic/meer/algo_meer.c:402-422 | the same for the altered padding |
| `SpongeContext.NothingBuffered` | asic/meer/algo_meer.c:359-398 | a valid open context that has absorbed nothing has nothing in its buffer |
| `SpongeContext.AppendTail` | asic/meer/algo_meer.c:398-399 | bytes that do not fill up a block add to the count of buffered bytes and leave the state alone |
| `MeerHash.UpdateAll` | asic/meer/algo_meer.c:357-400 | any number of updates at any addresses absorbs the concatenation of their pieces |
| `MeerHash.DigestOfPieces` | asic/meer/algo_meer.c:357-442 | however a message is cut into updates, the digest is the one-shot sponge of the padded message, and asking again after further updates yields it again |
| `MeerHash.AskAgain` | asic/meer/algo_meer.c:362-363 | updates after the final call do not change the digest |
| `MeerHash.Hash` | asic/meer/algo_meer.c:444-475 | the result is the altered 256-bit digest of a string of 64 bytes whose bits are those of the Keccak-512 digest of the Keccak-512 digest of the first 117 bytes, but for the first bit, which is the other one |
| `SpongePadding.BitsInjective` | asic/meer/algo_meer.c:466 | bytes are known by their bits |
| `MeerHash.CalcMidstate` | asic/meer/algo_meer.c:524-531 | the exported words are those of the state after the first 72 header bytes, and the length is 200 |
| `MeerHash.ResumeFromMidstate` | asic/meer/algo_meer.c:444-531 | going on from the 50 words with the bytes from 72 on yields the first-stage digest of the whole header, for every header |
| `MeerHash.MidstateDecides` | asic/meer/algo_meer.c:477-531 | two headers have the same midstate if and only if they agree on the first 72 bytes |
| `MeerHash.NonceKeepsMidstate` | asic/meer/meer_drv.c:390-395 | replacing the nonce keeps the midstate, and resuming with the new tail yields the new digest |
| `MeerHash.AbsorbBlockInjective` | asic/meer/algo_meer.c:307-354 | for one state, different 72-byte blocks lead to different states |
| `SpongePadding.KeccakPadIsPad10Star1` | asic/meer/algo_meer.c:429-436 | on the level of bits, the appended bytes are pad10*1 of section 5.1 of FIPS 202 |
| `SpongeStandard.DigestIsKeccak` | asic/meer/algo_meer.c:357-442 | on the level of bits, the digest of any message at any of the four sizes is KECCAK[c](M, d) of section 5.2 of FIPS 202: the sponge of section 4 with pad10*1, on strings of 1600 bits |
| `SpongeStandard.DigestIsSponge` | asic/meer/algo_meer.c:402-442 | with either padding the bits of the digest are those of the sponge over the bits of the message and of the padding |
| `SpongeStandard.MeerPadIs` | asic/meer/algo_meer.c:402-422 | the altered padding in bits: 1000 0001, zeros, 1000 1111, or the latter alone where one byte is left |
| `SpongeStandard.StateBytesBits` | asic/meer/algo_meer.c:442 | the bytes of a state in memory are the string of section 3.1.3, lane after lane, lowest bit first |
| `SpongeStandard.StateOfStateBits` | asic/meer/algo_meer.c:281-355 | states and strings of 1600 bits correspond, as in sections 3.1.2 and 3.1.3 |
| `SpongeStandard.BlockIsBits` | asic/meer/algo_meer.c:281-355 | absorbing a block adds its bits to the first bits of the state string and permutes it |
| `SpongeStandard.WordsAreBits` | asic/meer/algo_meer.c:477-522 | exported words 2i and 2i + 1 are the bits of lane i, the lower ones first |
| `SpongePadding.KeccakPadInjective` | asic/meer/algo_meer.c:429-436 | padded messages are equal if and only if the messages are |
| `SpongePadding.MeerPadMerges` | asic/meer/algo_meer.c:407-416 | the exact pairs of messages that the altered padding does not keep apart |
| `SpongePadding.MeerDigestCollides` | asic/meer/algo_meer.c:402-422 | a concrete pair of messages with the same altered digest |
| `Merkle.AndPredecessor` | symbols/qitmeer/merkle.go:12-16 | for positive n, n and its predecessor share no bit if and only if n is a power of two |
| `Merkle.NextPowerOfTwo` | symbols/qitmeer/merkle.go:12-21 | the result is the least power of two that is not below n |
| `Merkle.StoreLevel` | symbols/qitmeer/merkle.go:64-84 | cell i of every level of the array is the i-th hash of that level, and nil past its end, so the nil cells are a suffix |
| `Merkle.StoreParent` | symbols/qitmeer/merkle.go:65-84 | each cell above the leaves is what the three cases of the loop make of its two children |
| `Merkle.StoreRoot` | symbols/qitmeer/merkle.go:47-86 | the last cell of the array is the recursive root, in which a level of odd length pairs its last node with itself |
| `Merkle.BuildMerkleTreeStoreWithness` | symbols/qitmeer/merkle.go:117-170 | the builder fills the array, never leaving it, with the tree of the list, or one zero hash for an empty list |
| `Merkle.FillTree` | symbols/qitmeer/merkle.go:145-167 | the loop with its moving offset computes the whole array |
| `Merkle.SameRootSameLeaves` | symbols/qitmeer/merkle.go:22-86 | two lists of one length with one root are equal element by element, or at one place of one level of their two trees different pairs of nodes have one hash |
| `Merkle.RootDecides` | symbols/qitmeer/merkle.go:22-86 | with an injective pair hash two lists of one length have one root if and only if they are equal |
| `Merkle.CompletedRoot` | symbols/qitmeer/merkle.go:64-84 | a list has the root of its completion: the next power of two of leaves, in which each right part that is missing repeats the left one |
| `Merkle.RootFromAbove` | symbols/qitmeer/merkle.go:22-86 | the root built level by level is the one defined from above: the hash of the roots of the left and the right half, of the completed list |
| `Merkle.CompletionDecides` | symbols/qitmeer/merkle.go:64-84 | with an injective pair hash two lists of the same next power of two, of whatever lengths, have one root if and only if their completions are equal |
| `Merkle.RepeatLastLeaf` | symbols/qitmeer/merkle.go:71-75 | an odd list of three or more keeps its root when its last element is repeated |
| `Merkle.WitnessIgnoresFirst` | symbols/qitmeer/merkle.go:132-143 | the witness leaves, and so the witness root, do not depend on the first transaction |
| `Coinbase.FillOutputs` | symbols/qitmeer/coinbase_tx.go:101-122 | it fails exactly on a wrong number of outputs; otherwise the fee outputs follow in order with value zero and the first output's script, then the extra output |
| `Coinbase.FeeOutputs` | symbols/qitmeer/coinbase_tx.go:106-114 | every added output has value zero, the first output's script, and not the base coin |
| `Coinbase.FeeOutputsPay` | symbols/qitmeer/coinbase_tx.go:106-114 | a coin has an added output if and only if it has a positive fee and is not the base coin |
| `Coinbase.FeeOutputsDistinct` | symbols/qitmeer/coinbase_tx.go:106-114 | no coin of a map of fees has two outputs |
| `Coinbase.FillWitnessFixed` | symbols/qitmeer/coinbase_tx.go:91-99 | filling in the commitment is a fixed point, also over another commitment |
| `Coinbase.CommitsToTemplate` | symbols/qitmeer/coinbase_tx.go:92-96 | of the block only the commitment of the coinbase is written, and it is that of the root over the zero hash and the template's hashes with their signatures |
| `Coinbase.SealedIs` | symbols/qitmeer/coinbase_tx.go:49-70 | the sealed block is the call's own filled coinbase with nothing but its commitment changed, before the decoded template, and filling it in again changes nothing |
| `Coinbase.TxRootOfTemplate` | symbols/qitmeer/coinbase_tx.go:76-77 | the root of the packed block is that of the coinbase hash before the template's hashes |
| `Coinbase.BlockHeader.Collect` | symbols/qitmeer/coinbase_tx.go:18-31 | before packing, the list is copied and decoded in order and the positive fees are added once, in 64 bits, also after calls that failed |
| `Coinbase.BlockHeader.Pack` | symbols/qitmeer/coinbase_tx.go:49-66 | the first packing puts the coinbase before the template in a new array; later ones rewrite slot 0 of the same array and nothing behind it |
| `Coinbase.BlockHeader.Seal` | symbols/qitmeer/coinbase_tx.go:127-168 | only the commitment of the coinbase is filled in, with the witness root of the whole block, before it is hashed and serialised into slot 0; the root is over the hashes of the sealed block |
| `Coinbase.BlockHeader.CalcCoinBase` | symbols/qitmeer/coinbase_tx.go:17-78 | a call packs exactly when its instance made a coinbase with the right number of outputs; the coinbase in slot 0 is then that of this call, with an output for each fee and the extra one, committed to the witness root over the zero hash and the template's own hashes; result and root exactly when it can be serialised, and the template stays behind slot 0 |
| `Coinbase.BlockHeader.CalcRepeatedly` | symbols/qitmeer/coinbase_tx.go:17-78 | after any calls, failed ones included, the header is packed if and only if one call got that far, and the template is behind slot 0 once |
| `Coinbase.BlockHeader.BuildMerkleTreeStore` | symbols/qitmeer/merkle.go:33-87 | the stored root is the recursive root over the hashes in the list, zero for an empty list |
| `Coinbase.TotalOfSame` | symbols/qitmeer/coinbase_tx.go:26-29 | clamping the fees in the list does not change their total |
| `SubmitString.DecodeEncode` | symbols/qitmeer/pow_meer_asic.go:362-368 | decoding undoes hexadecimal encoding, which is lower case |
| `SubmitString.EncodeDecode` | symbols/qitmeer/pow_meer_asic.go:362-368 | a text comes back from decoding and encoding if and only if it is lower-case hexadecimal of even length |
| `SubmitString.EncodeHexAt` | symbols/qitmeer/pow_meer_cpu.go:131 | each byte is written as two lower-case digits, the higher one first |
| `SubmitString.CountRoundTrip` | common/utils.go:44-69 | a count and whatever follows it are read back from its text, for every count of 63 bits |
| `SubmitString.LittleEndianAt` | common/utils.go:55-69 | byte i of a count is its i-th digit to the base 256 |
| `SubmitString.CountLength` | common/utils.go:44-54 | a count takes 2, 6, 10 or 18 digits by its size |
| `SubmitString.DecimalReads` | symbols/qitmeer/pow_meer_cpu.go:147 | numbers are written in decimal digits without leading zeros, and read back |
| `SubmitString.ConcatParts` | symbols/qitmeer/pow_meer_cpu.go:134-146 | parents and transactions are appended whole and in order |
| `SubmitString.JoinIsInverse` | symbols/qitmeer/pow_meer_asic.go:361-369 | joining undoes splitting at dashes |
| `SubmitString.SubmitOnce` | symbols/qitmeer/pow_meer_cpu.go:128-150 | the processor miner's text is the submission of the header and nonce that were hashed |
| `SubmitString.GetSubmitStr` | symbols/qitmeer/pow_meer_asic.go:294-308 | the prepared text is the header in hexadecimal and the middle part |
| `SubmitString.ReplaceNonce` | symbols/qitmeer/pow_meer_asic.go:360-379 | what becomes of any prepared text, also one that is not hexadecimal, or too short for a header, where it depends on the spare room of the decoded buffer whether it fails |
| `SubmitString.ReplacedParts` | symbols/qitmeer/pow_meer_asic.go:360-379 | in what comes out, the bytes of the front are those that were there but for header and nonce, as far as they reach, and behind them stands what stood there, and the tail; a front that is not hexadecimal leaves all as it was, and one of less than a header fails unless the buffer has room |
| `SubmitString.TwoPhasesAgree` | symbols/qitmeer/pow_meer_asic.go:294-379 | the two-phase text equals the one-phase text if and only if the parents' data is lower-case hexadecimal up to its first dash, or the job is a pool's |
| `SubmitString.CapitalsDisagree` | symbols/qitmeer/pow_meer_asic.go:360-379 | parents in capitals make the texts differ |
| `SubmitString.SubmissionHeader` | symbols/qitmeer/pow_meer_cpu.go:128-143 | a submission begins with the 117 bytes that were hashed, and the count of parents and what follows are readable behind the header |
| `SubmitString.SubmissionParts` | symbols/qitmeer/pow_meer_cpu.go:128-143 | split at its dashes, a pool's submission is the patched header, the job and the extra nonce; a solo one is header, count of parents, parents, count of transactions and transactions in one text, and then the number of transactions, the height and the request |
| `AsicMiner.Miner.UpdateWork` | symbols/qitmeer/pow_meer_asic.go:49-69 | in solo mining the copied list is hash and data of the coinbase that this call sealed, before the template's transactions, and the root is that of their hashes |
| `AsicMiner.Miner.Save` | symbols/qitmeer/pow_meer_asic.go:197-207 | header, text, list and root saved for a chip come from one packing; the header's first 109 bytes are those of the packed one, or zeros where it is shorter |
| `AsicMiner.Miner.AssignAll` | symbols/qitmeer/pow_meer_asic.go:186-214 | after the loop every chip has a work, and each saved root is that of its own saved list, a sealed coinbase before the template, although the shared list is rewritten for every chip |
| `AsicMiner.Miner.Send` | symbols/qitmeer/pow_meer_asic.go:262-264 | a share goes out with its chip's work, header, nonce and text, unless nobody takes shares any more |
| `AsicMiner.Miner.Judge` | symbols/qitmeer/pow_meer_asic.go:252-278 | a share is sent exactly when the header with the new nonce meets its chip's target and shares are taken |
| `AsicMiner.Miner.Reject` | symbols/qitmeer/pow_meer_asic.go:267-276 | a miss is counted exactly when the difficulty is above 10^12, and the count that reaches a thousand for each chip closes the board and forgets its descriptor |
| `AsicMiner.Miner.Take` | symbols/qitmeer/pow_meer_asic.go:244-278 | a new nonce is noted and written into the header of its chip's work, and the share, if it is one, is the only thing sent |
| `AsicMiner.Miner.Handle` | symbols/qitmeer/pow_meer_asic.go:240-285 | answers of none of the chips and repeated nonces change nothing, others are taken; every lookup of a chip's work succeeds on a board with chips |
| `AsicMiner.Miner.NewBatch` | symbols/qitmeer/pow_meer_asic.go:183-184 | a batch begins with no nonces and no works |
| `AsicMiner.Miner.Adopt` | symbols/qitmeer/pow_meer_asic.go:131-142 | an adopted work starts without a submission or a rejected answer, from the delivered template |
| `AsicMiner.Miner.Listen` | symbols/qitmeer/pow_meer_asic.go:222-288 | every answer of a served chip that came while the driver was asked has been judged; the loop goes on to the next batch, the next work or the end exactly by what it read last, to the next work only with the board closed or an empty solo work submitted |
| `AsicMiner.Miner.OpenBoard` | symbols/qitmeer/pow_meer_asic.go:152-182 | the driver is started exactly when it is not running, the miner is ready exactly when the start and its frequencies are good, and a failed start leaves nothing open |
| `AsicMiner.Miner.Search` | symbols/qitmeer/pow_meer_asic.go:144-290 | batch after batch of one work, from moment to moment as the flags demand, until another work is wanted or it has to leave |
| `AsicMiner.Miner.Mine` | symbols/qitmeer/pow_meer_asic.go:90-292 | for every script: what is sent is exactly what was judged to meet its target while shares were taken, in order; all of it is good, no nonce is sent twice in a batch, two shares of one adopted solo work have more than one transaction; the loop takes the moments one by one in the places the flags lead to, ends only for want of them or by a quit, an invalid device, a failed start, a failed packing or a closed channel, and on return the board is closed |
| `AsicMiner.InitsAlternate` | symbols/qitmeer/pow_meer_asic.go:96-107 | when the board was used well, at every moment each successful start but at most the last has had its own stop |
| `AsicMiner.SentNext` | symbols/qitmeer/pow_meer_asic.go:229-264 | sending one more share keeps the three rules about shares |
| `AsicMiner.JudgedNext` | symbols/qitmeer/pow_meer_asic.go:240-285 | one more judged answer keeps the account: sent are the good ones, and every nonce of the batch was judged |
| `AsicMiner.RoutedNext` | symbols/qitmeer/pow_meer_asic.go:108-292 | one more moment read in its place keeps the way of the loop |
| `AsicMiner.SubmittedIsHashed` | symbols/qitmeer/pow_meer_asic.go:252-263 | what goes out for a share is the one-phase submission exactly for jobs without odd parents, and begins with the header that met the target, which is the packed one with the nonce; a solo header carries the root over the hash of the coinbase whose serialised form is sent and the hashes of the transactions as decoded from the data sent behind it, which is the template's, and that coinbase commits to their witness root |
| `AsicMiner.ShareHeader` | symbols/qitmeer/pow_meer_asic.go:197-263 | field by field: the header of a share is the packed one up to byte 109 and then the nonce, and its job has the parents, numbers and identifiers of its work |
| `AsicMiner.SoloSends` | symbols/qitmeer/pow_meer_asic.go:197-206 | the root of a saved list is that of the very data that is sent |
| `SharePipeline.StepKeeps` | core/device.go:85-91 | every step of every goroutine keeps the invariant of the protocol, the end of the miner by a panic after an adoption included |
| `SharePipeline.SharesAreConserved` | core/device.go:195-220 | in every interleaving the shares found are, in order, those settled, in hand, buffered, about to be sent and given up; at most four are unsettled; two shares of one solo work need a second transaction |
| `SharePipeline.ForwardedIsOrdered` | core/device.go:208-219 | what is forwarded is an ordered part of what was found, without repetition |
| `SharePipeline.AtMostTwoStale` | symbols/qitmeer/pow_meer_cpu.go:72-152 | after a work is adopted at most two shares of earlier works are still forwarded, all before any share of the new one, however the run goes on |
| `SharePipeline.RunLater` | symbols/qitmeer/pow_meer_cpu.go:94-152 | a run only adds to its histories, and what it finds it finds under the latest adoption |
| `SharePipeline.StaleDropped` | core/device.go:213-217 | while a new work is announced and not taken up, however the run goes on, nothing is forwarded but a share that has passed the check |
| `SharePipeline.FreshKept` | core/device.go:213-217 | while none is announced no share is dropped |
| `SharePipeline.FreshAfterAdoption` | symbols/qitmeer/pow_meer_cpu.go:94-105 | after a work is taken up none is dropped until the next is announced |
| `SharePipeline.AnnouncedStops` | core/device.go:85-91 | from SetNewWork on, until a work is taken up, nothing new is forwarded, and a miner between two turns finds nothing |
| `SharePipeline.StopCalled` | symbols/qitmeer/pow_meer_cpu.go:72-152 | a miner that is told to stop adopts and finds nothing until it is told otherwise |
| `SharePipeline.InvalidCalled` | symbols/qitmeer/pow_meer_cpu.go:72-105 | once the device is not valid a waiting miner adopts nothing any more |
| `SharePipeline.NothingAdopted` | symbols/qitmeer/pow_meer_cpu.go:72-105 | nor does one while no work is announced |
| `SharePipeline.AdoptedWereSent` | symbols/qitmeer/pow_meer_cpu.go:72-105 | every adopted work is usable and was sent by a caller of SetNewWork |
| `SharePipeline.StraightThrough` | symbols/qitmeer/pow_meer_cpu.go:72-152 | from the start, a usable work that is announced and sent is adopted and its first share forwarded, by the steps of the code |
| `SharePipeline.WorkGetsThrough` | symbols/qitmeer/pow_meer_cpu.go:94-152 | a work that is taken up, an empty solo one too, gets a share through when nothing comes between |
| `SharePipeline.ShareGetsThrough` | core/device.go:195-220 | so does a share that is found while nothing new is announced |
| `SharePipeline.QuitLeaves` | core/device.go:195-220 | after a quit an idle miner and the submitter can leave, and the channel is closed |
| `SharePipeline.NoDeadlock` | symbols/qitmeer/pow_meer_cpu.go:72-152 | in every state of every run the miner or the submitter can take a step, unless the miner has left or waits for a work that was not sent |
| `SharePipeline.ClosedByForwarder` | core/device.go:195-220 | the channel is closed exactly when the submitter has left, and that only after a quit |
| `Callbacks.RemoveOne` | public/js/jquery.js:3200-3219 | remove takes away every entry of the function and keeps the rest in order, while the repaired indices still part what has run from what is to run, and nothing else of the list changes |
| `Callbacks.PushAllFine` | public/js/jquery.js:3169-3190 | adding while firing keeps the firing length equal to the list's; the new entries are due, but for those at a place the index has passed |
| `Callbacks.RemoveAtFine` | public/js/jquery.js:3205-3214 | one splice with its index repairs keeps the parting |
| `Callbacks.RunParted` | public/js/jquery.js:3147-3152 | calling the entry at the index moves the parting by one |
| `Callbacks.ClearedFine` | public/js/jquery.js:3226-3246 | emptying or disabling a list takes the entries still to run away from the firing, and nothing else |
| `Callbacks.BeginFine` | public/js/jquery.js:3140-3146 | a list that begins to fire remembers this data, if it remembers, and what was asked for is what was fired and what is stacked |
| `Callbacks.CompleteAtEnd` | public/js/jquery.js:3140-3153 | when the loop has ended, the entries run are exactly those due and not taken away before their turn, each once, in list order, and none that was added at a place already passed |
| `Callbacks.RunOutComplete` | public/js/jquery.js:3147-3152 | so it is for a firing that runs out with nothing editing the list |
| `Deferred.Page.Call` | public/js/jquery.js:3147-3152 | a callback does what the script says next; it throws exactly if it comes to throw or an operation of its own throws unguarded, and only then is its list left firing; what was due, missed or passed stays so |
| `Deferred.Page.Loop` | public/js/jquery.js:3147-3152 | for all callbacks that add, remove, empty, disable, lock, fire again on any list, return false or throw: the loop is over, and the firing complete in that sense, or was cut by a callback of this list that returned false where that stops it, or left by one that threw, exactly as the reference run has it |
| `Deferred.Page.LoopAndEnd` | public/js/jquery.js:3140-3165 | a loop that no callback left by throwing ends the firing, complete unless a callback of this list returned false where that stops it; one that was left leaves the list firing |
| `Deferred.Page.Run` | public/js/jquery.js:3140-3165 | firings asked for meanwhile follow, all of them, once each, in the order in which they were asked for; the list is still firing at the end if and only if a callback of one of them threw, and else complete unless a callback of it returned false where that stops it |
| `Deferred.Page.Add` | public/js/jquery.js:3169-3198 | all additions to an enabled list are taken in; they join a running batch, or a list that remembers fires at once: it stays firing if and only if a callback of it threw, and is else complete |
| `Deferred.Page.FireWith` | public/js/jquery.js:3253-3264 | a list that is enabled and has not fired, or may again, takes the request, at once or behind the present firing, and when it is not left by a throw all requests have been fired in order; on any other nothing changes at all; asking either side of a Deferred to fire leaves it settled, thrown or not |
| `Deferred.FiresAll` | public/js/jquery.js:3140-3165 | an idle list that can fire, fired with nothing disturbing it, has run every callback once more, in order, and the request only; it keeps its entries if it can be fired again, has none if it only remembers, and is disabled otherwise |
| `Deferred.AddFires` | public/js/jquery.js:3169-3198 | additions to an idle list that remembers are run at once, they alone and in order, with the remembered data |
| `Deferred.Page.Remove` | public/js/jquery.js:3200-3219 | the list is left with exactly its other entries, and no other list changes |
| `Deferred.Page.Close` | public/js/jquery.js:3226-3247 | empty, disable and lock change their own list only, and keep every list in order; a locked list can not be fired any more |
| `Deferred.LockedShut` | public/js/jquery.js:3241-3247 | a list that is locked cannot be fired any more, and one that never was fired is disabled |
| `Deferred.ShutForGood` | public/js/jquery.js:3241-3264 | a list that was fired and then locked or disabled is never fired again, whatever is done |
| `Deferred.DisabledUntilEmptied` | public/js/jquery.js:3226-3264 | no operation on a disabled list runs anything, and exactly by empty it is open again |
| `Deferred.Page.Perform` | public/js/jquery.js:3167-3274 | any operations, from outside or from within callbacks, up to the first that throws unguarded: the end is that of the reference run; every list stays in order and every Deferred consistent; the lists that came to be stuck are exactly those of which a callback threw, and none threw without one that came to throw; if all were performed the settled side has taken in all additions, and a Deferred of which a side was fired is settled |
| `Deferred.ToldCall` | public/js/jquery.js:3146-3153 | a call that throws, itself or by what it does, adds its own list to the stuck ones, and one that does not adds none |
| `Deferred.ToldTransitive` | public/js/jquery.js:3140-3198 | two runs one after the other: of both together, stuck are exactly the lists of which a callback of either threw |
| `Deferred.AddTo` | public/js/jquery.js:3173-3195 | the loop of add computes the new list, and whether it fires |
| `Deferred.NewDeferredInv` | public/js/jquery.js:3331-3346 | a new Deferred is consistent |
| `Deferred.SettledOnce` | public/js/jquery.js:3282-3366 | at every moment, inside callbacks too: the state has left "pending" at most once, only one side's callbacks have run, and those in the order they were added, each once |
| `Deferred.StuckForGood` | public/js/jquery.js:3146-3153 | of a list that a callback left by throwing nothing runs again, whatever is done later |
| `Deferred.AtRest` | public/js/jquery.js:3282-3366 | outside all callbacks: an addition to the settled side, before, during or after the settlement, has run, once and in its turn, if and only if no callback of that side threw that was added before it; all have if and only if none threw with another behind it; of the other side nothing has run |
| `Deferred.AllRun` | public/js/jquery.js:3146-3153 | some list is left firing if and only if one of the callbacks that were called came to throw; so if none is to throw, every addition to the settled side has run |
| `Deferred.Conclude` | public/js/jquery.js:3349-3353 | the first resolve or reject settles, later ones change nothing |
| `Deferred.Use` | public/js/jquery.js:3282-3366 | for every use of a new Deferred and every script of its callbacks, throwing included: settled at most once, settled if a side was fired, none of the other side has run; every callback ever added to the settled side has run exactly once in order if none that was called came to throw, and else as AtRest says |
| `Deferred.ThrowLosesRest` | public/js/jquery.js:3146-3153 | the use done(f), done(g), resolve with an f that throws comes to this: resolved, g has not run, and nothing done later makes it run |
| `Deferred.OwnTurn` | public/js/jquery.js:3340-3345 | the three own callbacks set the state, disable the other side and lock the progress list, in this order, after which it is shut |
| `Deferred.SettledShuts` | public/js/jquery.js:3340-3345 | once a Deferred is settled its progress list cannot be fired any more |
| `Deferred.NotifyLate` | public/js/jquery.js:3253-3264 | a notification of a settled Deferred changes no list and calls nobody |
| `Deferred.EmptySkips` | public/js/jquery.js:3226-3230 | of what a callback adds after emptying its list, unique or not, the rest of the firing runs exactly the additions whose place is beyond the index at which the list was emptied, if nothing else edits the list |
| `Deferred.AdditionDecided` | public/js/jquery.js:3169-3190 | whatever else edits a firing list: an addition runs in that firing if and only if its place was beyond the index when it was made and nothing took it away before its turn |
| `Deferred.CalledOnce` | public/js/jquery.js:3338-3346 | a callback is called at most once, and after one of a side none of the other side ever is |
| `When.Waiter.constructor` | public/js/jquery.js:3369-3416 | for any arguments, settled or not, the master stands as they demand; the first failed one decides a rejection |
| `When.Waiter.Listen` | public/js/jquery.js:3396-3416 | the loop over the arguments leaves remaining equal to the number of unresolved ones |
| `When.Waiter.Update` | public/js/jquery.js:3381-3391 | the value takes its argument's place, and the last one resolves the master unless it is settled |
| `When.Waiter.SubResolved` | public/js/jquery.js:3388-3390 | a resolution keeps all that and never changes a settled master |
| `When.Waiter.SubRejected` | public/js/jquery.js:3405 | the first rejection rejects the master and counts nothing down |
| `When.Waiter.SubNotified` | public/js/jquery.js:3385-3386 | progress counts nothing down, and notifies the master with all progress values unless it is settled |
| `When.Waiter.Hear` | public/js/jquery.js:3402-3406 | a subordinate's callback does one of these, and nothing once it is settled |
| `When.SubSettlesOnce` | public/js/jquery.js:3282-3366 | a Deferred that has called back when does so neither again nor otherwise, and its value stays, whatever is done to it |
| `When.SubAtRest` | public/js/jquery.js:3396-3407 | outside all callbacks, after any use, a settled Deferred has called back if and only if none of its callbacks that were added before threw |
| `When.Await` | public/js/jquery.js:3369-3419 | from the call through any sequence of what subordinates call back: resolved if and only if all have called back resolved, with the values in argument order; rejected if and only if one has called back rejected, with what the first one said |
| `When.ResolvedWithAll` | public/js/jquery.js:3369-3419 | the master is resolved if and only if all subordinates have called back resolved, with the values in argument order, and rejected if and only if one has called back rejected |
| `NonceSplit.SetWork` | asic/meer_asic2/meer_drv.c:329-363 | 3n frames, the k-th for its chip and group at k times the unit, in 64 and 8 bits |
| `NonceSplit.StartsOfChip` | asic/meer_asic2/meer_drv.c:329-363 | the three groups of each chip begin where three ranges in a row do |
| `NonceSplit.LoopEnds` | asic/meer_asic2/meer_drv.c:331-335 | the loop with the eight-bit counter ends if and only if there are at most 254 chips |
| `NonceSplit.NoOverflow` | asic/meer_asic2/meer_drv.c:362 | no start and no nonce of a range exceeds 64 bits |
| `NonceSplit.RangesPartition` | asic/meer_asic2/meer_drv.c:332-363 | no nonce is in two ranges, the nonces in some range are those below 3n units, and at most 3n of all are left out |
| `Difficulty.GetNeedHashTimesByTarget` | common/utils.go:231-248 | with L digits of value t: times * t < 2 * 16^L always, and 16^L < 2 * times * t if and only if t > 8 |
| `Difficulty.GetDiff` | symbols/qitmeer/pow_meer_cpu.go:158-173 | the loop computes the difficulty in exact arithmetic |
| `Difficulty.DiffWithin` | symbols/qitmeer/pow_meer_cpu.go:158-173 | over the reals, diff < 2^256 / t <= 2 diff for every target of at most 64 digits, and 2^256 for zero |
| `Difficulty.PaddedValue` | symbols/qitmeer/pow_meer_cpu.go:159 | the padded lower-case text has the target's value |
| `Difficulty.FrontLocates` | symbols/qitmeer/pow_meer_cpu.go:161-170 | the first digits of a text locate its value |
| `MultiTag.Scan` | common/go-flags/multitag.go:18-94 | on every tag the loop ends, with the values of each key in order, or with the first problem |
| `MultiTag.ScanOne` | common/go-flags/multitag.go:24-88 | one round finds the first pair, or what is wrong with it |
| `MultiTag.PrintedMeaning` | common/go-flags/multitag.go:18-94 | scanning any printed pairs, with any spaces between them, gives exactly these pairs |
| `MultiTag.AcceptedIsPrinted` | common/go-flags/multitag.go:18-94 | a tag that is accepted is printed pairs, perhaps with spaces behind, and means these pairs |
| `MultiTag.PrintedIsAccepted` | common/go-flags/multitag.go:18-94 | and every such tag is accepted |
| `MultiTag.WrongIsBroken` | common/go-flags/multitag.go:18-94 | a tag with a problem is printed pairs and spaces before text of just that problem |
| `MultiTag.BrokenIsWrong` | common/go-flags/multitag.go:18-94 | and every such tag has that problem |
| `MultiTag.ClosesAtLive` | common/go-flags/multitag.go:64-80 | a value closes at its first quote with an even number of backslashes before it, unless there is such a newline before |
| `MultiTag.QuotePrints` | common/go-flags/multitag.go:64-88 | any value, quoted, is printable and comes back |
| `MultiTag.ReadBack` | common/go-flags/multitag.go:103-130 | from a printed tag, GetMany gives exactly the values of a key in order and Get the last of them |
| `MultiTag.Tag.Cached` | common/go-flags/multitag.go:103-115 | the cache shows the scanned tag, and nothing for a wrong one |
| `MultiTag.Tag.Parse` | common/go-flags/multitag.go:96-101 | parsing replaces the cache and reports the problem |
| `MultiTag.Tag.Get` | common/go-flags/multitag.go:117-125 | the last value, or nothing |
| `MultiTag.Tag.GetMany` | common/go-flags/multitag.go:127-130 | all values |
| `MultiTag.Tag.Set` | common/go-flags/multitag.go:132-135 | the key has this one value, others keep theirs |
| `MultiTag.Tag.SetMany` | common/go-flags/multitag.go:137-140 | the key has these values, others keep theirs |
| `WrapText.Wrap` | common/go-flags/convert.go:323-357 | for every text that can be wrapped the loop ends with the pieces, joined by newline and prefix |
| `WrapText.RenderWithin` | common/go-flags/convert.go:340-354 | no line is longer than the prefix and the width |
| `WrapText.RenderedLines` | common/go-flags/convert.go:340-354 | the output's lines one by one: those of the first piece, then those of each next behind the prefix, a cut one ending in a hyphen and followed by an empty line |
| `WrapText.PiecesInk` | common/go-flags/convert.go:329-346 | the pieces hold every character that is not space, in order, and no other |
| `WrapText.WordsAndCuts` | common/go-flags/convert.go:329-346 | read back with hyphens joined, the lines have all words of the text but one for each hyphen that fell next to a space other than a blank |
| `WrapText.WordsKept` | common/go-flags/convert.go:329-346 | so the words are the same if and only if no hyphen fell there |
| `WrapText.BlanksCutRight` | common/go-flags/convert.go:329-346 | as in every text whose only spaces are blanks |
| `WrapText.TabIsJoined` | common/go-flags/convert.go:329-346 | at width two a tab between two letters is lost behind a hyphen |
| `WrapText.WrapKeeps` | common/go-flags/convert.go:323-357 | both at once, for every text, width of two or more, and prefix |
| `WrapText.SplitLine` | common/go-flags/convert.go:329-346 | one round: the next line, how it ends, and what is left |
| `WrapText.BreakIs` | common/go-flags/convert.go:329-338 | a line is broken at the last blank within the width, or, where there is none, one before it |
| `WrapText.WrapEnds` | common/go-flags/convert.go:323-357 | for every text and every width the loop ends if and only if the width is at least two or the trimmed text fits |
| `WrapText.WrapFails` | common/go-flags/convert.go:323-357 | it slices out of range if and only if the width is not positive and the trimmed text does not fit; at width one it goes on for ever |

## Left out

- Hardware and the network: UART, GPIO, frequencies and their delays, JSON-RPC, stratum, HTTP, SOCKS, NTP and configuration. `init_drv`, `set_work` and `get_nonce` are arbitrary answers.
- The frame sent to a chip: the code advances to 260 inside `bin[256]`, so an array model of it is not in bounds; only the nonce starts and the split of the header at byte 72 are modelled.
- The other copies of `algo_meer.c`, which say the same, and the big-endian build.
- A null result pointer of the final calls, and messages longer than an object can be.
- SpongeContext.Context.UpdateMid: a message that would overrun the buffer is excluded, because what the copy then does is not defined.
- Merkle.NextPowerOfTwo: floor of the logarithm in integers, not the rounding of `math.Log2`.
- Coinbase.BlockHeader.CalcCoinBase: making coinbase transactions, decoding and serialising are parameters; the order in which the map of fees is visited is one arbitrary order. The decoded transactions are values, so sharing of transaction pointers between headers is not modelled, nor is the sharing of slices between the works of several devices.
- AddCoinbaseTx, which nothing calls in a mining loop.
- Int2varinthex of negative numbers, which lengths never are.
- AsicMiner.Miner.Mine: a header object is made from each adopted work, so works do not share one; the headers saved for the chips are values in a map, and the write of a nonce into one is an update of the map. A pool's header is a function given from outside.
- AsicMiner.Miner.Search: the sleeps, the log and `AllDiffOneShares` are left out, and the seconds of the timeout are an arbitrary "time is up".
- SharePipeline.SharesAreConserved: no fairness is assumed, so that a share gets through is proved as a way that is open, not as one that is taken. A SetNewWork between Mine's receive and `HasNewWork = false` can be missed, so no claim is made that each delivered work is mined. The submitter is taken to have been started on a valid device. Status and the hash rates are left out.
- Deferred.Page.Perform: one list is a record that the page reassigns, not an object of its own; arguments of add are functions, not nested arrays; `always`, `then` and `pipe` are left out, and the values handed to callbacks are one number.
- Deferred.Page.Loop: a firing cut short by a callback that returned false, on a list that stops then, claims only that the lists stay in order and that it is where the reference run leaves it. What is thrown is not told apart by its value, and the Deferred's own three callbacks throw nothing.
- When.Await: the callbacks of when are ticked off one by one, not run inside the pages of the subordinates; what ties them to a Deferred are `SubSettlesOnce` and `SubAtRest`.
- When.Waiter.constructor: a progress value that a subordinate had before the call is not replayed.
- Difficulty.GetDiff: reals instead of floating point.
- MultiTag.Scan: a text is a sequence of characters; `\x`, `\u`, octal and the rarer one-letter escapes belong to `strconv.Unquote`, which is a parameter of the scan.
- WrapText.Wrap: text is a sequence of characters, so a cut inside a multi-byte character and spaces outside Latin-1 are not modelled.
- The rest of jQuery, of the option parser, and the levenshtein helper, which is not an exact edit distance.
