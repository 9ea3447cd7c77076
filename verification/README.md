# A verified model of the node's core

Dafny models of the parts of a Bitcoin-style C++ node whose correctness is decided by code rather than by
cryptography, with proofs about them for all inputs, all random choices and all runs:

- **Script engine** (`Script`, `Interp`, `Blocks`, `Opcodes`, `SigOps`, `SigCount`, `Pushes`, `Multisig`, `Signing`,
  `Outputs`): the bytecode parser and printer, the stack interpreter with its flat condition stack, what every
  opcode does, CHECKMULTISIG, what the standard outputs accept, signature-operation counts, signing and merging of
  multisignature inputs, and in-place deletion of instructions.
- **Address manager** (`AddrTables`, `AddrMan`, `AddrLaws`, `AddrCheck`, `AddrRun`, `AddrStore`): six redundant
  tables under every public operation, what the operations mean for the entries, how far one group can spread, the
  manager's own `Check_`, whole runs, and the save/reload that renumbers entries.
- **Wallet** (`CoinSelect`, `Spend`, `KeyPool`): stochastic coin selection, transaction building with fee and
  change, spent marking over runs, and the key pool's reservations.
- **Wire framing** (`Stream`, `Framing`, `Reception`): the data stream as a byte queue, the sender that patches its
  headers, the receiver that parses whatever has arrived, and what it makes of damaged bytes.
- **Encodings and storage** (`Radix`, `BigNum`, `MinWork`, `Base58`, `VarInt`, `TxDb`): MPI and compact numbers,
  base 58, variable-length integers, and the write-batch overlay of the transaction database.

Code that updates state step by step is modelled by classes and methods with loops. Each is proved against a
function or relation on values, and the lemmas are about those. Hash functions, signature checks and signing
are function parameters; a law about them is stated where a theorem needs it (a hash has at least four bytes,
an empty signature verifies nothing, a signature made by the signer verifies). Random draws are parameters or
nondeterministic, so every result holds for all of them. Clock readings are parameters. Integers are
unbounded; 32- and 64-bit wrap-around is written out where it matters, and where the code relies on its
absence the contract says so (`CoinSelect.Fits`, `Spend.Affordable`).

Some results are about what the code does *not* guarantee:

- `AddrMan.AddrMan.Good` keeps the times `Check_` asks for exactly when its clock reading is positive, and
  `Attempt` exactly when it is not negative.
- `Check_` reads a missing address as id 0 and does not look at bucket placement, bucket sizes or stray names.
  `AddrCheck.CheckIffConsistent` says what has to be added to make it full consistency, and
  `AddrCheck.UnnamedPasses` gives tables that pass without it.
- Deleting a pattern can create a new occurrence of it. That never happens exactly when the pattern does not
  start with an instruction, or is a prefix of its own first instruction followed by itself
  (`Script.DeletionFinalIff`); for every other pattern `Script.NestedRepeats` gives the script.
- Taking the last key out of the pool loses its end (`KeyPool.TakeKeepsIff`), and with `-keypool=0` two live
  reservations get the same index (`KeyPool.EmptyPoolReuses`).
- `CTxDB::Exists` is wrong about a key exactly when it has a pending delete and is on disk (`TxDb.Db.Exists`,
  `TxDb.ExistsAfterErase`).
- A script integer is read back exactly when its magnitude is below 2^31 (`Pushes.PushIntRuns`).
- `CreateTransaction` always puts a change output first, of value zero when there is no change.

`dafny verify dfyconfig.toml` checks everything.

## Model

| member | source | states |
|---|---|---|
| `Script.ReadPush` | src/script.h:351-465 | whatever data is pushed, with any bytes behind it, is read back as that data, and the reader stops right behind it |
| `Script.InstructionsCover` | src/script.h:414-465 | splitting a script into instructions and an unreadable tail loses no byte |
| `Script.InstructionsUnique` | src/script.h:414-465 | instructions put together and split again are the same instructions |
| `Script.StrippedIsFilter` | src/script.h:483-500 | deleting one whole instruction equals filtering it out of the parsed list, the unreadable tail kept, and the count is the number filtered out |
| `Script.HitsShorten` | src/script.h:483-500 | the script shrinks by the number of hits times the length of the pattern, for any pattern |
| `Script.DeletionComplete` | src/script.h:483-500 | after deleting an instruction the others remain in order, and a second deletion finds nothing and changes nothing |
| `Script.NestedRepeats` | src/script.h:483-500 | for every pattern outside the condition, deleting it from its first instruction, itself and its rest leaves the pattern itself |
| `Script.DeletionFinalIff` | src/script.h:483-500 | for every non-empty pattern: a second deletion finds nothing in any script, and likewise changes nothing in any script, if and only if the pattern starts with no instruction or is a prefix of its first instruction followed by itself |
| `Script.DeletionOfPairsCanRepeat` | src/script.h:483-500 | of two different one-byte instructions a second deletion can find one more, with the script; twice the same instruction meets the condition |
| `Script.Builder.FindAndDelete` | src/script.h:483-500 | the in-place loop cuts exactly the hits of the specification and returns their number; an empty pattern does nothing |
| `Script.Builder.AddData` | src/script.h:351-376 | appends the shortest push of the data |
| `Script.PushIsShortest` | src/script.h:351-376 | no instruction pushes the same data in fewer bytes |
| `Interp.OrderOp` | src/script.cpp:455-584 | the swaps, erasures and insertions of the reordering opcodes give the specified stack |
| `Interp.CopyOp` | src/script.cpp:407-531 | the pushes and pops of the copying opcodes give the specified stack, or stop |
| `Interp.PickRollOp` | src/script.cpp:535-551 | so does the erasure and push of PICK and ROLL |
| `Interp.NumericOp` | src/script.cpp:729-857 | operands are read, the number computed and written back as specified |
| `Interp.CheckSigOp` | src/script.cpp:907-940 | the deletion of the signature and the check give the specified outcome |
| `Interp.CheckMultisigOp` | src/script.cpp:942-1013 | the index counting, deletions and matching loop give the specified outcome |
| `Interp.StepOver` | src/script.cpp:260-1025 | one pass of the loop, limits, conditions and size check included, is one step of the interpreter function |
| `Interp.EvalScript` | src/script.cpp:241-1034 | the loop computes the interpreter function: verdict, both stacks, operation count and signature checks, also for runs that fail |
| `Interp.CastToBool` | src/script.cpp:42-55 | the byte loop computes the truth of an item |
| `Interp.TruthyIsNonzero` | src/script.cpp:34-55 | an item is true exactly when it stands for a number other than zero, negative zero included |
| `Interp.MatchSignatures` | src/script.cpp:980-999 | the two-pointer loop of CHECKMULTISIG computes the matching function, with its number of checks |
| `Interp.DropSignatures` | src/script.cpp:970-978 | the signatures are deleted from the signed script one by one |
| `Blocks.FlatIsStructured` | src/script.cpp:258-363 | on every script and machine the flat interpreter equals a recursive evaluator over nested IF blocks, in verdict and whole machine; a script without block structure is never accepted |
| `Blocks.StructureIffBalanced` | src/script.cpp:330-363 | a script has a block structure exactly when its brackets balance, each further ELSE included, and it can be read to the end |
| `Blocks.SkippedBlock` | src/script.cpp:260-328 | skipped code changes neither stack, nor the signed script, nor the number of checks; it only counts operations |
| `Opcodes.EffectsOfOne` | src/script.cpp:478-514 | the stack effects of DROP, DUP, IFDUP and SIZE, on any stack |
| `Opcodes.EffectsOfTwo` | src/script.cpp:407-581 | the documented stack effects of 2DROP, 2DUP, NIP, OVER, SWAP and TUCK |
| `Opcodes.EffectsOfThree` | src/script.cpp:429-563 | those of 3DUP and ROT |
| `Opcodes.EffectsOfFour` | src/script.cpp:443-476 | those of 2OVER and 2SWAP |
| `Opcodes.EffectsOfSix` | src/script.cpp:455-466 | that of 2ROT |
| `Opcodes.EffectsNeed` | src/script.cpp:407-584 | these opcodes stop the script exactly when there are too few items; DEPTH adds the number of items |
| `Opcodes.SwappedBack` | src/script.cpp:468-573 | SWAP twice, or 2SWAP twice, changes nothing in any run but the count of opcodes |
| `Opcodes.RotatedBack` | src/script.cpp:455-563 | likewise ROT and 2ROT three times |
| `Opcodes.PickAndRoll` | src/script.cpp:535-551 | PICK copies and ROLL moves the item n below the top, exactly for numbers of at most four bytes that are such a depth |
| `Opcodes.AltEffects` | src/script.cpp:389-405 | items go to the alternative stack and come back last in, first out |
| `Opcodes.Arithmetic1Runs` | src/script.cpp:729-757 | each opcode on one number leaves a number in the stated relation to it; operands over four bytes stop the script |
| `Opcodes.Arithmetic2Runs` | src/script.cpp:759-836 | the same for the opcodes on two numbers |
| `Opcodes.WithinRuns` | src/script.cpp:840-856 | WITHIN includes the lower bound and excludes the upper |
| `Opcodes.ArithmeticNeeds` | src/script.cpp:729-857 | arithmetic stops the script when an operand is missing |
| `Opcodes.PushedArithmetic` | src/script.cpp:759-836 | two pushed 64-bit integers and an opcode run exactly if both are below 2^31 in magnitude, and leave one item of the right value |
| `Opcodes.HashRuns` | src/script.cpp:863-898 | the hash opcodes replace the top item by its hash |
| `Opcodes.EqualRuns` | src/script.cpp:697-722 | EQUAL compares bytes |
| `Opcodes.VerifyRuns` | src/script.cpp:365-377 | VERIFY takes a true item off and stops at a false one, which stays |
| `Opcodes.VerifyingForm` | src/script.cpp:697-1013 | each of the four verifying opcodes is the plain opcode followed by VERIFY, in verdict and whole machine |
| `Opcodes.Refuses` | src/script.cpp:1014-1015 | reserved and unknown opcodes stop the script when executed |
| `Opcodes.IfTakes` | src/script.cpp:330-347 | IF and NOTIF take the top item and open a block it decides on |
| `Opcodes.IfSkipped` | src/script.cpp:330-347 | in skipped code they take nothing and open a skipped block |
| `Opcodes.ElseAndEndif` | src/script.cpp:349-363 | ELSE turns the innermost condition round, ENDIF removes it, and without one both stop the script |
| `Opcodes.VerIfRefused` | src/script.cpp:290-291 | VERIF and VERNOTIF stop the script wherever they stand |
| `Opcodes.IfElseChooses` | src/script.cpp:330-363 | of the pushes in two arms exactly those happen that the item chooses |
| `Opcodes.Limits` | src/script.cpp:251-287 | every accepted script, executed or skipped parts alike, has at most 10000 bytes, no disabled opcode, no item over 520 bytes and at most 201 opcodes, is read to the end and leaves at most 1000 items; without CHECKMULTISIG the count is exact |
| `Opcodes.NopsRun` | src/script.cpp:269-328 | a script of NOPs runs exactly up to 201 of them, and changes nothing |
| `SigOps.GetSigOpCount` | src/script.cpp:1788-1810 | the counting loop computes the count function |
| `SigCount.CountIsCost` | src/script.cpp:1788-1810 | the count is the sum over all instructions of what each costs where it stands, N for a CHECKMULTISIG right behind OP_N if accurate |
| `SigCount.PlainCount` | src/script.cpp:1788-1810 | the plain count is the number of CHECKSIG forms plus twenty for each CHECKMULTISIG form |
| `SigCount.AccurateIsLower` | src/script.cpp:1788-1810 | the accurate count is lower if and only if some CHECKMULTISIG stands right behind a small integer |
| `SigCount.MultisigCount` | src/script.cpp:1788-1810 | a multisignature script counts for its number of keys, or plainly for twenty |
| `SigCount.CountReached` | src/script.cpp:980-999 | the accurate count is reached by a one-of-n script when no key fits |
| `SigCount.InputCount` | src/script.cpp:1812-1834 | an input counts for the script it pushes last, and for nothing if it does more than push |
| `SigOps.CountsCoverRuns` | src/script.cpp:907-1013 | from every starting stack, and however the run ends, a script makes at most GetSigOpCount(true) signature checks, itself at most GetSigOpCount(false) |
| `SigOps.GetInputSigOps` | src/script.cpp:1812-1834 | the loop over the input's pushes computes the redeem script's count |
| `SigOps.HashNeedsItem` | src/script.cpp:1566-1600 | when a pay-to-script-hash output is satisfied the stack it started from is not empty, so the copy is never empty when read |
| `SigOps.TopIsLastPush` | src/script.cpp:1812-1834 | after a push-only input the top of the stack is the last data pushed, up to small integers |
| `SigOps.VerifyIsPaidFor` | src/script.cpp:1566-1600 | each of the three runs of VerifyScript makes no more checks than the count taken beforehand, the redeem script included |
| `SigOps.VerifyScript` | src/script.cpp:1566-1600 | the method computes the verification function, with and without pay-to-script-hash |
| `SigOps.IsPushOnly` | src/script.h:525-537 | the loop decides whether a script only pushes |
| `Outputs.PushOnlyIff` | src/script.h:525-537 | a script only pushes if and only if it is read to the end and no opcode is above OP_16 |
| `Outputs.CheckSigRuns` | src/script.cpp:907-940 | CHECKSIG checks the item below the top as the signature, the top as the key, over the script without the pushes of that signature |
| `Outputs.CheckSigNeeds` | src/script.cpp:910-912 | without two items CHECKSIG stops the script |
| `Outputs.PayToKey` | src/script.cpp:907-940 | an output for a key accepts exactly a good signature by it, for every signature and key |
| `Outputs.PayBehindSeparator` | src/script.cpp:900-940 | behind a CODESEPARATOR only what follows it is signed |
| `Outputs.PayToKeyHash` | src/script.cpp:1566-1600 | an output for a key hash accepts exactly a key with that hash and a good signature by it over the output script, for every signature, key and hash |
| `Outputs.ScriptHashForm` | src/script.cpp:1836-1843 | the script-hash outputs are exactly HASH160, a push of twenty bytes, EQUAL |
| `Outputs.PayToScriptHash` | src/script.cpp:1566-1600 | a script-hash output accepts an input if and only if it only pushes, runs with room to spare, and ends in a script of that hash that itself leaves a true item when run on the rest |
| `Outputs.PayToScriptHashOff` | src/script.cpp:1566-1600 | without the flag the hash alone decides |
| `Outputs.UnsignedReversed` | src/script.cpp:970-978 | what several signatures sign is the script without the pushes of any of them, in whatever order they are dropped |
| `Outputs.PayToKeys` | src/script.cpp:942-1013 | a multisignature output accepts pushed signatures if and only if they can be given to keys in increasing order |
| `Outputs.PayToKeysByHash` | src/script.cpp:1566-1600 | behind a script hash the same, if and only if also the pushed script has the hash |
| `Pushes.BuildPushAll` | src/script.cpp:1665-1671 | the loop builds the concatenated pushes |
| `Pushes.PushAllRuns` | src/script.cpp:1665-1671 | running PushAll(values) on an empty stack returns exactly the values, and does so if and only if the size limits hold |
| `Pushes.PushIntRuns` | src/script.h:241-253 | executing a pushed integer leaves one item of its value, and script arithmetic reads it back if and only if its magnitude is below 2^31 |
| `Pushes.AddInt` | src/script.h:241-253 | appends the opcode of a small integer or the push of its bytes |
| `Multisig.MatchIffAssignable` | src/script.cpp:942-1013 | the greedy loop succeeds if and only if some strictly increasing assignment of signatures to keys verifies |
| `Multisig.MultisigConsumes` | src/script.cpp:942-1013 | with k signatures and n keys, however the two counts are encoded, exactly n + k + 3 items go, and the verdict of the loop comes back as an item or, in the VERIFY form, ends or continues the run |
| `Multisig.MultisigRunsIff` | src/script.cpp:942-1013 | CHECKMULTISIG goes ahead if and only if the stack is laid out for it, with at most twenty keys and within the limit on opcodes |
| `Signing.VerifyIsMatch` | src/script.cpp:1566-1600 | VerifyScript on a multisignature output and pushed signatures decides what the matching loop decides |
| `Signing.NothingSigned` | src/script.cpp:973-978 | signatures the script does not push leave the signed script unchanged |
| `Signing.SignN` | src/script.cpp:1334-1349 | signs with each key in turn until there are enough; true exactly when the required number was made |
| `Signing.SignedAccepted` | src/script.cpp:1334-1349 | a SignN result of true is accepted by VerifyScript if the signer's signatures verify |
| `Signing.CombineMultisig` | src/script.cpp:1673-1726 | two inputs' signatures are matched to keys and written in key order, filled up with OP_0; have is the number written |
| `Signing.MergedAccepted` | src/script.cpp:1673-1726 | the merged script is accepted by VerifyScript if and only if it has the required number of signatures |
| `Signing.CombinedIffEnough` | src/script.cpp:1673-1726 | with signatures good for one key each, it is accepted if and only if the two inputs together cover the required number of keys |
| `AddrTables.SwapKeeps` | src/addrman.cpp:105-124 | swapping two places of vRandom keeps consistency, permutes it and changes nothing but positions |
| `AddrTables.ReleaseKeeps` | src/addrman.cpp:150-202 | taking an entry out of a bucket, and out of all tables when it was its last, keeps consistency, also while another entry is counted but not yet stored |
| `AddrTables.PromoteKeeps` | src/addrman.cpp:204-229 | moving an entry to a tried bucket with room keeps consistency |
| `AddrTables.ReplaceKeeps` | src/addrman.cpp:231-260 | evicting a tried entry back to a new bucket in its favour keeps consistency |
| `AddrMan.SelectPlace` | src/addrman.cpp:126-148 | the draws decide the result: up to four places are swapped to the front, and the place returned is the one from which the first of those succeeded with least recently was drawn |
| `AddrMan.AddrMan.SelectTried` | src/addrman.cpp:126-148 | does that to one bucket, which is permuted, and to nothing else |
| `AddrMan.OldestOfFour` | src/addrman.cpp:175-188 | the entry taken is the first, in order of ids, of least time among those whose rank in the bucket is one of the four draws |
| `AddrMan.AddrMan.ShrinkNew` | src/addrman.cpp:150-202 | the one entry that leaves is the first terrible one or, when there is none, the one the four draws decide on |
| `AddrMan.AddrMan.MakeTried` | src/addrman.cpp:204-260 | the entry leaves all new buckets for its tried bucket, by one of the two moves; whom it replaces is decided by the draws |
| `AddrMan.MovesKeep` | src/addrman.cpp:204-260 | either move keeps consistency, all names and vRandom |
| `AddrMan.AddrMan.Good` | src/addrman.cpp:262-311 | a service known under that very port is noted and moved, others change nothing; the times stay as Check_ wants them if and only if the time is positive |
| `AddrLaws.GoodIsFresh` | src/addrman.cpp:262-311 | after Good the entry is tried, reached at that time, without failures and not terrible; of the others only the one evicted for it changes, and is no longer tried |
| `AddrMan.WantsBucket` | src/addrman.cpp:333-350 | a known entry gets another bucket exactly if the time is news, it is not tried, it has fewer than four buckets and the draw, from a range that doubles with each bucket, is zero |
| `AddrMan.AddrMan.Add` | src/addrman.cpp:313-369 | whole effect by fate: ignored exactly if not routable, noted if known and not wanted in another bucket or already in it, otherwise stored, evicting the entry the draws decide on exactly if the bucket is full; true exactly for a routable unknown address |
| `AddrMan.AddsKeep` | src/addrman.cpp:313-369 | every fate keeps consistency, the tried half and the ids of names; without an eviction no name is forgotten, with one at most the evicted entry's |
| `AddrLaws.AddsKnown` | src/addrman.cpp:322-339 | a known address announced again, with any fate: its time never goes back, never passes the greater of old and offered, and moves to the offered one less the penalty exactly if that is news by more than the interval; its services become the union; all else stays, also in other entries |
| `AddrLaws.AddsUnknown` | src/addrman.cpp:351-368 | a new entry holds what was announced, less the penalty, with no tries and one bucket |
| `AddrLaws.OneInMany` | src/addrman.cpp:345-350 | of 2^n draws in a row exactly one gives an entry in n buckets another |
| `AddrLaws.TerribleIff` | src/addrman.cpp:37-55 | terrible is exactly an entry with one of five marks that was not tried within a minute |
| `AddrLaws.JustTriedStays` | src/addrman.cpp:37-40 | an entry tried within the last minute is never dropped as terrible |
| `AddrLaws.OldestGoes` | src/addrman.cpp:175-188 | otherwise none of the four entries drawn has been unseen for longer than the one dropped |
| `AddrLaws.BucketsFew` | src/addrman.cpp:9-35 | addresses of one group share four tried buckets, and addresses from one source group 32 new ones |
| `AddrLaws.AddsWithinSource` | src/addrman.cpp:359-367 | whatever is added, only a bucket of the source's 32 gains an entry |
| `AddrLaws.GroupIsBounded` | src/addrman.h:111-115 | in consistent tables, so after any run, one group of addresses holds at most 256 of the 4096 tried places |
| `AddrMan.AddrMan.Attempt` | src/addrman.cpp:371-388 | notes the attempt on a known service only; times stay right if and only if the reading is not negative |
| `AddrMan.AddrMan.Connected` | src/addrman.cpp:510-528 | refreshes the time of a known service after twenty minutes, and nothing else |
| `AddrMan.AddrMan.GetAddr` | src/addrman.cpp:494-508 | gives the right number of known addresses, none twice, and only reorders vRandom |
| `AddrMan.AddrMan.constructor` | src/addrman.h:381-389 | a new manager is empty and consistent |
| `AddrCheck.Check` | src/addrman.cpp:435-491 | the error number is that of the first test that fails, entries in order of ids, and zero exactly for tables that meet the predicate Checks; names only grow, and on a clean check by the entry for id 0 alone |
| `AddrCheck.CheckTried` | src/addrman.cpp:466-474 | the walk over the tried buckets fails exactly when they name another id or one twice, and ends with nothing left exactly when they name every tried id once |
| `AddrCheck.CheckNew` | src/addrman.cpp:476-485 | the countdown over the new buckets fails exactly when they hold an id more often than counted, and ends with nothing left exactly when they hold each as often as counted |
| `AddrCheck.CheckIffConsistent` | src/addrman.cpp:435-491 | full consistency with proper times is exactly a clean Check_ together with what it does not look at |
| `AddrCheck.UnnamedPasses` | src/addrman.cpp:457 | for every address the tables holding it as entry 0 without its name pass Check_ and are not consistent |
| `AddrRun.AddAll` | src/addrman.h:426-439 | the addresses are added in turn, each with the effect of Add_ on what the one before left; true exactly if one of them was routable and unknown at its turn |
| `AddrRun.ReloadStamped` | src/addrman.h:269-378 | saving and reloading keeps the times as Check_ wants them |
| `AddrRun.Perform` | src/addrman.h:411-502 | each public call has its stated effect on the tables, and keeps the times as Check_ wants them if its clock reading is proper |
| `AddrRun.Run` | src/addrman.h:411-502 | any sequence of calls on a new manager, saving and reloading among them, does one call's effect after the other; with proper clock readings Check_ is clean at the end and every entry is in its place |
| `AddrStore.Save` | src/addrman.h:269-316 | the save loops write the specified file |
| `AddrStore.SavedWellFormed` | src/addrman.h:269-316 | the file of a consistent manager is well formed |
| `AddrStore.Load` | src/addrman.h:317-377 | a well-formed file is restored as specified and nothing is lost |
| `AddrStore.ReloadConsistent` | src/addrman.h:317-377 | the reloaded manager is consistent |
| `AddrStore.ReloadIsomorphic` | src/addrman.h:269-378 | saving and reloading keeps addresses, new buckets, reference counts and tried buckets, up to renaming of ids |
| `AddrStore.Reload` | src/addrman.h:269-378 | the two methods in sequence: nothing lost, consistent, isomorphic |
| `CoinSelect.SortDescending` | src/wallet.cpp:1015 | descending order and a permutation |
| `CoinSelect.Approximate` | src/wallet.cpp:1014-1047 | for all lots the best subset kept has the total recorded for it, at least the target and at most everything, and falls short without some one of its coins |
| `CoinSelect.SelectCoinsMinConf` | src/wallet.cpp:950-1074 | false exactly if eligible coins total less than the target; otherwise eligible coins worth the returned total, equal to the target or a cent above unless all eligible coins total in between, no dearer than any single coin that would do, and one of them needed for the target and a cent |
| `CoinSelect.SelectCoins` | src/wallet.cpp:1076-1084 | selects from the first tier that covers the target, and fails exactly when the loosest falls short |
| `CoinSelect.SelectsCautiously` | src/wallet.cpp:1076-1084 | only usable coins are taken, only mined ones if those suffice, and only own or six blocks deep ones if those do |
| `Spend.MarkLaws` | src/wallet.h:460-491 | marking spent or unspent changes the answer for one output and no other, whatever the length of the flags |
| `Spend.AvailableCoins` | src/wallet.cpp:919-948 | lists every spendable output once and no other |
| `Spend.ListedIff` | src/wallet.cpp:919-948 | an output is listed if and only if its transaction is final, confirmed, mature and not too young, and it is unspent, ours and worth something |
| `Spend.Amount` | src/wallet.cpp:1091-1099 | succeeds exactly for a non-empty payment list without negative partial sums |
| `Spend.Change` | src/wallet.cpp:1134-1150 | change and fee account for all that is left; small change goes to the fee |
| `Spend.CreateTransaction` | src/wallet.cpp:1089-1206 | inputs equal outputs plus fee, TX_FEE <= fee < TX_FEE + MIN_TXOUT_AMOUNT and exactly TX_FEE if there is change, change zero or at least MIN_TXOUT_AMOUNT, inputs spendable, distinct, deep enough and one of them needed; fails exactly for unpayable amounts, short funds, failed signing or excessive size |
| `Spend.OutTotalSums` | src/wallet.cpp:1091-1099 | the total of outputs is the sum of their values |
| `Spend.InTotalSums` | src/wallet.cpp:1181-1183 | the total of inputs is the sum of the outputs they spend |
| `Spend.SmallIs` | src/wallet.cpp:1192-1194 | the limit on the size of a transaction is a million bytes |
| `Spend.Wallet.WalletUpdateSpent` | src/wallet.cpp:288-311 | exactly those inputs that are ours become spent in addition, up to the first with a bad index |
| `Spend.Wallet.AddToWallet` | src/wallet.cpp:322-401 | the transaction is entered as it is or its flags merged, then exactly its inputs that are ours become spent in addition |
| `Spend.Wallet.CommitTransaction` | src/wallet.cpp:1216-1263 | exactly the inputs become spent in addition; fails exactly for inputs not in the wallet |
| `Spend.Wallet.SendMoney` | src/wallet.cpp:1268-1298 | create then commit spends only outputs that were unspent, and marks them; nothing is sent, and nothing changes, only for an unpayable amount, short funds, a failed signature or excessive size |
| `Spend.SentDisjoint` | src/wallet.cpp:1216-1263 | in any run without an unspend step, payments sent spend pairwise disjoint outputs |
| `Spend.CanAfford` | src/wallet.cpp:1089-1206 | decides the bound on amounts that rules out 64-bit wrap-around |
| `Spend.Perform` | src/wallet.cpp:1268-1298 | one payment or arriving transaction is one step of the run relation: the payment is sent as built, or refused for a reason |
| `Spend.Drive` | src/wallet.cpp:1268-1298 | the wallet's own methods called on any tasks in any order make a run, one step a task, and the transactions sent in it spend pairwise disjoint outputs |
| `KeyPool.Wallet.TopUpKeyPool` | src/wallet.cpp:1440-1464 | adds fresh keys at the end until the pool has one more than the setting; a locked wallet is left alone |
| `KeyPool.ToppedUpSize` | src/wallet.cpp:1440-1464 | a pool topped up has one key more than the setting, or is as it was |
| `KeyPool.FilledAdds` | src/wallet.cpp:1451-1461 | keys are added under indexes behind all others, each new, and nothing else changes |
| `KeyPool.Wallet.ReserveKeyFromKeyPool` | src/wallet.cpp:1466-1491 | tops up, then takes the least index with its stored key, or -1 from an empty pool |
| `KeyPool.ReserveKey.GetReservedKey` | src/wallet.cpp:1637-1653 | a live reservation repeats its key, another makes one reservation |
| `KeyPool.ReserveKey.KeepKey` | src/wallet.cpp:1655-1661 | the key leaves the database and the reservation ends |
| `KeyPool.ReserveKey.ReturnKey` | src/wallet.cpp:1663-1669 | the index goes back to the pool and the reservation ends |
| `KeyPool.FillKeeps` | src/wallet.cpp:1451-1461 | topping up keeps the invariant that every reserved index is stored, out of the pool and below its end |
| `KeyPool.TakeKeepsIff` | src/wallet.cpp:1477-1484 | taking the oldest key keeps the invariant if and only if it was not the last one |
| `KeyPool.ReserveKeeps` | src/wallet.cpp:1466-1491 | reserving keeps the invariant if and only if, unlocked, the setting is at least one or two keys are pooled, or, locked, the pool does not hold exactly one |
| `KeyPool.HeldOnce` | src/wallet.cpp:1440-1552 | at no point of a run do two reservations hold the same index or key |
| `KeyPool.KeptNeverAgain` | src/wallet.cpp:1637-1669 | a key that was kept is never handed out later in the run |
| `KeyPool.Serve` | src/wallet.cpp:1440-1669 | each call of the classes' methods is a step of the run relation, of the kind asked for |
| `KeyPool.Drive` | src/wallet.cpp:1440-1669 | one wallet's reservations called in any order, with a setting of at least one, make a run, one event a call: no two live ones have the same index, and no key kept is handed out again |
| `KeyPool.EmptyPoolReuses` | src/wallet.cpp:1451-1461 | with -keypool=0 there is a run in which two live reservations have the same index |
| `Stream.DataStream.Read` | src/serialize.h:1002-1023 | takes the first bytes of the queue or, if there are too few, nothing |
| `Stream.DataStream.Ignore` | src/serialize.h:1025-1040 | drops the first bytes of the queue |
| `Stream.DataStream.Erase` | src/serialize.h:940-958 | removes a range of the queue, whichever way it is done |
| `Stream.DataStream.Insert` | src/serialize.h:882-893 | inserts into the queue, whichever way it is done |
| `Stream.DataStream.Compact` | src/serialize.h:960-964 | changes nothing that can be read |
| `Stream.DataStream.Rewind` | src/serialize.h:966-973 | gives back what was read if it is still there |
| `Framing.IsValid` | src/protocol.cpp:50-78 | the pointer loop accepts exactly headers with the right start, printable text then zeros, and a size within the limit |
| `Framing.ProcessMessages` | src/messages.cpp:779-903 | on any bytes the loop delivers and keeps what the parser function says, skipping garbage, bad headers and bad checksums |
| `Reception.OnlyGenuine` | src/messages.cpp:779-903 | whatever bytes arrive, each message delivered stands among them as the frame a sender writes for it, in order and without overlap |
| `Reception.OnlyGenuineChunked` | src/messages.cpp:779-903 | likewise for bytes that come in chunks |
| `Reception.StandsAsSent` | src/protocol.cpp:50-78 | a valid header with the right checksum, and its payload, are the frame of the message read from them |
| `Reception.RefusedIff` | src/protocol.cpp:50-78 | a header with the right start is refused exactly for its size, an unprintable byte or text behind a zero |
| `Reception.RefusedDropped` | src/messages.cpp:823-831 | a refused header is dropped and what follows is parsed as if alone |
| `Reception.DamagedDropped` | src/messages.cpp:848-857 | so is a header whose checksum is not that of its payload |
| `Reception.UnfinishedWaits` | src/messages.cpp:841-846 | a header that announces more than has arrived waits, and nothing is lost |
| `Reception.GarbageSkipped` | src/messages.cpp:806-820 | bytes in which no message starts are passed over |
| `Reception.GarbageKept` | src/messages.cpp:806-817 | where no start has a header behind it, exactly a header's length is kept |
| `Framing.FrameParses` | src/messages.cpp:803-870 | a whole frame at the front is delivered and the rest is parsed as if alone |
| `Framing.FrameWaits` | src/messages.cpp:803-846 | a proper prefix of a frame delivers nothing and is kept whole |
| `Framing.StreamParses` | src/messages.cpp:779-903 | of any prefix of a stream of frames the whole messages are delivered and a proper prefix of the next frame is kept |
| `Framing.ParseExtends` | src/messages.cpp:779-903 | parsing bytes, and then what was kept with more bytes behind it, delivers and keeps what parsing all of them does, on any bytes |
| `Framing.ChunksParse` | src/messages.cpp:779-903 | however any bytes are cut into chunks, garbage and damaged messages included, outcome and kept bytes are those of receiving them at once |
| `Framing.FramesChunked` | src/messages.cpp:779-903 | of a stream of frames cut anywhere the whole messages are delivered and a proper prefix of the next frame is kept |
| `Framing.AllDelivered` | src/messages.cpp:779-903 | once all bytes are in, exactly the sent commands and payloads have been delivered and nothing is kept |
| `Framing.ReceiveAll` | src/net.cpp:717-735 | receiving chunk by chunk computes the fold the theorem is about |
| `Framing.Sender.BeginMessage` | src/net.h:308-320 | opens a message behind everything sent; an open one is dropped |
| `Framing.Sender.AbortMessage` | src/net.h:322-333 | as if the message had not been begun |
| `Framing.Sender.EndMessage` | src/net.h:335-365 | the patched bytes are the frame of the command and everything put |
| `Framing.Sender.SendAll` | src/net.h:308-365 | messages sent in turn give the concatenation of their frames |
| `BigNum.SetInt64` | src/bignum.h:123-156 | the shifting byte writer produces the number itself, for every 64-bit integer |
| `BigNum.PayloadUnique` | src/bignum.h:243-268 | a shortest payload is the one its value is written with |
| `BigNum.VchRoundTrip` | src/bignum.h:243-268 | every integer is read back from its script bytes |
| `BigNum.VchFormula` | src/bignum.h:243-268 | script bytes are little-endian with the sign in the top bit of the last |
| `BigNum.VchLength` | src/bignum.h:258-268 | at most four bytes exactly for magnitudes below 2^31, none exactly for zero |
| `BigNum.GetVch` | src/bignum.h:258-268 | the length test, copy and reversal give the script form |
| `BigNum.SetVch` | src/bignum.h:243-256 | the length prefix and reversal read the script form |
| `BigNum.GetCompact` | src/bignum.h:282-293 | computes the compact form |
| `BigNum.SetCompact` | src/bignum.h:270-280 | reads the compact form |
| `BigNum.CompactFormula` | src/bignum.h:270-280 | every compact form stands for its three low bytes, the top bit a sign, scaled by 256^(size - 3) |
| `BigNum.CompactRoundTrip` | src/bignum.h:270-293 | reading a compact form back rounds toward zero to three bytes |
| `BigNum.TruncationError` | src/bignum.h:270-293 | the relative error is below 2^-15 |
| `BigNum.CompactIdempotent` | src/bignum.h:270-293 | a rounded number has the compact form it came from |
| `BigNum.CompactMonotone` | src/bignum.h:282-293 | greater targets have greater compact forms |
| `MinWork.ComputeMinWork` | src/messages.cpp:31-45 | the loop computes the compact form of min(limit, base * 2^(1 + days begun)) |
| `MinWork.DaysCover` | src/messages.cpp:31-45 | the days begun are the least number that covers the span, and none for a span that is not positive |
| `Base58.EncodeBase58` | src/base58.h:28-66 | the division loop, zeros and reversal give the text |
| `Base58.DecodeBase58` | src/base58.h:76-120 | the multiplication loop, sign trimming and zeros give the bytes; false exactly for anything but letters within spaces |
| `Base58.DecodedIff` | src/base58.h:76-120 | decoding succeeds if and only if the text is letters within spaces |
| `Base58.AlphabetIs` | src/base58.h:25 | the letters are the digits and letters without 0, O, I and l; they ascend (`LettersAscend`) |
| `Base58.SpaceIs` | src/base58.h:83-93 | six characters are spaces |
| `Base58.LettersAscend` | src/base58.h:25 | a greater digit has a greater letter |
| `Base58.ConvertBack` | src/base58.h:28-120 | changing base and back returns any digit string with its leading zeros |
| `Base58.DecodeEncoded` | src/base58.h:28-120 | every byte string comes back from its text |
| `Base58.EncodeDecoded` | src/base58.h:28-120 | every text over the alphabet is the text of what it decodes to |
| `Base58.DecodedPadded` | src/base58.h:76-120 | spaces before and after make no difference |
| `Base58.DecodeEncodedCheck` | src/base58.h:133-161 | the checksummed pair round-trips for every hash |
| `Base58.DecodedCheckIff` | src/base58.h:133-161 | a text over the alphabet passes exactly when it is the checked text of some bytes, and then of those returned |
| `VarInt.GetSizeOfVarInt` | src/serialize.h:241-252 | the exact length of the encoding |
| `VarInt.WriteVarInt` | src/serialize.h:254-269 | for every width the buffer of (bits + 6) / 7 bytes is never overrun and the encoding is written |
| `VarInt.ReadVarInt` | src/serialize.h:271-284 | reads the first number, modulo the type's width, and stops behind it; fails exactly without a terminator |
| `VarInt.EncodedRead` | src/serialize.h:254-284 | the encoding of every natural is well formed and reads as it |
| `VarInt.ReadEncoded` | src/serialize.h:254-284 | every well-formed string is the encoding of its value, so the encoding is a bijection |
| `VarInt.EncodedOrdered` | src/serialize.h:254-284 | greater numbers have longer encodings, or higher ones of the same length, which leaves one encoding only |
| `VarInt.FitsRoom` | src/serialize.h:254-269 | integers of any width fit the writer's buffer |
| `VarInt.ReadBack` | src/serialize.h:254-284 | a number written is read back from a longer stream without loss |
| `TxDb.LastWins` | src/txdb-leveldb.cpp:159-201 | the committed value of a key is decided by the last change to it |
| `TxDb.Db.ScanBatch` | src/txdb-leveldb.cpp:189-201 | the scan finds the last change to the key |
| `TxDb.Db.Read` | src/txdb-leveldb.h:61-100 | on every key it reads what the store will hold after a commit |
| `TxDb.Db.Exists` | src/txdb-leveldb.h:146-164 | agrees with that store if and only if the key has no pending delete of something on disk |
| `TxDb.ExistsAfterErase` | src/txdb-leveldb.h:146-164 | erasing a stored key inside a transaction, any key and value: it is no longer read and still exists |
| `TxDb.Db.Write` | src/txdb-leveldb.h:102-125 | changes what is read, and the store only outside a transaction |
| `TxDb.Db.Erase` | src/txdb-leveldb.h:127-144 | likewise for deletion |
| `TxDb.Db.TxnCommit` | src/txdb-leveldb.cpp:146-157 | the store becomes what reads have shown |
| `TxDb.Db.TxnAbort` | src/txdb-leveldb.h:170-175 | the store is what it was |
| `TxDb.Db.Transaction` | src/txdb-leveldb.cpp:139-157 | the changes of a transaction take effect together or not at all |

## Left out

- BigNum.SetVch: excludes strings of four gigabytes and more, whose length does not fit the format; Base58.EncodeBase58 likewise.
- BigNum.CompactRoundTrip: stated for payloads of at most 255 bytes, as are idempotence and monotonicity; longer ones wrap the length byte, which Compact models.
- AddrStore.Load: excludes files that claim more new buckets than there are, which index past the table; says nothing about other files that are not well formed.
- AddrRun.Run: Select is not among the calls; it changes nothing.
- CoinSelect.SelectCoinsMinConf: ties between equal values are sorted in any order; amounts whose sums leave 64 bits are excluded.
- Spend.CreateTransaction: priority, supporting transactions and the key behind the change script are parameters or not modelled.
- Spend.Drive: payments whose sums could leave 64 bits are passed over.
- KeyPool.Drive: the wallet is unlocked, as in the run relation, and starts with a fully stored pool and no live reservation.
- Spend.Wallet.CommitTransaction: the mempool's verdict, which changes nothing in the wallet, is not modelled.
- KeyPool.Wallet.ReserveKeyFromKeyPool: asks that every pooled index is stored, as it is after loading; the exceptions for failed reads are not modelled.
- Framing.ProcessMessages: processing of the delivered messages, peer bans that clear the buffer and -dropmessagestest are not modelled.
- TxDb.Db.Read: LevelDB failures and deserialisation of values are not modelled.
- ECDSA, hashing and SignatureHash preimages, which are parameters, and Solver, which recognises the standard outputs.
- Script items of four gigabytes and more.
- Select_, GetChance and priorities: floating point and retry loops without bound.
- NewKeyPool and AddReserveKey, which reuse indexes while reservations are live.
- CDataStream::Serialize on a partly read stream, and stream state flags.
- FormatMoney and ParseMoney, which do not round-trip.
- Block and mempool acceptance, networking, threads, RPC, GUI, alerts, orphan maps and file plumbing.
