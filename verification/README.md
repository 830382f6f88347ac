# Authenticated garbling and correlated OT, verified

This project models the multi-party authenticated garbling engine under `mpcauth/` and the correlated OT below it,
and proves that honest runs are correct: for every circuit, every number of parties and every input, no check fires
and every receiver gets the bits of plain circuit evaluation.

`dafny verify dfyconfig.toml` checks all files.

## How the model is built

- A block is the set of its one-bit positions, so `^` is symmetric difference and `LSB` is membership of 0. Sums over
  parties are `XSum` and `BSum`; block identities reduce to boolean ones bit by bit (`Blocks.InXSum`), and double sums
  over ordered pairs of parties cancel by `Blocks.CrossPairs`.
- Parties are numbered 1 to `n`; arrays indexed by party have an unused entry 0. All shares of one bit form a column.
  `AuthShares.Auth` is the MAC relation `mac_i[j] = key_j[i] ^ bit_i * Delta_j` for every ordered pair.
- What one party does is a method, with loops and in-place updates as in C++. What all parties do together is stated
  over a record of everybody's values (`Run`, `Inputs`, `Outputs`, `Triples`, ...), whose fields are tied together by
  exactly the conditions the methods ensure. `Execution.Execute`, `ABitRun.ComputeAll`, `PreprocessRun.Compute`,
  `OnlineRun.RunOnline`, `WholeRun.RunProtocol` and `FerretPair.Session` run the methods of all parties side by side, so
  those conditions are met by programs. `RunProtocol` and `Session` start from base OTs.
- AES, PRP, CRH and hashes are arbitrary functions, the same at every party. Randomness, seeds and received messages
  are parameters. What pads and digests keep apart is stated under the property of these functions it needs, such as
  injectivity.
- Programs of all parties return the record of their run beside their results, so that their contracts say which values
  the results were computed from.
- Array algorithms of the GGM tree and of LPN are generic in the element type; `Spcot` and `Extension` use them with
  blocks and XOR.

| file | what it holds |
|---|---|
| `Arith`, `Blocks`, `AuthShares` | powers of two, XOR algebra, authenticated shares |
| `Circuit` | Bristol circuits and their plain semantics |
| `Garbling`, `Cmpc`, `Session`, `Execution` | garbled rows, one party's engine, all parties' run, the run as a program |
| `Pads` | what the pads of garbled rows, half-products and `phi` messages keep apart |
| `FlexIo`, `Exchange`, `Protocol`, `OnlineRun` | input and output rounds, the online protocol, composition, the online phase as a program |
| `EndToEnd`, `WholeRun` | all phases in a row, as a theorem about runs and as a program |
| `Commitments` | hash commitments and the coin toss |
| `ABit`, `ABitRun` | the check of authenticated bits, and the bits of all parties from pairwise OTs |
| `LeakyAnd`, `Buckets`, `Preprocess`, `PreprocessRun` | triple preprocessing, for one party and as a program of all |
| `ZeroSum`, `AndCheckRun` | the zero-sum identity, and the test as a program of all parties |
| `Iknp` | IKNP correlated OT and its consistency check |
| `GgmExpand`, `Ggm`, `Spcot`, `PreOt`, `Mpcot`, `Lpn`, `Extension` | one Ferret extension |
| `ExtensionForm` | an extension in closed form, bit by bit |
| `Endpoint` | what every extension makes of `ot_pre_data`, and all extensions of two parties |
| `FerretStream`, `Ferret`, `FerretPair` | stream positions and rounds, the self-refilling buffer, both parties' buffers together |
| `ShareBuilder`, `ShareCodec`, `Base64` | share provisioning and its byte and text forms |

## Model

| member | source | states |
|---|---|---|
| `Circuit.ComputeLoop` | mpcauth/emp-tool/emp-tool/circuits/circuit_file.h:114-128 | the gate loop that overwrites `wires` in place returns `Compute`, the recursive circuit semantics |
| `Circuit.PlainFollows` | mpcauth/emp-tool/emp-tool/circuits/circuit_file.h:114-128 | in a well-formed circuit the final wire values satisfy every gate's equation at once |
| `Circuit.FollowsOutput` | mpcauth/emp-tool/emp-tool/circuits/circuit_file.h:114-128 | conversely, any wire assignment that satisfies all gate equations and the inputs ends in the circuit's outputs |
| `AuthShares.AddAuth` | mpcauth/emp-agmpc/emp-agmpc/mpc.h:155-161 | adding two authenticated columns locally authenticates their XOR |
| `AuthShares.AddConstAuth` | mpcauth/emp-agmpc/emp-agmpc/mpc.h:230-235 | flipping party 1's bit and moving everybody else's key for party 1 by its Delta adds a public constant and keeps all MACs |
| `AuthShares.HonestOpening` | mpcauth/emp-agmpc/emp-agmpc/flexible_input_output.h:161-184 | an honest opening passes the MAC check, an opening of the flipped bit does not when Delta is not zero |
| `Garbling.RowsCorrect` | mpcauth/emp-agmpc/emp-agmpc/mpc.h:256-273 | row `2u+v` is an authenticated sharing of `(a^u)(b^v) ^ out` when sigma shares `ab`, for every number of parties |
| `Garbling.MacsMeetKeys` | mpcauth/emp-agmpc/emp-agmpc/mpc.h:276-284 | the MACs all others hold against a party XOR to that party's keys plus its share of the opened bit times Delta |
| `Garbling.GateView.LabelCorrect` | mpcauth/emp-agmpc/emp-agmpc/mpc.h:646-653 | folding the decrypted rows of all garblers gives each garbler's active label of the output wire |
| `Garbling.GateView.MaskCorrect` | mpcauth/emp-agmpc/emp-agmpc/mpc.h:648-663 | every first entry decrypts to `K` or `K ^ Delta_1`, and the flips recover the masked AND |
| `Garbling.GateView.EvalAndCorrect` | mpcauth/emp-agmpc/emp-agmpc/mpc.h:643-664 | the AND case of the evaluator: decoding succeeds, masked bit and labels are those of the plain AND |
| `Pads.RowMasked` | mpcauth/emp-agmpc/emp-agmpc/mpc.h:441-458 | entry `k` of a garbled row is its MAC, or keys, label and bit, XOR the permutation of the row's own labels, gate, row and entry |
| `Pads.PadsEqual` | mpcauth/emp-agmpc/emp-agmpc/mpc.h:441-465 | for an injective permutation two pads are equal if and only if their labels mix to blocks that differ by as much as their positions |
| `Pads.PadsByPosition` | mpcauth/emp-agmpc/emp-agmpc/mpc.h:441-465 | under the same labels pads are equal if and only if gate, row and entry are |
| `Pads.PadsByLabel` | mpcauth/emp-agmpc/emp-agmpc/mpc.h:441-465 | at the same position pads are equal if and only if the labels mix to the same block |
| `Pads.RowOpensOnly` | mpcauth/emp-agmpc/emp-agmpc/mpc.h:275-284 | removing the pad of any two labels from a row yields its content if and only if they mix like the row's own labels |
| `Pads.OneRowOpens` | mpcauth/emp-agmpc/emp-agmpc/mpc.h:275-284 | of the four rows of a gate, the holder of labels moved by `u` and `v` opens row `2u+v` and no other, if moving labels by Delta changes what they mix to |
| `Cmpc.Party.constructor` | mpcauth/emp-agmpc/emp-agmpc/mpc.h:112-133 | end of the function-independent phase: input wires carry the first preprocessed shares |
| `Cmpc.Party.AssignWires` | mpcauth/emp-agmpc/emp-agmpc/mpc.h:144-173 | after the two gate loops every gate's wire-share and zero-label equation holds in the final arrays, and the labels of inputs and AND outputs are still the random ones |
| `Cmpc.Party.MaskedOperands` | mpcauth/emp-agmpc/emp-agmpc/mpc.h:179-186 | this party's shares of both AND operands, masked by the triple |
| `Cmpc.OpenVectors` | mpcauth/emp-agmpc/emp-agmpc/mpc.h:202-205 | the in-place XOR over all parties' vectors |
| `Cmpc.SigmaGate` | mpcauth/emp-agmpc/emp-agmpc/mpc.h:210-235 | one gate's sigma share, including the asymmetric fix-up |
| `Cmpc.Party.ComputeSigma` | mpcauth/emp-agmpc/emp-agmpc/mpc.h:207-238 | all sigma shares |
| `Cmpc.RowsOfGate` | mpcauth/emp-agmpc/emp-agmpc/mpc.h:257-273 | bit, MACs and keys of the four rows |
| `Cmpc.EncryptRow` | mpcauth/emp-agmpc/emp-agmpc/mpc.h:275-284 | the encrypted row sent to party 1: others' entries carry MACs, the own entry keys, label and bit |
| `Cmpc.Party.GarbleGates` | mpcauth/emp-agmpc/emp-agmpc/mpc.h:255-289 | the garbler's tables of all AND gates |
| `Cmpc.Party.PrepareRows` | mpcauth/emp-agmpc/emp-agmpc/mpc.h:299-321 | party 1's rows of all AND gates |
| `Cmpc.EvaluateAnd` | mpcauth/emp-agmpc/emp-agmpc/mpc.h:643-664 | the nested decrypt-fold-decode loops compute `EvalAnd` |
| `Cmpc.Party.Evaluate` | mpcauth/emp-agmpc/emp-agmpc/mpc.h:637-670 | the evaluator loop: final arrays satisfy every gate's evaluation equation, inputs untouched, and the result says exactly whether some row did not match |
| `Session.Run.WireAuth` | mpcauth/emp-agmpc/emp-agmpc/mpc.h:144-173 | after garbling every assigned wire's mask is authenticated for all ordered pairs of parties |
| `Session.Run.GateMask` | mpcauth/emp-agmpc/emp-agmpc/mpc.h:144-173 | masks follow the gates: XOR adds them, NOT keeps them |
| `Session.Run.OperandsOpen` | mpcauth/emp-agmpc/emp-agmpc/mpc.h:179-205 | what is opened is the input mask XOR the triple's operand |
| `Session.Run.SigmaCorrect` | mpcauth/emp-agmpc/emp-agmpc/mpc.h:207-238 | the XOR of all sigma shares is the AND of the two input masks, with valid MACs |
| `Session.Run.EvalGateCorrect` | mpcauth/emp-agmpc/emp-agmpc/mpc.h:637-670 | evaluator invariant, one gate: active labels in, active labels out, plain gate relation on the unmasked bits, row decoded |
| `Session.Run.LabelsActive` | mpcauth/emp-agmpc/emp-agmpc/mpc.h:637-670 | evaluator invariant over the loop: each garbler's label on every computed wire is the one for the masked bit |
| `Session.Run.EvaluationCorrect` | mpcauth/emp-agmpc/emp-agmpc/mpc.h:637-670 | for every circuit, party count and masked input: no row fails to decode and the unmasked outputs are the plain circuit's |
| `Execution.GarbleAll` | mpcauth/emp-agmpc/emp-agmpc/mpc.h:135-328 | all parties' objects run side by side: the collected values form a run on the dealt shares and random labels in which everybody followed the protocol |
| `Execution.Execute` | mpcauth/emp-agmpc/emp-agmpc/mpc.h:135-328 | executable n-party garbling and evaluation: no row fails to decode, the result equals `Compute` of the circuit on the input, and it is read off the returned run and its evaluated wires |
| `OnlineRun.InputAll` | mpcauth/emp-agmpc/emp-agmpc/flexible_input_output.h:89-522 | every party's input round: all views, and a cheat verdict exactly when some party's check rejects |
| `OnlineRun.OutputAll` | mpcauth/emp-agmpc/emp-agmpc/flexible_input_output.h:609-823 | every party's output round: an abort exactly when somebody meets a foreign label or a wrong MAC, and everybody's results otherwise |
| `OnlineRun.RunOnline` | mpcauth/emp-agmpc/emp-agmpc/mpc.h:615-677 | the whole online phase as a program of all parties, for any mix of input and output kinds: nobody aborts, receivers and nobody else read the plain circuit's bits on the inputs the assignments stand for, authenticated outputs share them, and all results are those of the returned run on the dealt values |
| `FlexIo.OpenShares` | mpcauth/emp-agmpc/emp-agmpc/flexible_input_output.h:116-131 | the message opening the selected shares to one party |
| `FlexIo.VerifyAll` | mpcauth/emp-agmpc/emp-agmpc/flexible_input_output.h:161-184 | the check raises cheat exactly when some selected opening has a wrong MAC |
| `FlexIo.ChangedRefused` | mpcauth/emp-agmpc/emp-agmpc/flexible_input_output.h:161-184 | an accepted opening with its bit flipped or its MAC changed is accepted if and only if both changes fit together under Delta |
| `FlexIo.FlexIn.RejectsExact` | mpcauth/emp-agmpc/emp-agmpc/flexible_input_output.h:161-495 | the verdict of `input`: raised if and only if some opening, in the round for its kind of assignment, does not carry the MAC of this party's key |
| `FlexIo.Input` | mpcauth/emp-agmpc/emp-agmpc/flexible_input_output.h:89-522 | verdict of all three checks and the masked input of all four kinds, from what was received |
| `FlexIo.DecodeLabels` | mpcauth/emp-agmpc/emp-agmpc/flexible_input_output.h:654-666 | masked outputs off the returned labels; fails exactly when a label is neither of the two |
| `FlexIo.Output` | mpcauth/emp-agmpc/emp-agmpc/flexible_input_output.h:672-823 | verdict of the check, plaintext results and authenticated result shares |
| `FlexIo.ResultShare` | mpcauth/emp-agmpc/emp-agmpc/flexible_input_output.h:751-781 | the two branches for an authenticated output add the masked bit as a public constant |
| `Exchange.Inputs.InputCorrect` | mpcauth/emp-agmpc/emp-agmpc/flexible_input_output.h:89-522 | every party ends `input` with the true input bit XOR the combined wire mask, for any mix of the four kinds |
| `Exchange.Inputs.InputAgreement` | mpcauth/emp-agmpc/emp-agmpc/flexible_input_output.h:497-509 | two parties agree on a masked bit if and only if they did not assign different values to a public input |
| `Exchange.PublicBitsDiffer` | mpcauth/emp-agmpc/emp-agmpc/flexible_input_output.h:497-509 | a two-party honest run that no check stops and that ends with different masked bits for one public wire |
| `Exchange.Inputs.InputAccepted` | mpcauth/emp-agmpc/emp-agmpc/flexible_input_output.h:161-495 | no check of an honest run fails |
| `Exchange.Inputs.OnlyForKind` | mpcauth/emp-agmpc/emp-agmpc/flexible_input_output.h:116-131 | what a party receives about an input is empty in every round that is not for that input's assignment and that party |
| `Exchange.Inputs.AuthCheckExact` | mpcauth/emp-agmpc/emp-agmpc/flexible_input_output.h:247-353 | whatever shares are handed in, the check of assignment -1 fails if and only if one of their MACs is wrong |
| `Exchange.Outputs.LabelsDecode` | mpcauth/emp-agmpc/emp-agmpc/flexible_input_output.h:646-667 | every garbler decodes exactly party 1's masked bits |
| `Exchange.Outputs.OutputAccepted` | mpcauth/emp-agmpc/emp-agmpc/flexible_input_output.h:723-746 | no honest output opening is rejected |
| `Exchange.Outputs.PlaintextCorrect` | mpcauth/emp-agmpc/emp-agmpc/flexible_input_output.h:810-822 | a public output, or one's own, is read in the clear |
| `Exchange.Outputs.OnlyForReceiver` | mpcauth/emp-agmpc/emp-agmpc/flexible_input_output.h:679-695 | a party to which an output is not assigned receives no mask share of it and no bit, and result shares of outputs not assigned -1 are zero |
| `Exchange.Outputs.SharesCorrect` | mpcauth/emp-agmpc/emp-agmpc/flexible_input_output.h:748-781 | an authenticated output is an authenticated sharing of the output bit under the same Deltas |
| `Protocol.Online.OnlineCorrect` | mpcauth/emp-agmpc/emp-agmpc/mpc.h:615-677 | an honest online run: nobody aborts, receivers read the plain circuit's bits, authenticated outputs share them |
| `Protocol.Composition` | mpcauth/emp-agmpc/emp-agmpc/flexible_input_output.h:247-367 | authenticated outputs fed as inputs of a second run under the same Deltas are accepted and computed on |
| `Protocol.FullComposition` | mpcauth/emp-agmpc/emp-agmpc/flexible_input_output.h:748-781 | feeding all outputs in order computes the composition of the two circuits |
| `ABitRun.ComputeAll` | mpcauth/emp-agmpc/emp-agmpc/abitmp.h:35-92 | any number of `compute` calls of all parties on one IKNP instance per ordered pair: under one Delta per party, the same in all its pairs, every bit vector comes out with keys and MACs that are the rows of the seeds at the counter of the call, and correlated |
| `ABitRun.CollectedFromOts` | mpcauth/emp-agmpc/emp-agmpc/abitmp.h:75-92 | keys from the pairs in which a party sends and MACs from those in which it receives are one correlated OT per ordered pair |
| `ABitRun.BitsAuthenticated` | mpcauth/emp-agmpc/emp-agmpc/abitmp.h:75-92 | one correlated OT per ordered pair gives authenticated columns |
| `EndToEnd.PreprocessingCorrect` | mpcauth/emp-agmpc/emp-agmpc/mpc.h:112-133 | the function-independent phase delivers authenticated masks and correct authenticated triples |
| `EndToEnd.ChecksPass` | mpcauth/emp-agmpc/emp-agmpc/mpc.h:112-133 | both calls of `check2` accept at every party, and no coins make the zero-sum test stop |
| `EndToEnd.WholeProtocol` | mpcauth/emp-agmpc/emp-agmpc/mpc.h:112-328 | from pairwise OTs to outputs: an honest run of all phases stops in no check of preprocessing, `check1` aside, and in none after it, and computes the plain circuit |
| `WholeRun.Prepare` | mpcauth/emp-agmpc/emp-agmpc/mpc.h:112-133 | `function_independent` of all parties from base OTs, with every verdict of `compute` and `check2` in `abort`: it is never raised, wire bits and raw bits are the given random ones under the given OTs, and the triples are those of `compute` on the raw bits |
| `WholeRun.RunProtocol` | mpcauth/emp-agmpc/emp-agmpc/mpc.h:112-328 | every phase as one program of all parties, from base OTs to results: no check of any phase, `check1` aside, stops anybody, receivers and nobody else read the plain circuit's bits, authenticated outputs share them, and all results are those of the returned runs of preprocessing and of the online phase on the given randomness |
| `LeakyAnd.GarbleSlot` | mpcauth/emp-agmpc/emp-agmpc/fpremp.h:328-355 | each slot of the byte holds pad, masked product and mask |
| `LeakyAnd.HalfProduct` | mpcauth/emp-agmpc/emp-agmpc/fpremp.h:356-363 | `evaluate` of `garble` yields the product of the two parties' bit sums, masked |
| `Pads.HashesEqual` | mpcauth/emp-agmpc/emp-agmpc/fpremp.h:411-428 | without collisions of `H(x) ^ x`, two hashes are equal if and only if their inputs differ by as much as their numbers |
| `Pads.HashesByNumber` | mpcauth/emp-agmpc/emp-agmpc/fpremp.h:411-428 | under one key, hashes are equal if and only if their numbers are |
| `Pads.SlotOpensOnly` | mpcauth/emp-agmpc/emp-agmpc/fpremp.h:328-363 | a slot read with any two blocks shows the masked product if and only if their hash bits add up to those of the slot's keys |
| `LeakyAnd.GarbleLoop` | mpcauth/emp-agmpc/emp-agmpc/fpremp.h:77-86 | the garbler's bytes and product shares for all triples |
| `LeakyAnd.EvaluateLoop` | mpcauth/emp-agmpc/emp-agmpc/fpremp.h:87-95 | the evaluator's product shares |
| `LeakyAnd.FinishProducts` | mpcauth/emp-agmpc/emp-agmpc/fpremp.h:99-107 | z shares and the correction bits |
| `LeakyAnd.ApplyCorrections` | mpcauth/emp-agmpc/emp-agmpc/fpremp.h:118-126 | keys moved by the received corrections |
| `LeakyAnd.Leaky.PairCancels` | mpcauth/emp-agmpc/emp-agmpc/fpremp.h:76-97 | the two parties' shares of a pair XOR to both cross products |
| `LeakyAnd.Leaky.LeakyAndCorrect` | mpcauth/emp-agmpc/emp-agmpc/fpremp.h:76-128 | the XOR of all z shares is the AND of the sums, and corrections keep every MAC, for any number of parties |
| `ZeroSum.PhiTransfer` | mpcauth/emp-agmpc/emp-agmpc/fpremp.h:144-168 | the pairwise transfer leaves shares of `x_j * phi_i` |
| `Pads.PhiHidden` | mpcauth/emp-agmpc/emp-agmpc/fpremp.h:147-157 | the message shows `phi` if and only if the two keys differ by as much as the two numbers |
| `Pads.PhiOpensOnly` | mpcauth/emp-agmpc/emp-agmpc/fpremp.h:144-168 | the transfer ends in the right block if and only if the receiver hashes a block that mixes like the key of its bit |
| `ZeroSum.ComputePhi` | mpcauth/emp-agmpc/emp-agmpc/fpremp.h:135-142 | phi from keys, MACs and the own bit |
| `ZeroSum.ComputeCheck` | mpcauth/emp-agmpc/emp-agmpc/fpremp.h:178-188 | the summand of one party |
| `ZeroSum.Check.ZeroSumIdentity` | mpcauth/emp-agmpc/emp-agmpc/fpremp.h:134-188 | the summands of all parties XOR to zero for a correct triple and to the XOR of all Deltas otherwise |
| `ZeroSum.InProdLoop` | mpcauth/emp-agmpc/emp-agmpc/helper.h:17-24 | masked inner product |
| `ZeroSum.CombinationExact` | mpcauth/emp-agmpc/emp-agmpc/fpremp.h:197-229 | any random combination opens to the XOR of the Deltas if it selects an odd number of wrong triples, to zero otherwise |
| `ZeroSum.AndCheck` | mpcauth/emp-agmpc/emp-agmpc/fpremp.h:226-229 | the final comparison raises exactly when some combination is not zero |
| `Commitments.VerifyOpened` | mpcauth/emp-agmpc/emp-agmpc/fpremp.h:212-224 | a party raises exactly when some opened vector does not hash to the digest received before |
| `Commitments.RefutedExact` | mpcauth/emp-agmpc/emp-agmpc/fpremp.h:212-224 | under a binding hash an opening is refused if and only if it is not what was committed to |
| `Commitments.SampleRandom` | mpcauth/emp-agmpc/emp-agmpc/helper.h:120-157 | all parties obtain the XOR of everybody's committed block, and no honest opening is refused |
| `AndCheckRun.KeyLoop` | mpcauth/emp-agmpc/emp-agmpc/fpremp.h:146-158 | the key side of a pair: `tKEYphi` and the block sent for every triple |
| `AndCheckRun.MacLoop` | mpcauth/emp-agmpc/emp-agmpc/fpremp.h:159-167 | the MAC side of a pair: `tMACphi` from the received blocks |
| `AndCheckRun.Test.SummandIs` | mpcauth/emp-agmpc/emp-agmpc/fpremp.h:144-188 | what the exchange and the accumulation leave at a party is its summand of the zero-sum identity |
| `AndCheckRun.Test.SelectedSum` | mpcauth/emp-agmpc/emp-agmpc/fpremp.h:194-229 | a combination of everybody's blocks is the XOR of all Deltas if it selects oddly many bad triples, zero otherwise |
| `AndCheckRun.AndCheckAll` | mpcauth/emp-agmpc/emp-agmpc/fpremp.h:134-229 | the zero-sum test as a program of all parties, with coin toss and commitments, on any shares: it stops if and only if a combination drawn from the tossed seed is not zero |
| `AndCheckRun.UnevenIsCaught` | mpcauth/emp-agmpc/emp-agmpc/fpremp.h:134-229 | on authenticated triples a combination is not zero if and only if it selects oddly many bad triples and the Deltas do not cancel |
| `AndCheckRun.NothingCaught` | mpcauth/emp-agmpc/emp-agmpc/fpremp.h:194-229 | with AND triples only, no coins make it stop |
| `Preprocess.LeakyRun.LeakyTriple` | mpcauth/emp-agmpc/emp-agmpc/fpremp.h:76-128 | every leaky triple of an honest run is an authenticated AND triple |
| `Preprocess.Triples.TripleCorrect` | mpcauth/emp-agmpc/emp-agmpc/fpremp.h:252-300 | every triple output by preprocessing is an authenticated AND triple |
| `Preprocess.Triples.FromRaw` | mpcauth/emp-agmpc/emp-agmpc/fpremp.h:252-271 | the first two shares of a triple are the sum and the first of the raw shares in the slots of its bucket |
| `Buckets.BucketSize` | mpcauth/emp-agmpc/emp-agmpc/fpremp.h:40-48 | 3 from 279999 triples on, 5 below 3099, 4 between: the rounding to even batches moves both thresholds by one |
| `Buckets.Shuffle` | mpcauth/emp-agmpc/emp-agmpc/fpremp.h:239-249 | `location` is the order the random integers give, exchange by exchange with remainders that may be negative, and a permutation |
| `Buckets.EveryOrder` | mpcauth/emp-agmpc/emp-agmpc/fpremp.h:239-249 | every permutation is the order of some random integers |
| `Buckets.UsedOnce` | mpcauth/emp-agmpc/emp-agmpc/fpremp.h:243-271 | every leaky triple is used in exactly one bucket slot |
| `Buckets.SumBucket` | mpcauth/emp-agmpc/emp-agmpc/fpremp.h:252-271 | sums and differences of one bucket |
| `Buckets.SumBit` | mpcauth/emp-agmpc/emp-agmpc/fpremp.h:257-271 | the bit of a sum is the XOR of its slots' bits |
| `Buckets.SumKey` | mpcauth/emp-agmpc/emp-agmpc/fpremp.h:257-265 | so is every key |
| `Buckets.SumMac` | mpcauth/emp-agmpc/emp-agmpc/fpremp.h:257-265 | so is every MAC |
| `Buckets.CorrectBucket` | mpcauth/emp-agmpc/emp-agmpc/fpremp.h:288-300 | the correction by the opened differences |
| `Buckets.CorrectedBit` | mpcauth/emp-agmpc/emp-agmpc/fpremp.h:295-299 | the corrected bit is the sum and the `x` bit of every slot whose opened difference is set |
| `Buckets.CorrectedKey` | mpcauth/emp-agmpc/emp-agmpc/fpremp.h:289-294 | so is every key |
| `Buckets.CorrectedMac` | mpcauth/emp-agmpc/emp-agmpc/fpremp.h:289-294 | so is every MAC |
| `Buckets.Bucket.BucketCorrect` | mpcauth/emp-agmpc/emp-agmpc/fpremp.h:252-300 | correct leaky triples combine to a correct authenticated triple |
| `PreprocessRun.Seedbed.LeakyAll` | mpcauth/emp-agmpc/emp-agmpc/fpremp.h:76-128 | the leaky AND of all parties as a program: everybody's pairs, replaced bits and moved keys |
| `PreprocessRun.CombineAll` | mpcauth/emp-agmpc/emp-agmpc/fpremp.h:252-300 | all buckets at all parties: opened differences and combined triples |
| `PreprocessRun.CheckTails` | mpcauth/emp-agmpc/emp-agmpc/abitmp.h:201-322 | `check2` of all parties on any shares: an abort if and only if the MACs shown to some party for some check bit do not add up to its keys |
| `PreprocessRun.CheckLeaky` | mpcauth/emp-agmpc/emp-agmpc/fpremp.h:132-229 | `check2` and the zero-sum test of all parties on any leaky triples, with their exact verdict |
| `PreprocessRun.NeverStopped` | mpcauth/emp-agmpc/emp-agmpc/fpremp.h:132-229 | from authenticated bits neither stops, whatever the coins |
| `PreprocessRun.Compute` | mpcauth/emp-agmpc/emp-agmpc/fpremp.h:49-300 | `compute` as a program of all parties on any raw shares: every step is run, the first two shares of every triple are the XOR of bits, keys and MACs, and the first, of the raw shares in the slots that the tossed seed gives its bucket, and it stops if and only if one of its checks does |
| `PreprocessRun.ComputeCorrect` | mpcauth/emp-agmpc/emp-agmpc/fpremp.h:49-300 | on authenticated bits it never stops, and every output triple is an authenticated AND triple |
| `ABit.Commit` | mpcauth/emp-agmpc/emp-agmpc/abitmp.h:219-233 | both key sums of every check bit, their digests, and the digest over bits and MACs in party order |
| `ABit.OpenKeys` | mpcauth/emp-agmpc/emp-agmpc/abitmp.h:275-292 | flags from the others' bits, and the block opened for each |
| `ABit.CheckOpening` | mpcauth/emp-agmpc/emp-agmpc/abitmp.h:261-273 | raised exactly when the opened bits and MACs do not hash to the digest received before |
| `ABit.CheckKeys` | mpcauth/emp-agmpc/emp-agmpc/abitmp.h:293-310 | raised exactly when some opened block does not hash to the digest its flag names |
| `ABit.VerifyKeys` | mpcauth/emp-agmpc/emp-agmpc/abitmp.h:312-322 | cheat is raised exactly when some opened key sum is not the XOR of the MACs |
| `ABit.Check2.KeySum` | mpcauth/emp-agmpc/emp-agmpc/abitmp.h:275-320 | the opened key sum equals the XOR of all MACs held against that party |
| `ABit.Check2.Check2Complete` | mpcauth/emp-agmpc/emp-agmpc/abitmp.h:201-322 | with valid authenticated bits nobody raises `commitment 1`, `commitments 2` or `cheat aShare` |
| `ABit.Check2All` | mpcauth/emp-agmpc/emp-agmpc/abitmp.h:201-322 | `check2` as a program of all parties: an honest record of commitments, openings and key sums, and an abort exactly when some party does not accept it |
| `ABit.Check2Exact` | mpcauth/emp-agmpc/emp-agmpc/abitmp.h:201-322 | honest parties on any shares: somebody stops if and only if, for some check bit, the MACs shown to some party do not add up to its keys and its Delta for the others' bits |
| `ABit.TamperedMac` | mpcauth/emp-agmpc/emp-agmpc/abitmp.h:312-322 | one MAC changed by a block makes the sums wrong if and only if the block is not zero |
| `ABit.DigestBinds` | mpcauth/emp-agmpc/emp-agmpc/abitmp.h:228-233 | under a binding hash the digest determines the bits and every MAC vector |
| `ABit.BadKeyExact` | mpcauth/emp-agmpc/emp-agmpc/abitmp.h:293-310 | an opened key sum is refused if and only if it is not the committed one its flag names |
| `Iknp.SendPreBlock` | mpcauth/emp-ot/emp-ot/iknp.h:91-102 | rows of one block as the transposed, selected streams |
| `Iknp.RecvPreBlock` | mpcauth/emp-ot/emp-ot/iknp.h:136-149 | rows and messages of one block |
| `Iknp.Sender.SendPre` | mpcauth/emp-ot/emp-ot/iknp.h:76-89 | whole blocks, remainder and, in malicious mode, 256 extra rows; counters advanced by what was drawn |
| `Iknp.Receiver.RecvPre` | mpcauth/emp-ot/emp-ot/iknp.h:104-135 | the same on the receiving side, with zero-padded choice bits |
| `Iknp.Setup.RowCorrelated` | mpcauth/emp-ot/emp-ot/iknp.h:91-149 | with equal counters each row satisfies `recv = send ^ r * Delta` |
| `Iknp.SendAndRecv` | mpcauth/emp-ot/emp-ot/iknp.h:151-165 | one `send_cot` and `recv_cot` in either mode: counters advance together, all rows are those of the seeds and correlated, and the check accepts |
| `Iknp.Calls` | mpcauth/emp-ot/emp-ot/iknp.h:76-165 | any sequence of calls of any lengths in either mode stays in lockstep, every call has the rows of the seeds at its counter, correlated, and no check fails |
| `Iknp.SeedsDetermine` | mpcauth/emp-ot/emp-ot/iknp.h:91-149 | seeds, counter and choice bits determine all rows |
| `Iknp.MulCoefficient` | mpcauth/emp-tool/emp-tool/utils/f2k.h:9-24 | coefficient `i` of the product is one if and only if `i` is the sum of a position of each factor in an odd number of ways |
| `Iknp.MulMonomials` | mpcauth/emp-tool/emp-tool/utils/f2k.h:9-24 | the product of two monomials |
| `Iknp.MulNonzero` | mpcauth/emp-tool/emp-tool/utils/f2k.h:9-24 | a product is zero if and only if a factor is |
| `Iknp.RecvCheck` | mpcauth/emp-ot/emp-ot/iknp.h:205-244 | what the receiver sends in the consistency check |
| `Iknp.SendCheck` | mpcauth/emp-ot/emp-ot/iknp.h:169-204 | the sender's verdict |
| `Iknp.CheckComplete` | mpcauth/emp-ot/emp-ot/iknp.h:169-244 | `q ^ x*Delta = t` over all chunks, the remainder and the extra rows, for every length |
| `Iknp.CheckExact` | mpcauth/emp-ot/emp-ot/iknp.h:169-244 | whatever the rows are, the check passes if and only if the errors of all rows, weighted by their coefficients, cancel |
| `Iknp.ChangedRow` | mpcauth/emp-ot/emp-ot/iknp.h:169-244 | one changed row is noticed if and only if its coefficient is not zero |
| `Iknp.ChangedExtra` | mpcauth/emp-ot/emp-ot/iknp.h:191-196 | the same for an extra row, whose coefficient is drawn after whole chunks for all rows |
| `Iknp.ChangedClaim` | mpcauth/emp-ot/emp-ot/iknp.h:198-203 | a claimed `x` is accepted if and only if it is the right one, when Delta is not zero |
| `Iknp.BothChecks` | mpcauth/emp-ot/emp-ot/iknp.h:169-244 | both sides of the check as a program, with its exact verdict on any rows |
| `GgmExpand.TwoKey.Expand1to2` | mpcauth/emp-ot/emp-ot/ferret/twokeyprp.h:16-23 | both children of the root |
| `GgmExpand.TwoKey.Expand2to4` | mpcauth/emp-ot/emp-ot/ferret/twokeyprp.h:25-39 | four children of the original two parents although they overwrite them |
| `GgmExpand.TwoKey.Expand4to8` | mpcauth/emp-ot/emp-ot/ferret/twokeyprp.h:40-62 | eight children of the original four parents, aliased or not, nothing else changed |
| `GgmExpand.TwoKey.ExpandLevel` | mpcauth/emp-ot/emp-ot/ferret/spcot_sender.h:70-85 | the descending in-place loop leaves the children of the original level and both accumulators |
| `Ggm.Generate` | mpcauth/emp-ot/emp-ot/ferret/spcot_sender.h:61-86 | the array ends as the leaves `Node(h, p)`, the fold of the child functions over the bits of `p`, with all messages |
| `Ggm.NodesDiffer` | mpcauth/emp-ot/emp-ot/ferret/spcot_sender.h:61-86 | if children keep apart, nodes of a level are equal if and only if their positions are |
| `Ggm.Reconstruct` | mpcauth/emp-ot/emp-ot/ferret/spcot_recver.h:66-77 | the in-place reconstruction computes `Rebuilt`, layer by layer |
| `Ggm.FillLayer` | mpcauth/emp-ot/emp-ot/ferret/spcot_recver.h:79-87 | one node becomes the XOR of its side and the received sum |
| `Spcot.MessageIsSideTotal` | mpcauth/emp-ot/emp-ot/ferret/spcot_sender.h:61-86 | `ot_msg_0/1[h]` is the XOR of all left (right) nodes of its level |
| `Spcot.LayerInvariant` | mpcauth/emp-ot/emp-ot/ferret/spcot_recver.h:66-95 | every rebuilt layer equals the sender's except at the punctured node |
| `Spcot.GetIndex` | mpcauth/emp-ot/emp-ot/ferret/spcot_recver.h:33-41 | the punctured leaf, one negated choice bit per level |
| `Spcot.SenderCompute` | mpcauth/emp-ot/emp-ot/ferret/spcot_sender.h:37-59 | masked leaves, messages and masked secret |
| `Spcot.RecverCompute` | mpcauth/emp-ot/emp-ot/ferret/spcot_recver.h:53-64 | the receiver's leaves |
| `Spcot.SinglePoint` | mpcauth/emp-ot/emp-ot/ferret/spcot_recver.h:53-64 | for every depth of at least 3 and all choice bits: equal leaves except at `get_index()`, where they differ by the secret |
| `PreOt.OTPre.SendPre` | mpcauth/emp-ot/emp-ot/ferret/preot.h:38-43 | pads for both choices |
| `PreOt.OTPre.RecvPre` | mpcauth/emp-ot/emp-ot/ferret/preot.h:50-54 | choice bits and pads |
| `PreOt.OTPre.ChoicesRecver` | mpcauth/emp-ot/emp-ot/ferret/preot.h:60-63 | the bits of the next batch |
| `PreOt.OTPre.Send` | mpcauth/emp-ot/emp-ot/ferret/preot.h:69-78 | both messages of a batch under their pads |
| `PreOt.OTPre.Recv` | mpcauth/emp-ot/emp-ot/ferret/preot.h:80-89 | the selected pad removed |
| `PreOt.OtCorrect` | mpcauth/emp-ot/emp-ot/ferret/preot.h:38-89 | from correlations the receiver obtains exactly the messages its choice bits name |
| `PreOt.OtherHidden` | mpcauth/emp-ot/emp-ot/ferret/preot.h:38-89 | under its own pad the receiver reads the message it did not choose if and only if both pads are equal |
| `PreOt.CotGenCorrect` | mpcauth/emp-ot/emp-ot/ferret/base_cot.h:53-72 | masking turns an IKNP correlation into one whose choice bit is its own least significant bit |
| `PreOt.SenderCotGen` | mpcauth/emp-ot/emp-ot/ferret/base_cot.h:54-58 | the sender's masking loop |
| `PreOt.RecverCotGen` | mpcauth/emp-ot/emp-ot/ferret/base_cot.h:59-71 | the receiver's masking loop |
| `PreOt.CotXor` | mpcauth/emp-ot/emp-ot/ferret/lpn_f2.h:42-54 | correlations are closed under XOR |
| `PreOt.OnlineSender` | mpcauth/emp-ot/emp-ot/ferret/ferret_cot.hpp:242-250 | the sender's derandomisation |
| `PreOt.OnlineRecver` | mpcauth/emp-ot/emp-ot/ferret/ferret_cot.hpp:252-260 | the correction bits |
| `PreOt.Derandomised` | mpcauth/emp-ot/emp-ot/ferret/ferret_cot.hpp:242-272 | `t = q ^ b*Delta` for the chosen `b` |
| `Lpn.MaskFor` | mpcauth/emp-ot/emp-ot/ferret/lpn_f2.h:24-28 | the smallest all-ones number not below `k`, and below `2k` |
| `Lpn.Fold4` | mpcauth/emp-ot/emp-ot/ferret/lpn_f2.h:39-41 | the masked index, reduced once, lies in `[0, k)` |
| `Lpn.FoldIs` | mpcauth/emp-ot/emp-ot/ferret/lpn_f2.h:39-41 | the conditional subtraction is a second remainder |
| `Lpn.Code.RowsInRange` | mpcauth/emp-ot/emp-ot/ferret/lpn_f2.h:31-64 | every index read by any row of any task lies in `[0, k)` |
| `Lpn.Code.RowsAre` | mpcauth/emp-ot/emp-ot/ferret/lpn_f2.h:31-82 | closed form of every index: row `x` of a group of four reads words `x % 4 * d` to `x % 4 * d + d` of the group's first row, the last rows of a task read their own |
| `Lpn.Code.WordsOnce` | mpcauth/emp-ot/emp-ot/ferret/lpn_f2.h:37-43 | each of the `4 * d` words of a group belongs to exactly one place of one row |
| `Lpn.Code.OneWord` | mpcauth/emp-ot/emp-ot/ferret/lpn_f2.h:37-43 | two codes that differ in one word have different indices exactly at the place of that word |
| `Lpn.Compute4` | mpcauth/emp-ot/emp-ot/ferret/lpn_f2.h:31-44 | four rows encoded, all others untouched |
| `Lpn.Task` | mpcauth/emp-ot/emp-ot/ferret/lpn_f2.h:57-64 | one thread's range encoded, all others untouched |
| `Lpn.Compute` | mpcauth/emp-ot/emp-ot/ferret/lpn_f2.h:66-82 | all ranges encoded in closed form; rows from `threads * (n / threads)` on are left as they are |
| `Mpcot.BinCorrect` | mpcauth/emp-ot/emp-ot/ferret/mpcot_reg.h:151-166 | one bin: equal but for Delta at the receiver's position |
| `Mpcot.InitSender` | mpcauth/emp-ot/emp-ot/ferret/mpcot_reg.h:88-95 | the sender's batches, one per tree, and the reset |
| `Mpcot.InitRecver` | mpcauth/emp-ot/emp-ot/ferret/mpcot_reg.h:97-105 | choice bits and positions of every tree |
| `Mpcot.ExecParallelSender` | mpcauth/emp-ot/emp-ot/ferret/mpcot_reg.h:107-127 | every tree exactly once and in order for any thread count |
| `Mpcot.ExecParallelRecver` | mpcauth/emp-ot/emp-ot/ferret/mpcot_reg.h:129-149 | the receiving side |
| `Mpcot.MpcotCorrect` | mpcauth/emp-ot/emp-ot/ferret/mpcot_reg.h:63-86 | all entries of the two vectors are correlations, and there are `t * 2^log_bin_sz` of them |
| `Extension.EncodingKeepsCots` | mpcauth/emp-ot/emp-ot/ferret/lpn_f2.h:66-82 | equal rows on both sides keep every correlation, encoded or not |
| `Extension.ExtendSender` | mpcauth/emp-ot/emp-ot/ferret/ferret_cot.hpp:56-64 | the sender's extension |
| `Extension.ExtendRecver` | mpcauth/emp-ot/emp-ot/ferret/ferret_cot.hpp:56-64 | the receiver's extension |
| `Extension.ExtendCorrect` | mpcauth/emp-ot/emp-ot/ferret/ferret_cot.hpp:56-64 | from correlated inputs, all outputs of an extension are correlated |
| `Extension.ExtendTogether` | mpcauth/emp-ot/emp-ot/ferret/ferret_cot.hpp:66-75 | executable two-party extension: both parties' programs exchanging only the sender's messages output their own functions of their inputs, which are correlations |
| `ExtensionForm.EncodedBit` | mpcauth/emp-ot/emp-ot/ferret/lpn_f2.h:66-82 | every bit of the encoded vector: the old bit, flipped by the inputs the row's words name |
| `ExtensionForm.SenderBit` | mpcauth/emp-ot/emp-ot/ferret/ferret_cot.hpp:56-64 | every bit of every block of the sender: the leaf of its tree without the low bit, and the inputs its row names |
| `Endpoint.End.Run` | mpcauth/emp-ot/emp-ot/ferret/ferret_cot.hpp:66-72 | one party's extension: blocks and messages as functions of `ot_pre_data` |
| `Endpoint.StepCots` | mpcauth/emp-ot/emp-ot/ferret/ferret_cot.hpp:66-72 | from correlated pre-data and delivered messages, the two parties' blocks are correlated |
| `Endpoint.RunCorrect` | mpcauth/emp-ot/emp-ot/ferret/ferret_cot.hpp:66-75 | over any number of extensions, each seeded by the one before, all pre-data and every block are correlations under the same Delta |
| `ExtensionForm.AliceBit` | mpcauth/emp-ot/emp-ot/ferret/ferret_cot.hpp:56-73 | extension `e` of the sender from its own seeds, its own words and `ot_pre_data` from place 128 on |
| `ExtensionForm.PreNextIs` | mpcauth/emp-ot/emp-ot/ferret/ferret_cot.hpp:73 | the last blocks of an extension become the front of the next `ot_pre_data`, the rest stays |
| `FerretPair.Setup` | mpcauth/emp-ot/emp-ot/ferret/ferret_cot.hpp:115-131 | `setup` of both parties from base OT: the first `ot_pre_data` is the smaller extension of the masked rows of the seeds, and correlated |
| `FerretStream.ShippedParameters` | mpcauth/emp-ot/emp-ot/ferret/constants.h:11-27 | the three shipped parameter sets pass the check and satisfy `0 < M <= ot_limit`, with `ot_limit = buf_sz()` |
| `FerretStream.PlanFits` | mpcauth/emp-ot/emp-ot/ferret/ferret_cot.hpp:155-158 | the rounds cover the need exactly, leave room for each in-place overhang and end in a nonempty portion |
| `FerretStream.OverrunExact` | mpcauth/emp-ot/emp-ot/ferret/ferret_cot.hpp:155-173 | the blocks copied for a request exceed its need, and overrun the caller's buffer, if and only if the need is at most `M - ot_limit`; otherwise they are exactly the need |
| `FerretStream.RoundsExact` | mpcauth/emp-ot/emp-ot/ferret/ferret_cot.hpp:155-173 | some request overruns the caller's buffer if and only if `M > ot_limit` |
| `Ferret.FerretCot.constructor` | mpcauth/emp-ot/emp-ot/ferret/ferret_cot.hpp:43-54 | nothing buffered after setup |
| `Ferret.FerretCot.RunOnce` | mpcauth/emp-ot/emp-ot/ferret/ferret_cot.hpp:67-72 | the next extension is computed from the object's own `ot_pre_data` |
| `Ferret.FerretCot.SeedNext` | mpcauth/emp-ot/emp-ot/ferret/ferret_cot.hpp:73 | the blocks kept back become `ot_pre_data`, which is then the seed of the next extension |
| `Ferret.FerretCot.ExtendInto` | mpcauth/emp-ot/emp-ot/ferret/ferret_cot.hpp:66-75 | all blocks into the caller's memory, pre-data copied from behind `ot_limit` |
| `Ferret.FerretCot.Rcot` | mpcauth/emp-ot/emp-ot/ferret/ferret_cot.hpp:136-174 | exactly the next `num` blocks, nothing behind them written, and the state that remains |
| `Ferret.FerretCot.RcotInplace` | mpcauth/emp-ot/emp-ot/ferret/ferret_cot.hpp:220-240 | accepted exactly for sizes `M + r*ot_limit`; whole extensions in place, the buffer untouched, nothing out of bounds |
| `FerretStream.Source.NeedSuffices` | mpcauth/emp-ot/emp-ot/ferret/ferret_cot.hpp:214-218 | the space computed for `k` yields at least `k` correlations and, from one on, fewer than `k + ot_limit`; it is accepted for every `k` except zero with `ot_limit = 1` |
| `FerretStream.Source.ServedOnce` | mpcauth/emp-ot/emp-ot/ferret/ferret_cot.hpp:136-174 | a request takes distinct positions that were available and never become available again |
| `FerretStream.Source.InPlaceOnce` | mpcauth/emp-ot/emp-ot/ferret/ferret_cot.hpp:220-240 | the same for in-place requests |
| `Ferret.FerretCot.Serve` | mpcauth/emp-ot/emp-ot/ferret/ferret_cot.hpp:136-240 | over any sequence of both kinds of requests every block is that of the stream at the position asked for, and no correlation is handed out twice |
| `FerretPair.RcotCorrelated` | mpcauth/emp-ot/emp-ot/ferret/ferret_cot.hpp:262-272 | equal requests from equal states are answered with correlations |
| `FerretPair.LinkedEnds` | mpcauth/emp-ot/emp-ot/ferret/ferret_cot.hpp:66-75 | two linked parties have correlated extensions and correlated pre-data, and the receiver reads what the sender sends, for every extension |
| `FerretPair.JoinedNow` | mpcauth/emp-ot/emp-ot/ferret/ferret_cot.hpp:66-75 | at any time the two objects' `ot_pre_data` is correlated, and the messages sent so far are those received |
| `FerretPair.ServeBoth` | mpcauth/emp-ot/emp-ot/ferret/ferret_cot.hpp:136-240 | any sequence of requests of both kinds to both objects: the answers are correlations, at the pairwise distinct stream positions the requests ask for |
| `FerretPair.Connect` | mpcauth/emp-ot/emp-ot/ferret/ferret_cot.hpp:76-135 | two objects built from base OT, in step and with correlated pre-data |
| `FerretPair.Session` | mpcauth/emp-ot/emp-ot/ferret/ferret_cot.hpp:76-272 | Ferret COT as a program of both parties from base OT on: no check fails, answers are the blocks of the two ends' streams at the positions asked for, all correlated, and the chosen bits are met on the receiver's next blocks |
| `FerretPair.Derandomise` | mpcauth/emp-ot/emp-ot/ferret/ferret_cot.hpp:242-260 | both sides of the derandomisation together: correlations on the chosen bits |
| `FerretPair.ChosenCots` | mpcauth/emp-ot/emp-ot/ferret/ferret_cot.hpp:262-272 | `send_cot` and `recv_cot` with two objects: `t = q ^ b*Delta` for all chosen bits, and the objects stay in step |
| `ShareBuilder.ToXorShares` | mpcauth/utils/authshare_builder.h:75-93 | vector 0 is the input XOR all random vectors |
| `ShareBuilder.AuthShareBuilder.GenAuthShare` | mpcauth/utils/authshare_builder.h:47-73 | one issued share per bit appended for every party, from shares that XOR to the bits and are the random ones from the second on |
| `ShareBuilder.ProvisionCorrect` | mpcauth/utils/authshare_builder.h:47-93 | the issued shares of a bit are an authenticated column that opens to it |
| `ShareBuilder.ProvisionedShares` | mpcauth/utils/authshare_builder.h:47-177 | provisioned shares survive serialisation and Base64, open to the input, and every MAC is accepted |
| `ShareCodec.BlockRoundTrip` | mpcauth/utils/authshare_builder.h:102-107 | sixteen bytes determine a 128-bit block |
| `ShareCodec.BlockByte` | mpcauth/utils/authshare_builder.h:102-107 | bit `j` of byte `k` of a block is its bit `8k + j` |
| `ShareCodec.ShareByte` | mpcauth/utils/authshare_builder.h:95-117 | byte layout of a share: the bit, sixteen bytes for every key, then for every MAC |
| `ShareCodec.VectorByte` | mpcauth/utils/authshare_builder.h:140-156 | byte layout of a vector: the count, then the shares |
| `ShareCodec.CountByte` | mpcauth/utils/authshare_builder.h:144-146 | the count, least significant byte first |
| `ShareCodec.SerializeShare` | mpcauth/utils/authshare_builder.h:95-117 | bytes of one share |
| `ShareCodec.DeserializeShare` | mpcauth/utils/authshare_builder.h:119-138 | one share and the advanced offset |
| `ShareCodec.Serialize` | mpcauth/utils/authshare_builder.h:140-156 | count and shares |
| `ShareCodec.Deserialize` | mpcauth/utils/authshare_builder.h:158-177 | what the buffer holds, or nothing where the program would read past its end |
| `ShareCodec.CodecRoundTrip` | mpcauth/utils/authshare_builder.h:140-177 | deserialising what was serialised returns the same vector |
| `ShareCodec.TextRoundTrip` | mpcauth/utils/authshare_builder.h:140-177 | the same through Base64 |
| `Base64.Base64Encode` | mpcauth/utils/base64.cpp:14-53 | the loop computes `Encode`, section 4 of RFC 4648 |
| `Base64.Base64Decode` | mpcauth/utils/base64.cpp:55-94 | the loop computes `Decode`, stopping at the first foreign character |
| `Base64.FindChar` | mpcauth/utils/base64.cpp:4-7 | the alphabet has no character twice |
| `Base64.AlphabetIs` | mpcauth/utils/base64.cpp:4-7 | the 64 characters in order |
| `Base64.SextetsValue` | mpcauth/utils/base64.cpp:22-25 | the four groups are the digits of the three bytes to base 64 |
| `Base64.EncodeAt` | mpcauth/utils/base64.cpp:14-53 | character `4i + j` stands for group `j` of bytes `3i` to `3i + 2` |
| `Base64.EncodeEnd` | mpcauth/utils/base64.cpp:33-50 | the last four characters for a last group of one or two bytes |
| `Base64.RoundTrip` | mpcauth/utils/base64.cpp:14-94 | decoding an encoding returns the bytes, for every length |
| `Base64.EncodedLength` | mpcauth/utils/base64.cpp:14-53 | four characters per started group of three bytes |

## Conditions the proofs need

- `Delta_p` is not zero for the decoding branches; `LSB(Delta) = 1` for Ferret; `0 < M <= ot_limit` for the buffer. The
  last one is exact: by `FerretStream.RoundsExact` some request overruns the caller's buffer as soon as `M > ot_limit`.
- Circuits are topologically ordered, assign each wire once and end with the outputs (`Circuit.WellFormed`).
- Parties agree on a public input only if they assign the same value: the code never compares them, and
  `Exchange.Inputs.InputAgreement` gives the exact condition and `Exchange.PublicBitsDiffer` a run in which they differ.
- `byte_memory_need_inplace` and the `byte_space` of `rcot_inplace` count blocks, not bytes; the model follows the code.

## Left out

- `ABitMP::check1`: it reads one element past the last index and visits only whole chunks.
- RunProtocol: does not run `check1` before the two calls of `check2`, for that reason, and makes the OTs of both
  `ABitMP::compute` calls before the triples, where the code makes the second ones after them; no call depends on the
  other's results.
- Binding and hiding of the hash commitments: a digest is an arbitrary function of what was hashed.
- Malicious consistency check of multi-point COT, and secrecy, simulation and probability arguments throughout.
- AES, hashes, `sse_trans`, `bool_to_block` and the GF(2^128) kernels below their mathematical meaning.
- Elliptic-curve base OT: the sender of IKNP is given the seed `k_{s_i}` of every pair.
- Network, threads, TLS and files: messages arrive as sent, and thread ranges are run one after the other.
- LPN coverage of the last `n % threads` rows: they are not encoded, and only their correlation is stated.
- Disjointness of the pre-OT and LPN parts of `ot_pre_data`, which the code does not have.
- Aliasing of the tree memory with its slice of `sparse_vector`: a tree is expanded in an array of its own and the bins
  are appended in order.
- Aliasing of `ot_data` and `ot_pre_data` with the caller's buffer: both are sequence-valued fields of the object.
- Storage layout of `value`, `key` and `mac`: shares are stored per wire rather than in three arrays.
- Unused entries 0 of key and MAC rows, uninitialised in C++, are zero blocks.
- The two other `online` overloads, whose evaluator loop is the same, and `silent_ot_left`, a subtraction.
- The error for an object whose setup did not run: objects are modelled after setup. The Ferret state files and
  `assemble_state`, debugging checks, and 64-bit overflow of lengths.
- The relay, the Go and Python services, private information retrieval, signing and the float circuits.
