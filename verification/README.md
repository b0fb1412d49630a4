# Vault app session and signing: a verified model

A Dafny model of a Bitcoin vault signing app: the session a host opens with two commands
(`DERIVE_CONTEXT_HASH`, `APPROVE_VAULT_INTENT`), the leaf scripts and transactions the app rebuilds from
the approved intent, and the validate-then-sign machine behind `SIGN_PSBT`. The main results are about whole runs: any
interleaving of the three commands, accepted or refused, from power-up.

| module | what it models |
|---|---|
| `Octets`, `Bits` | bytes, 16/32/64-bit integers, byte orders, `memcmp`, bit masks |
| `Intents`, `Platforms` | the intent and its ranges; hashes, curve and key derivation as parameters |
| `Tlv` | the any-order scalar parser and the canonical group parser |
| `Session`, `Loading` | the session globals and the derive and approve commands as steps on them |
| `LoadingLemmas`, `Invariants`, `LoadInvariant`, `LoadTheorems` | what those steps keep, and what a finished load means |
| `Script`, `Builders`, `ScriptTheorems` | leaf scripts, the builders that write them into a buffer, the Assert prefix computed byte by byte |
| `LeafParsers`, `LeafStream` | the leaf parsers; the streamed leaf reader in constant memory |
| `Taproot` | the control block check against taptrees |
| `Psbts`, `PegIn`, `PrePegIn`, `Deposit` | the transaction record; the two deposit validators |
| `Claimer`, `Payout`, `NoPayout`, `KeyOrigins`, `Standalone` | claimer detection in the aliased scratch union, payout arithmetic, derivation entries, the reviewed flows |
| `Machine`, `MachineTheorems`, `LeafDispatch` | the dispatcher, the signer, and why they agree; which leaves each flow lets through |
| `Ledgers`, `Runs`, `Guarantees` | what was signed under an approval, whole runs, end-to-end statements |
| `Tapscript`, `LeafSpends` | an evaluator for the opcodes of the leaves; what it takes to spend each leaf, and where its bytes are |
| `Commitments`, `InitialChunks`, `WireForms` | what commitments, the derive chunk and the load are made of, written out byte by byte |
| `Flows`, `Addresses`, `DepositFlows`, `PayoutFlows`, `RunFlows` | what an accepted transaction of each kind does, read off its bytes; for the counted flows both directions, in any run |
| `SignedLeaf`, `WrappedPayout` | which leaf each accepted transaction gets signed; the Payout whose input sum wraps |
| `Bip322` | the proof-of-possession message |
| `AppSession`, `AppSigning`, `App` | the same commands as imperative methods on the globals, each proved equal to its step |

Reading conventions:

- A value that the device computes with hashes, HKDF, BIP-32 or the curve is the result of a function in the record
  `Platform`, about which nothing is assumed. Where a result can only hold up to a coincidence of hashes, its conclusion
  names the two values, computed from the case at hand, that then have one hash.
- A running hash is the string of bytes absorbed so far. A hash that fails, a user who declines and every check outside
  the model is a Boolean in `Env` or `Outside`; all results hold for all their values.
- The PSBT is an immutable record (`Transaction`). Its subset type `Psbt` adds two facts that come from the base app: counts fit in
  32 bits, and without a wallet policy no input is marked internal.
- `History` is what an observer sees: the accepted derive chunks, as printed on the wire, and the accepted load bytes. `Ledger` is what has been
  signed since the last approval.

- Each function that the state machine is written with (leaf builders, commitments, wire formats, validators) has a partner that
  does not call it: leaf scripts are run on the evaluator of `Tapscript`, formats are printed with literal tags and
  lengths, and accepted transactions are described by literal addresses, scripts and amounts.

## Where the code and its stated intent differ

- `_validate_payout` guards the sum of the outputs against wrapping but not the sum of the inputs
  (`src/sign_psbt_validate.c:2022`). `Payout.PayoutConserves` shows that an accepted Payout conserves value, with a fee
  in (0, bound], if and only if `vault_amount + assert0_value` fits in 64 bits. `WrappedPayout.WrappedPayoutAccepted` builds
  a whole transaction that is accepted while its outputs are worth almost 2^64 less than its inputs, for an intent the
  loader accepts; `Payout.NoWrapFromIntent` shows that amounts in any realistic range exclude this.
- `vault_build_htlc_leaf1` checks for 38 bytes; a timelock of 0x8000 or more would take 39. No loaded intent has one
  (at most 4320), and every caller offers 2560 bytes; `Builders.BuildHtlcLeaf1` states the room the builder needs.
- The Pre-PegIn value check also refuses a wrapping upper bound and the PegIn check does not; `PrePegIn.HtlcValuePassesPegIn`
  gives the exact relation.
- The refund leaf parser reads padded pushes and `OP_PUSHDATA1` as well as the minimal pushes the builder emits;
  `LeafParsers.RefundLeafAccepts` says exactly what it reads.
- After a load `vault_group_index` holds the number of groups, one past the last valid index. `MachineTheorems.AcceptedIsSigned`
  shows that the signer never reads that value.

## Model

| member | source | states |
|---|---|---|
| App.VaultApp.Derive | src/handler/derive_context_hash.c:278-290 | the command takes the app from the state of its run to the state of the run extended by this command |
| App.VaultApp.Approve | src/handler/approve_vault_intent.c:386-405 | the same for the loader command |
| App.VaultApp.SignPsbt | src/sign_custom_inputs.c:93-719 | the same for signing, and the signature handed out is new under the current approval |
| Runs.EveryRunGuarantees | src/handler/approve_vault_intent.c:55-380 | after any commands in any order: idle means context, intent and loader are zero; streaming means idle, nothing loaded, received below total at most 1024 and the buffer holds exactly the accepted chunks; loaded means ranges, ascending outputs, disjoint sorted roles, matching BIP-86 path, commitments of the derived root, and the root gone |
| Runs.EveryRunSignsOnce | src/sign_custom_inputs.c:193-194 | in any run, under one approval no PegIn group and no (group, claimer) Payout is signed twice, all four counts respect their caps, and masks and counters equal what was signed |
| Runs.EveryStepFresh | src/sign_custom_inputs.c:408-412 | the signature of any next signing command of any run is not in the ledger of its approval |
| Runs.SignPsbtKeeps | src/sign_psbt_validate.c:3655-3830 | one complete signing command keeps the session invariant and the ledger invariant, whatever fails on the way |
| Runs.SignKeeps | src/sign_custom_inputs.c:93-719 | bits and counters set before the signature leaves, and invalidation on failure, keep both invariants |
| Runs.ValidateKeeps | src/sign_psbt_validate.c:3655-3830 | validation alone keeps both invariants, and an accepted counted kind has a free slot |
| Runs.SignedIsDetected | src/sign_custom_inputs.c:362-412 | the slot burnt is the group, claimer or challenger that the transaction's own bytes name, even if delivery fails |
| Runs.ApproveLedger | src/handler/approve_vault_intent.c:366-380 | a completed approval starts with empty masks and zero counters, and no approve command touches those of a loaded session |
| Runs.DeriveLedger | src/handler/derive_context_hash.c:116-123 | a derive command leaves a loaded session as it is or ends it |
| Runs.StepKeeps | src/vault_context.c:15-62 | every command keeps both invariants |
| Guarantees.AcceptedPayoutPaysOut | src/sign_psbt_validate.c:1655-2059 | in any run an accepted Payout spends the PegIn of one group and exactly the leaf built for one approved claimer, a pair not signed before, and conserves value iff the inputs add up |
| Guarantees.AcceptedPegInIsTheGroups | src/sign_psbt_validate.c:1406-1476 | in any run an accepted PegIn serializes to the buffer hashed for one group, not signed before |
| Guarantees.AcceptedPrePegInIsTheIntents | src/sign_psbt_validate.c:663-760 | in any run an accepted Pre-PegIn is the first under its approval, has the committed txid, and group g is output g |
| Guarantees.DetectMeans | src/sign_psbt_validate.c:1681-1758 | detection pins the PegIn txid, the exact leaf, its commitment and the connector value |
| Machine.SignerFollowsValidator | src/sign_custom_inputs.c:111-458 | if validation accepts kind k the signer takes the branch of k; the three-input refusal and both assertions are unreachable, although the payout flag outlives transactions |
| Machine.ValidateCarries | src/sign_psbt_validate.c:3655-3830 | validation changes no mask and no signature count except the Pre-PegIn's, which an accepted Pre-PegIn takes from 0 to 1; or it invalidates, accepting nothing |
| Machine.RoutesPayout | src/sign_custom_inputs.c:224-226 | an accepted Payout is always routed to the Payout branch |
| MachineTheorems.AcceptedIsSigned | src/sign_custom_inputs.c:124-172 | every check the signer repeats holds for every accepted transaction of every kind |
| MachineTheorems.NoPayoutRechecks | src/sign_custom_inputs.c:232-299 | the repeated leaf, key and challenger checks hold after an accepted NoPayout |
| MachineTheorems.FinalizeRechecks | src/sign_custom_inputs.c:456-485 | the repeated payout-leaf shape and key check hold on the captured prefix of the accepted leaf |
| MachineTheorems.LeafRechecks | src/sign_custom_inputs.c:580-620 | an accepted standalone leaf passes the prefix, Assert and key re-checks |
| LeafDispatch.VaultLeavesNotStandalone | src/sign_psbt_validate.c:3764-3830 | no standalone flow, WC with a wallet included, accepts an input 0 that carries an HTLC leaf 0, vault UTXO, NoPayout or payout leaf, buffered or not |
| LeafDispatch.CountedLeafShape | src/sign_psbt_validate_helpers.c:86-242 | HTLC leaf 0, vault UTXO and NoPayout leaves open with OP_SIZE or show a second key and no final OP_1, and are neither refund nor payout leaves |
| LeafDispatch.FactsOfScript | src/sign_psbt_validate.c:289-322 | what the reader keeps of a leaf, buffered or not, is that of its script, and the hash signed is the script's TapLeaf hash |
| LeafDispatch.AssertCarriesSigners | src/sign_psbt_validate.c:3784-3822 | an accepted Assert has an intent loaded whose whole signer prefix is a proper prefix of the committed script |
| LeafDispatch.DetectReads | src/sign_psbt_validate.c:1655-1758 | detection finds (g, c, value) iff the inputs spend the first group with that txid and exactly the leaf built for (g, c), committed to, with an allowed value |
| LeafDispatch.OneLeafReads | src/sign_psbt_validate.c:3601-3650 | an input reads back as a buffered leaf iff it carries that one leaf and control block |
| LeafDispatch.HonestRefundAccepted | src/sign_psbt_validate.c:820-1122 | the refund of a loaded intent's HTLC, leaf 1 with its control block, timelock and txid, is accepted |
| LeafDispatch.ReclaimSpendsClaim | src/sign_psbt_validate.c:2524-2708 | a Reclaim under the depositor key spends the depositor claim output the PegIn pays, and pays the depositor less than it spends |
| LeafDispatch.WcLeafExact | src/sign_psbt_validate.c:2888-2899 | the WC byte checks leave exactly the key and the hash free |
| LeafSpends.HashlockLeafSpend | src/vault_script.c:423-478 | run on the evaluator, HTLC leaf 0 succeeds iff the witness is a 32-byte preimage of the hashlock and valid signatures of depositor, provider, every keeper and every challenger, and nothing else |
| LeafSpends.HashlockLeafBytes | src/vault_script.c:423-478 | read off its bytes: hashlock at 6, depositor at 40, provider at 74, keepers from 107, then the challengers |
| LeafSpends.VaultLeafSpend | src/vault_script.c:370-410 | the vault UTXO leaf succeeds iff depositor, provider, every keeper and every challenger sign and pegin_csv_timelock has passed |
| LeafSpends.VaultLeafBytes | src/vault_script.c:370-410 | read off its bytes: depositor, provider, both signer groups, and at the end the operand that the Payout's sequence must equal |
| LeafSpends.PayoutLeafSpend | src/vault_script.c:535-591 | the payout leaf of a claimer succeeds iff the claimer, each of its app challengers in ascending order and every challenger sign and payout_timelock has passed; the app challengers are said as a set: provider and keepers without the claimer, or the keepers for the depositor |
| LeafSpends.DetectedLeafBytes | src/sign_psbt_validate.c:1600-1653 | whatever script is detected as claimer c's: its first key is c's by role, its next N keys are strictly ascending and that set, the M after them the challengers |
| LeafSpends.AppSetIs | src/vault_script.c:492-521 | a list is ascending and that set iff it is the list the builder merges |
| LeafSpends.RefundLeafSpend | src/vault_script.c:346-358 | HTLC leaf 1 succeeds iff the depositor signs and the refund timelock has passed |
| LeafSpends.ClaimLeafSpend | src/vault_script.c:332-338 | the claim leaf succeeds iff the depositor signs |
| LeafSpends.NoPayoutLeafSpend | src/vault_script.c:603-627 | the NoPayout leaf succeeds iff challenger and depositor sign |
| LeafSpends.WcLeafSpend | src/sign_psbt_validate.c:2888-2899 | the WC leaf succeeds iff the key signs and the witness holds a 32-byte preimage of the label hash |
| LeafSpends.AssertPrefixBinds | src/vault_script.c:273-319 | a script that opens with the Assert prefix succeeds iff depositor, every keeper and every challenger sign and its body, whatever it is, succeeds on the rest of the witness |
| Commitments.EveryRunCommits | src/handler/derive_vault_secrets_core.h:47-113 | in any run the hashlocks, the auth anchor and the context fingerprint of a loaded session are hashes of expansions of one derived root under literal infos, all pairwise different |
| InitialChunks.InitialAccepts | src/handler/derive_context_hash.c:110-207 | an initial chunk is read as (name, path, total, chunk) iff these are valid and the chunk is their printed form, path elements big-endian and in order |
| Invariants.ObservesWhatWasRead | src/handler/derive_context_hash.c:110-207 | the observer, who reads the printed form, sees what the handler stores |
| WireForms.ScalarsAccept | src/vault_intent_tags.h:29-54 | a scalar payload parses to s iff s is in the ranges written out and the payload is the thirteen literal records of s in some order |
| WireForms.GroupAccepts | src/vault_intent_tags.h:59-70 | a group record parses to g iff the data opens with its six literal records and g leaves something to pay out |
| WireForms.KeyAccepts | src/handler/approve_vault_intent.c:216-283 | a key entry is accepted iff tag, length, an x coordinate below 2^256 - 2^32 - 977 that lifts, and the comparisons with the keys already there |
| WireForms.CanonicalIsBelowPrime | src/handler/approve_vault_intent_core.h:48-58 | the memcmp with the prime's bytes is the numeric comparison |
| WireForms.SmallerChildFirst | src/sign_psbt_validate.c:787-800 | a branch hash puts the numerically smaller child first |
| WireForms.LeafPreimageReads | src/sign_psbt_validate.c:206-225 | what the leaf hash absorbs reads back as version, compact size and script |
| Flows.AcceptedFinalize | src/sign_psbt_validate.c:3311-3594 | an accepted PayoutFinalize pays both outputs to the BIP-86 address of the first key of the script spent by input 1, a key of the device, the second with 546, and input 1's sequence is the operand at the end of that script |
| Flows.AcceptedClaim | src/sign_psbt_validate.c:2333-2510 | an accepted Claim spends a one-key leaf of a device key, pays 546 back to that key's address and spends more than it pays |
| Flows.AcceptedReclaim | src/sign_psbt_validate.c:2524-2708 | an accepted Reclaim spends a single-leaf output of a device key, replaceable, to that key's address |
| Flows.AcceptedRefund | src/sign_psbt_validate.c:820-1122 | an accepted Refund's sequence is the timelock in its script, the intent's or at least 72, its leaf key is the device's, and it pays at most what it spends to a BIP-86 address of the device |
| Flows.AcceptedWc | src/sign_psbt_validate.c:2872-3022 | an accepted WC spends the key-and-label leaf of a device key to that key's address |
| Flows.AcceptedAssert | src/sign_psbt_validate.c:2718-2862 | an accepted Assert spends its committed leaf, whose first key is the device's, without a relative lock |
| Flows.SignedInputSighash | src/sign_psbt_validate.c:1211-1312 | for every accepted kind the signed input has no sighash field or an explicit 0 |
| KeyOrigins.OwnsMeans | src/sign_psbt_validate.c:921-967 | a derivation entry vouches for its key iff it prints the device's fingerprint and a path m/86'/coin'/account'/change/index within the bounds that leads to that key, behind at most two leaf hashes |
| KeyOrigins.OriginAccepts | src/sign_psbt_validate_helpers.c:62-84 | a value parses to (fingerprint, path) iff it is their printed form behind some leaf hashes and the path fits |
| KeyOrigins.ParseTapBip32Derivation | src/sign_psbt_validate_helpers.c:62-84 | the loop writes exactly the parsed path, or returns -1 |
| DepositFlows.PegInAccepted | src/sign_psbt_validate.c:1406-1476 | a PegIn is accepted for group g iff it has the literal form of g's PegIn for some HTLC value within the fee cap, and g is open |
| DepositFlows.HonestPegInAccepted | src/sign_psbt_validate.c:1406-1476 | the constructed PegIn of any open group is accepted |
| DepositFlows.PrePegInAccepted | src/sign_psbt_validate.c:663-760 | a Pre-PegIn is accepted iff inputs, HTLC outputs, tail, fee and txid are those written out and it is the first under the approval |
| DepositFlows.OutputsMean | src/sign_psbt_validate.c:585-661 | with the HTLCs in front the classification accepts exactly the tails of one auth anchor, one 546 anchor and one later allowed change, none of them internal |
| PayoutFlows.PayoutAccepted | src/sign_psbt_validate.c:1655-2059 | a Payout is accepted for (g, c) iff it has the literal form of a Payout of g to c for some connector value and amounts, and the pair is open |
| PayoutFlows.NoPayoutAccepted | src/sign_psbt_validate.c:2070-2306 | a NoPayout is accepted for keeper or challenger j iff it has the literal form for that key, and the count is below its cap |
| PayoutFlows.HonestNoPayoutAccepted | src/sign_psbt_validate.c:2070-2306 | the constructed NoPayout to any approved challenger is accepted |
| RunFlows.EveryRunAccepts | src/sign_psbt_validate.c:3655-3830 | in any run the four counted flows accept exactly the transactions of those forms |
| RunFlows.EveryRunMeets | src/handler/approve_vault_intent.c:298-380 | in any run a loaded intent has the literal ranges, ascending outputs, disjoint roles and the depositor key of its path |
| RunFlows.PayoutUnlocks | src/sign_psbt_validate.c:1801-1850 | the sequences of an accepted Payout satisfy the CSV of both leaves (BIP-112), so the vault UTXO and the connector open to the signatures of their signers and to nothing less |
| SignedLeaf.CountedLeavesAreBooked | src/sign_custom_inputs.c:93-719 | in any run, a computed signature whose leaf is an HTLC leaf 0, vault UTXO or NoPayout leaf of any intent is booked, and a booked signature is under exactly the leaf of the loaded intent's group or challenger it is booked for; a PegIn or Payout entry is new |
| SignedLeaf.CountedLeafCountedBranch | src/sign_custom_inputs.c:93-719 | over the input that is signed, input 1 of PayoutFinalize included: such a leaf is only ever signed by the three counted branches |
| SignedLeaf.CountedBranchSigns | src/sign_custom_inputs.c:124-412 | a counted branch signs the leaf of the very group or challenger the transaction names |
| SignedLeaf.FinalizeSignsPayoutLeaf | src/sign_custom_inputs.c:456-560 | an honest PayoutFinalize is accepted and signs the depositor's payout leaf on input 1, with no counter or mask changed |
| WrappedPayout.WrappedPayoutAccepted | src/sign_psbt_validate.c:2022 | for an intent with an amount near 2^64 that the loader accepts, a constructed transaction passes the whole Payout validation in any session with the slot free, while almost 2^64 goes to fees |
| WrappedPayout.WrappedDetected | src/sign_psbt_validate.c:1655-1758 | that transaction is detected as the depositor's Payout of group 0 |
| Payout.AcceptanceIsMoney | src/sign_psbt_validate.c:1760-2059 | with everything else in order and the slot free, a Payout is accepted iff the money checks pass |
| Ledgers.FlatPayoutCapIdle | src/sign_psbt_validate.c:2047-2055 | while a slot is unset the flat Payout cap cannot fire |
| Ledgers.PegInCapIdle | src/sign_psbt_validate.c:1470-1474 | while a group is unset the PegIn cap cannot fire |
| Ledgers.RecordPayout | src/sign_custom_inputs.c:408-412 | setting the bit and bumping the counter records exactly one new pair |
| Ledgers.RecordPegIn | src/sign_custom_inputs.c:193-194 | the same for a PegIn group |
| Ledgers.RecordNoPayout | src/sign_custom_inputs.c:318 | the NoPayout count stays within its cap |
| Payout.SlotDecodes | src/sign_psbt_validate.c:1762-1764 | group and claimer can be read back from their slot |
| Payout.SlotReached | src/sign_psbt_validate.c:1762-1764 | every number below V(N+2) is the slot of a pair, so the slot map is a bijection |
| Payout.MoneyExact | src/sign_psbt_validate.c:1925-2043 | the wrapping checks hold iff outputs fit, the bound fits and the fee, with inputs modulo 2^64, is in (0, bound] |
| Payout.PayoutConserves | src/sign_psbt_validate.c:2019-2043 | an accepted Payout conserves value with a fee in (0, bound] iff the input sum fits in 64 bits |
| Payout.MoneyMeaning | src/sign_psbt_validate.c:2019-2043 | when the input sum fits, accepted means exactly: fee in (0, bound] |
| Payout.NoWrapFromIntent | src/sign_psbt_validate.c:1733-1746 | an amount that leaves room for the largest accepted connector value cannot wrap |
| Payout.WrappedMoney | src/sign_psbt_validate.c:2019-2043 | amounts in their allowed ranges, with a PegIn that can fund them, for which the money checks pass while almost 2^64 goes to fees |
| Payout.DivisionGuard | src/sign_psbt_validate.c:2034 | the division guard holds iff the product does not overflow |
| Payout.DepositorReceives | src/sign_psbt_validate.c:1887-2043 | the depositor as payee gets the inputs less the fee bound, one anchor and, for a provider claimer, the commission, on the depositor's own address |
| Payout.KeeperPayoutValue | src/sign_psbt_validate.c:1902-1990 | the value a keeper claimer receives lies between the same bounds |
| NoPayout.DetectsChallengerExactly | src/sign_psbt_validate.c:2097-2127 | a leaf names challenger j iff it is the leaf built for challenger j |
| NoPayout.NoPayoutPaysChallenger | src/sign_psbt_validate.c:2070-2306 | an accepted NoPayout spends one approved challenger's leaf and pays that challenger's own address; the fee is bounded on the base app's totals, and on the output itself where its total is the sum of the outputs |
| NoPayout.FindChallenger | src/sign_psbt_validate.c:2109-2122 | the two search loops find the first matching key in load order |
| Standalone.FinalizePays | src/sign_psbt_validate.c:3557-3571 | the amount at output 0 of a single-vault PayoutFinalize is the vault amount less anchor and a fee within the bound, and the subtraction cannot wrap (whose address it is: Flows.AcceptedFinalize) |
| Claimer.DetectPayoutClaimer | src/sign_psbt_validate.c:1600-1653 | on one aliased 5120-byte array: returns c iff the stored leaf is the one rebuilt for c, and every byte below the rebuild, the control block included, is unchanged |
| Claimer.DetectsExactly | src/sign_psbt_validate.c:1600-1653 | with disjoint roles the claimer is c iff the host leaf is the leaf built for c |
| Claimer.ClaimerKeysDistinct | src/sign_psbt_validate.c:1612-1630 | each claimer key is found at its own index |
| Deposit.PrePegInMatchesIntent | src/sign_psbt_validate.c:663-760 | an accepted Pre-PegIn has the committed txid, HTLCs first and in group order with their scripts and values, at most three more outputs, and a fee bounded on the base app's totals, and on the outputs where their total is their sum |
| Deposit.ComputePrePegInTxid | src/sign_psbt_validate.c:418-506 | absorbing field by field gives the double hash of the whole serialization, refused iff a field is missing or a sequence is not final |
| PrePegIn.AcceptedShape | src/sign_psbt_validate.c:585-661 | htlc_vout of group g is g, at most V+3 outputs, tail of at most one auth anchor, one CPFP anchor and one later change output |
| PrePegIn.HtlcsComeFirst | src/sign_psbt_validate.c:636-640 | no other output at or below the last HTLC forces the HTLC indices to be 0, 1, 2, ... |
| PrePegIn.ValidateOutputs | src/sign_psbt_validate.c:611-656 | the classification loop computes the step function over all outputs |
| PrePegIn.ValidateHtlcOutputs | src/sign_psbt_validate.c:512-583 | every HTLC output has the script of its hashlock and a value in range |
| PrePegIn.HtlcValuePassesPegIn | src/sign_psbt_validate.c:546-566 | the Pre-PegIn value check is the PegIn check plus an upper bound that fits in 64 bits |
| PegIn.AcceptedPegInSerializes | src/sign_psbt_validate.c:1406-1476 | every accepted PegIn serializes, byte for byte, to the 150-byte buffer of its group |
| PegIn.PegInTxsDiffer | src/vault_script.c:744-819 | groups with different outputs have different buffers |
| PegIn.PayoutResolvesToPegInGroup | src/sign_psbt_validate.c:1681-1704 | a Payout spending an accepted PegIn resolves to the same group, or to a group of the intent whose different 150-byte buffer has the same double hash |
| PegIn.ComputePegInTxid | src/vault_script.c:744-819 | filling the buffer field by field gives the hash of the specified serialization |
| PegIn.DetectGroup | src/sign_psbt_validate.c:1437-1450 | the loop with its narrowing cast finds the first group with that output index, never another |
| PegIn.ResolveGroup | src/sign_psbt_validate.c:1697-1703 | the first group whose PegIn has this txid |
| PegIn.PegInValueMeans | src/sign_psbt_validate.c:1384-1401 | the wrapping checks say exactly: the outputs fit and the fee is between 0 and the cap |
| Taproot.AnyLeafVerifies | src/sign_psbt_validate.c:768-818 | in any taptree of depth at most 7 the control block of any leaf fits the buffer and passes against the output key |
| Taproot.CommitmentBinds | src/sign_psbt_validate.c:768-818 | whatever passes against a tree's output key is a node of the tree with its own sibling path in the control block, unless named values coincide: two roots with one tweaked key, two pairs met on the descent with one branch hash, or a leaf of the tree with the branch hash of the pair joined there |
| Taproot.FoldDescends | src/sign_psbt_validate.c:787-800 | following a control block that folds to the root down the tree ends at the node or at such a named coincidence |
| Taproot.HtlcSpendsItsLeaves | src/vault_script.c:640-684 | against the HTLC output a one-sibling control block proves one of its two leaves with the other as sibling, or two named values coincide |
| Taproot.VerifyTaprootCommitment | src/sign_psbt_validate.c:768-818 | the sibling loop computes the fold and compares parity and key |
| Taproot.FoldReachesRoot | src/sign_psbt_validate.c:787-800 | folding a sibling path from any node ends at the root |
| Taproot.HtlcLeavesVerify | src/vault_script.c:640-684 | both HTLC leaves verify against the HTLC scriptPubKey |
| LeafStream.StreamTapLeafValue | src/sign_psbt_validate.c:289-322 | for every cutting into chunks the streamed reader succeeds iff the one-shot read does, with the same preimage, buffer, prefix, last byte and Assert verdict; a length mismatch fails |
| LeafStream.LeafReader.Data | src/sign_psbt_validate.c:227-285 | one chunk extends what was read, or sets overflow and changes nothing |
| LeafStream.LeafReader.Length | src/sign_psbt_validate.c:206-225 | the announced length is accepted iff in 2..16384 |
| LeafStream.LeafReader.TakeScript | src/sign_psbt_validate.c:241-276 | hash, buffer, prefix, last byte and comparison all advance by the same bytes |
| LeafParsers.RefundLeafAccepts | src/sign_psbt_validate_helpers.c:86-165 | the refund parser returns (key, t) iff the script is key, CHECKSIGVERIFY, an encoding of t, CSV with t in 1..65535 |
| LeafParsers.ParseRefundLeafScript | src/sign_psbt_validate_helpers.c:86-165 | the cursor form computes the same |
| LeafParsers.RefundLeafRoundTrip | src/vault_script.c:346-358 | parsing HTLC leaf 1 returns the depositor key and the refund timelock |
| LeafParsers.PayoutLeafRoundTrip | src/sign_psbt_validate_helpers.c:167-228 | parsing any payout leaf returns the claimer key and the payout timelock |
| LeafParsers.LeafClassesExclusive | src/sign_psbt_validate_helpers.c:86-252 | each leaf the builders emit is read by at most its own parser, and none looks like an Assert leaf |
| ScriptTheorems.AssertPrefixByteExact | src/vault_script.c:273-319 | the byte function equals the concatenation for every offset below the length, and is -1 beyond |
| ScriptTheorems.AssertPrefixOpensPayoutLeaf | src/vault_script.c:535-591 | the same bytes open the depositor claimer's payout leaf |
| ScriptTheorems.AppChallengersExact | src/vault_script.c:492-521 | provider and keepers without the claimer, strictly ascending, keeper_count of them |
| Script.ScriptNumValue | src/vault_script.c:110-130 | a pushed number reads back with its sign bit clear |
| Builders.EncodeMultisigGroup | src/vault_script.c:231-258 | writes exactly the N-of-N script at the offset and nothing else, or -1 |
| Builders.PutNumber | src/vault_script.c:110-130 | writes exactly the minimal push |
| Builders.BuildAppChallengers | src/vault_script.c:492-521 | the merge loop yields the sorted list |
| Builders.BuildAssert0PayoutLeaf | src/vault_script.c:535-591 | writes exactly the payout leaf (which signers that is: LeafSpends.PayoutLeafSpend), or -1 iff an index or the space is wrong |
| Builders.PayoutLeafLength | src/sign_psbt_validate.c:1594-1596 | a payout leaf has at most 2228 bytes and always fits |
| Builders.BuildVaultUtxoLeaf | src/vault_script.c:370-410 | writes exactly the vault UTXO leaf (what opens it: LeafSpends.VaultLeafSpend), or -1 |
| Builders.BuildHtlcLeaf0 | src/vault_script.c:423-478 | writes exactly HTLC leaf 0 (what opens it: LeafSpends.HashlockLeafSpend), or -1 |
| Builders.BuildHtlcLeaf1 | src/vault_script.c:346-358 | writes exactly HTLC leaf 1 for every timelock, or -1 iff fewer than 38 bytes are offered |
| Tlv.ParseAcceptsPermutations | src/vault_tlv.c:27-192 | the scalar parser accepts a payload, with result s, iff it is some order of the 13 records of s with valid values |
| Tlv.AcceptedLength | src/vault_tlv.c:27-192 | every accepted scalar payload has 128 bytes |
| Tlv.PrintThenParse | src/vault_tlv.c:27-192 | printing valid scalars in any order and parsing returns them |
| Tlv.ParseScalars | src/vault_tlv.c:27-192 | the loop with its 16-bit seen-mask computes the parser |
| Tlv.ParseGroupAcceptsCanonical | src/vault_tlv.c:198-298 | the group parser accepts iff the data opens with the canonical record of a valid group, consuming 83 bytes |
| Tlv.ParseGroupRecord | src/vault_tlv.c:198-298 | the loop with its mask and last-field check computes the parser |
| LoadTheorems.BatchingIrrelevant | src/handler/approve_vault_intent.c:42-53 | two completed loads that sent the same bytes end with the same intent and fingerprint, however the commands were cut |
| LoadTheorems.TranscriptDetermines | src/handler/approve_vault_intent.c:121-296 | the bytes of a load determine scalars, groups, keys and depositor |
| LoadTheorems.TranscriptLength | src/handler/approve_vault_intent.c:121-296 | a completed load is exactly 128 + 83V + 35(N+M) bytes |
| LoadTheorems.LoadedGuarantees | src/handler/approve_vault_intent.c:298-380 | everything the signer assumes about a loaded intent |
| LoadInvariant.ApproveKeeps | src/handler/approve_vault_intent.c:55-405 | every approve command keeps the session invariant |
| LoadInvariant.KeyBatchKeeps | src/handler/approve_vault_intent.c:193-296 | keys stored, counters and absorbed bytes stay in step across batches |
| LoadInvariant.FinishLoadKeeps | src/handler/approve_vault_intent.c:298-380 | the final batch establishes the loaded state or invalidates |
| LoadingLemmas.KeysDisjoint | src/handler/approve_vault_intent_core.h:82-153 | the key-by-key comparisons add up to sorted, pairwise disjoint roles |
| LoadingLemmas.KeyLoopKeeps | src/handler/approve_vault_intent.c:216-283 | the key loop keeps its checks and consumes the canonical encoding of what it stores |
| LoadingLemmas.GroupLoopKeeps | src/handler/approve_vault_intent.c:128-184 | the same for group records |
| Invariants.DeriveKeeps | src/handler/derive_context_hash.c:110-290 | every derive command keeps the invariant; the buffer is the accepted chunks in order |
| Invariants.FinalizeKeeps | src/handler/derive_context_hash.c:23-104 | HKDF receives exactly the observed chunks, and the transition out of idle never fails |
| Platforms.ExpandInfoInjective | src/handler/derive_vault_secrets_core.h:47-81 | expansion inputs are prefix free, so commitments of different labels or contexts use different inputs |
| Bip322.ParseAccepts | src/bip322.c:35-75 | a message parses to m iff m is well formed and the message is its printing |
| Bip322.Unambiguous | src/bip322.c:35-75 | no text has two decompositions |
| Bip322.ParsePopMessage | src/bip322.c:35-75 | the colon scan and field loops compute the parser |
| Bits.FullMask | src/vault_tlv.c:184-186 | a mask of n bits is all ones iff every bit is set |
| Bits.SlotsSetBit | src/sign_custom_inputs.c:408-411 | setting a bit adds exactly that slot |
| AppSession.Globals.DeriveContextHash | src/handler/derive_context_hash.c:278-290 | the imperative handler, its cursor and buffers, equals the derive step |
| AppSession.Globals.HandleInitialChunk | src/handler/derive_context_hash.c:110-207 | the same for the initial chunk (what the step reads: InitialChunks.InitialAccepts) |
| AppSession.Globals.HandleContinuationChunk | src/handler/derive_context_hash.c:213-272 | the same for a continuation |
| AppSession.Globals.FinalizeDerivation | src/handler/derive_context_hash.c:23-104 | the same for the end of the stream |
| AppSession.Globals.ApproveVaultIntent | src/handler/approve_vault_intent.c:386-405 | the imperative loader equals the approve step |
| AppSession.Globals.HandleScalarPayload | src/handler/approve_vault_intent.c:55-113 | root, path, name and fingerprint survive the reset, nothing else does |
| AppSession.Globals.HandleGroupPayload | src/handler/approve_vault_intent.c:121-185 | the group command equals its step |
| AppSession.Globals.StoreGroups | src/handler/approve_vault_intent.c:128-179 | the record loop fills the slots the group step fills |
| AppSession.Globals.HandleKeyBatch | src/handler/approve_vault_intent.c:193-380 | the key batch equals its step |
| AppSession.Globals.StoreKeys | src/handler/approve_vault_intent.c:216-283 | the entry loop stores what the key step stores |
| AppSession.Globals.ValidateAndStoreKey | src/handler/approve_vault_intent_core.h:82-121 | stores the key in its slot iff in order, no provider and not yet stored |
| AppSession.Globals.CheckDepositorUniqueness | src/handler/approve_vault_intent_core.h:134-153 | true iff the depositor key is in no role |
| AppSession.Globals.CompleteLoad | src/handler/approve_vault_intent.c:298-380 | the end of the load equals its step (what it commits to: Commitments.EveryRunCommits) |
| AppSession.Globals.InvalidateContext | src/vault_context.c:15-29 | zeroes context, intent, loader and scratch, not the streaming gates |
| AppSession.Globals.ChangeState | src/vault_context.c:53-62 | moves along an allowed edge or invalidates |
| AppSigning.ValidateAndDisplay | src/sign_psbt_validate.c:3655-3830 | the dispatcher on the globals equals the validate step |
| AppSigning.ValidatePayoutTx | src/sign_psbt_validate.c:1655-2059 | indices stored, bit tested, fields and money checked, cap tested, in the order of the code |
| AppSigning.DetectPayout | src/sign_psbt_validate.c:1681-1754 | detection with leaf, rebuild and control block in one union equals the specification |
| AppSigning.CheckPayoutMoney | src/sign_psbt_validate.c:1925-2043 | the running total and the fee test |
| AppSigning.ValidateNoPayoutTx | src/sign_psbt_validate.c:2070-2306 | equals the NoPayout step, with the cap tested before the remaining fields |
| AppSigning.ValidatePegInTx | src/sign_psbt_validate.c:1406-1476 | equals the PegIn step |
| AppSigning.ValidatePrePegInTx | src/sign_psbt_validate.c:663-760 | equals the Pre-PegIn step, the slot taken before signing |
| AppSigning.SignCustomInputs | src/sign_custom_inputs.c:93-719 | the signer's branches equal the sign step |
| AppSigning.SignCounted | src/sign_custom_inputs.c:124-413 | re-check, prepare, book, hand out; failure on either side of the booking invalidates |

## Left out

- The script evaluator knows the opcodes of the vault leaves, 32-byte keys and non-negative numbers; any other opcode has an unspecified outcome. OP_SUCCESSx, the signature budget and the stack limits of BIP-342 are consensus code outside this repository.
- Flows.AcceptedAssert: says nothing about outputs, because the code leaves them to the user's review; the same holds for output 0 of a Claim.
- Status words, APDU framing and the Merkleized transport of the PSBT: client plumbing; a command is accepted or rejected and the PSBT is a record.
- The base app (wallet policies, `preprocess_inputs`, its own signing of wallet inputs): not part of this repository; its totals, internal-input marks and policy facts are fields of the transaction record.
- SHA-256, tagged hashes, HKDF, BIP-32, the taproot tweak and Schnorr: foreign code, uninterpreted functions.
- Screens, address strings and `get_vault_state`: user interface and a reading of one branch.
- `bip322_compute_to_spend_txid` and the other PoP field checks, its key derivation included: straight-line comparisons, folded into one Boolean; the device signs PoP inputs through the base app.
- Zeroing as memory hygiene: modelled only where a later step reads the zeroed value.
- Stack budgets and the sign_standalone member of the scratch union: after validation the union may hold anything.
- Machine.SignerFollowsValidator: assumes the base app marks no input internal without a wallet policy, which is what the code's own comment relies on; the marking code is in the base app.
- SignedLeaf.CountedLeavesAreBooked: leaves out the payout leaf of the connector, which the code lets PayoutFinalize sign without a counter; `SignedLeaf.FinalizeSignsPayoutLeaf` states that.
- Runs.EveryRunSignsOnce: NoPayouts are only counted, as in the code, because nothing in a NoPayout names its group.
- Guarantees.AcceptedPayoutPaysOut: the Assert transaction behind input 1 is not identified, because the intent does not commit to it.
- NoPayout.NoPayoutPaysChallenger: the input total is the base app's, because the validator reads no amount of inputs 1 and 2; nothing in the record ties it to them.
- Payout.DepositorReceives: requires that the input sum fits in 64 bits, the exact condition found in `Payout.PayoutConserves`.
- Indices the signer takes from the context are checked in the model before they are used: a group outside the intent fails like the leaf builder or the assertion it reaches, and a claimer index above keeper_count + 1, which the code does not check, is refused; `MachineTheorems.AcceptedIsSigned` shows that neither occurs.
- The intent and the context are immutable records held in mutable fields, so updates replace a record; two handlers never hold references into the same one.
